/** Labels and annotations: pkg/kubeutil/metadata.go and the keys of pkg/annotation. */
module Metadata {
  import opened Text
  import opened KubeUtil

  type Annotations = map<string, string>

  const RELOAD := "reload.octohelm.tech"
  const RELOAD_HASH := "reload.octohelm.tech/hash"
  const RELOAD_SECRET := "reload.octohelm.tech/secret"
  const RELOAD_CONFIG_MAP := "reload.octohelm.tech/configmap"
  const LABEL_APP_NAME := "app.octohelm.tech/name"

  /** `GetLabel` and `GetAnnotate`: an absent key reads as the empty string. */
  function Get(m: Annotations, key: string): string {
    if key in m then m[key] else ""
  }

  /** The map after `Annotate`; an empty value deletes the key.  `Label` has the same effect. */
  function Annotated(m: Annotations, key: string, value: string): Annotations {
    if value != "" then m[key := value] else m - {key}
  }

  /** The result of `Annotate`: whether it changed anything. */
  function AnnotateChanges(m: Annotations, key: string, value: string): bool {
    if value != "" then !(key in m && m[key] == value) else key in m
  }

  /** After annotating, the key reads as the value, every other key as before, and the report
      of a change is accurate. */
  lemma AnnotateEffect(m: Annotations, key: string, value: string)
    ensures Get(Annotated(m, key, value), key) == value
    ensures forall k | k != key :: Get(Annotated(m, key, value), k) == Get(m, k)
    ensures AnnotateChanges(m, key, value) <==> Annotated(m, key, value) != m
    ensures value != "" ==> (AnnotateChanges(m, key, value) <==> Get(m, key) != value)
  {
    if !AnnotateChanges(m, key, value) {
      assert Annotated(m, key, value) == m;
    } else if value != "" {
      assert Annotated(m, key, value)[key] == value;
    } else {
      assert key !in Annotated(m, key, value);
    }
  }

  /** `IsReloadMatch`: the comma-separated list under `key` names `n`. */
  predicate IsReloadMatch(annotations: Annotations, key: string, n: string) {
    key in annotations && n in Split(annotations[key], ',')
  }

  /** The map after `AppendAnnotate`: a comma-separated list grows without repeats. */
  function Appended(m: Annotations, key: string, value: string): Annotations {
    if value == "" then m - {key}
    else if key in m then m[key := Join(Deduplicated(Split(m[key], ',') + Split(value, ',')), ",")]
    else m[key := value]
  }

  method AppendAnnotate(m: Annotations, key: string, value: string) returns (after: Annotations)
    ensures after == Appended(m, key, value)
  {
    after := m;
    if value != "" {
      if key in after {
        var names := Union(Split(after[key], ','), Split(value, ','));
        after := after[key := Join(names, ",")];
      } else {
        after := after[key := value];
      }
    } else {
      after := after - {key};
    }
  }

  /** Appending adds the names of the value to those the list already has, and nothing else. */
  lemma AppendedNames(m: Annotations, key: string, value: string, n: string)
    requires value != ""
    ensures IsReloadMatch(Appended(m, key, value), key, n) <==> IsReloadMatch(m, key, n) || n in Split(value, ',')
    ensures forall k | k != key :: Get(Appended(m, key, value), k) == Get(m, k)
  {
    if key in m {
      var before, more := Split(m[key], ','), Split(value, ',');
      var names := Deduplicated(before + more);
      DeduplicatedMeaning(before + more);
      JoinOfSplit(m[key], ',');
      JoinOfSplit(value, ',');
      forall i | 0 <= i < |names| ensures Free(names[i], ',') { assert names[i] in names; }
      assert before[0] in names;
      SplitOfJoin(names, ',');
    }
  }
}
