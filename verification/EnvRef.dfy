/** Environment variables as text: `EnvVarValueOrFrom` of pkg/apis/kubepkg/v1alpha1/container.go. */
module EnvRef {
  import opened Wrappers
  import opened Text

  /** A key of a config map or secret; `optional` is the pointer to bool. */
  datatype KeyRef = KeyRef(name: string, key: string, optional: Option<bool>)

  /** corev1.EnvVarSource, as far as the text form keeps it. */
  datatype Source = Source(
    fieldRef: Option<string>, resourceRef: Option<string>, configMapRef: Option<KeyRef>, secretRef: Option<KeyRef>)

  const NO_SOURCE := Source(None, None, None, None)

  datatype EnvVar = EnvVar(value: string, valueFrom: Option<Source>)

  const FRESH := EnvVar("", None)

  function KeyText(ref: KeyRef): string {
    ref.name + "/" + ref.key + (if ref.optional == Some(true) then "?" else "")
  }

  /** `MarshalText`. */
  function Marshal(e: EnvVar): string {
    if e.valueFrom.None? then e.value
    else
      var from := e.valueFrom.value;
      "@" + if from.fieldRef.Some? then "field/" + from.fieldRef.value
            else if from.resourceRef.Some? then "resource/" + from.resourceRef.value
            else if from.configMapRef.Some? then "configMap/" + KeyText(from.configMapRef.value)
            else if from.secretRef.Some? then "secret/" + KeyText(from.secretRef.value)
            else ""
  }

  /** `LastIndex(s, "/")`. */
  function LastSlash(s: string): (i: int)
    ensures -1 <= i < |s| && (i >= 0 ==> s[i] == '/')
    ensures forall j | i < j < |s| :: s[j] != '/'
  {
    if s == "" then -1 else if s[|s| - 1] == '/' then |s| - 1 else LastSlash(s[..|s| - 1])
  }

  /** The parts of `@src/key`, cut at the last slash. */
  function Cut(text: string): Option<(string, string)> {
    if text != "" && text[0] == '@' && LastSlash(text) >= 0
    then Some((text[1..LastSlash(text)], text[LastSlash(text) + 1..]))
    else None
  }

  /** `TrimRight(s, "?")`. */
  function TrimMarks(s: string): string {
    if s != "" && s[|s| - 1] == '?' then TrimMarks(s[..|s| - 1]) else s
  }

  predicate HasMark(s: string) { s != "" && s[|s| - 1] == '?' }

  /** The reference after `prefix/`; `None` is the panic of slicing past the end. */
  function ParseKeyRef(src: string, key: string, prefix: string): Option<KeyRef>
    requires prefix <= src
  {
    if |src| < |prefix| + 1 then None
    else Some(KeyRef(src[|prefix| + 1..], TrimMarks(key), if HasMark(key) then Some(true) else None))
  }

  /** The cases of `UnmarshalText`, by the prefix of what precedes the last slash.  The case of a
      field reference falls through to the end, where the value is set too. */
  function Interpret(text: string, src: string, key: string, e: EnvVar): Option<EnvVar> {
    if "field" <= src then Some(EnvVar(text, Some(NO_SOURCE.(fieldRef := Some(key)))))
    else if "resource" <= src then Some(e.(valueFrom := Some(NO_SOURCE.(resourceRef := Some(key)))))
    else if "configMap" <= src then
      var r := ParseKeyRef(src, key, "configMap");
      if r.None? then None else Some(e.(valueFrom := Some(NO_SOURCE.(configMapRef := r))))
    else if "secret" <= src then
      var r := ParseKeyRef(src, key, "secret");
      if r.None? then None else Some(e.(valueFrom := Some(NO_SOURCE.(secretRef := r))))
    else Some(e.(value := text))
  }

  /** `UnmarshalText` into `e`; `None` is a panic. */
  function Unmarshal(text: string, e: EnvVar): Option<EnvVar> {
    if text == "" then Some(e)
    else if Cut(text).None? then Some(e.(value := text))
    else Interpret(text, Cut(text).value.0, Cut(text).value.1, e)
  }

  class EnvVarValueOrFrom {
    var value: string
    var valueFrom: Option<Source>

    constructor ()
      ensures EnvVar(value, valueFrom) == FRESH
    {
      value, valueFrom := "", None;
    }

    method UnmarshalText(text: string) returns (panicked: bool)
      modifies this
      ensures panicked <==> Unmarshal(text, old(EnvVar(value, valueFrom))).None?
      ensures !panicked ==> Some(EnvVar(value, valueFrom)) == Unmarshal(text, old(EnvVar(value, valueFrom)))
    {
      if text == "" { return false; }
      if text[0] == '@' {
        var idx := LastSlash(text);
        if idx > -1 {
          var src, key := text[1..idx], text[idx + 1..];
          if "field" <= src {
            valueFrom := Some(NO_SOURCE.(fieldRef := Some(key)));
          } else if "resource" <= src {
            valueFrom := Some(NO_SOURCE.(resourceRef := Some(key)));
            return false;
          } else if "configMap" <= src {
            var r := ParseKeyRef(src, key, "configMap");
            if r.None? { return true; }
            valueFrom := Some(NO_SOURCE.(configMapRef := r));
            return false;
          } else if "secret" <= src {
            var r := ParseKeyRef(src, key, "secret");
            if r.None? { return true; }
            valueFrom := Some(NO_SOURCE.(secretRef := r));
            return false;
          }
        }
      }
      value := text;
      return false;
    }
  }

  // ------------------------------------------------------------------ text lemmas

  lemma CutMeaning(text: string)
    requires Cut(text).Some?
    ensures var (src, key) := Cut(text).value; text == "@" + src + "/" + key && Free(key, '/')
  {
    var i := LastSlash(text);
    assert text == text[..1] + text[1..i] + text[i..i + 1] + text[i + 1..];
    assert text[..1] == "@" && text[i..i + 1] == "/";
  }

  lemma CutOf(src: string, key: string)
    requires Free(key, '/')
    ensures Cut("@" + src + "/" + key) == Some((src, key))
  {
    var text := "@" + src + "/" + key;
    var i := |src| + 1;
    assert text[i] == '/' && text[i + 1..] == key && text[1..i] == src;
    assert forall j | i < j < |text| :: text[j] == key[j - i - 1];
    assert LastSlash(text) == i;
  }

  lemma {:induction false} TrimMarksMeaning(s: string)
    ensures TrimMarks(s) <= s && !HasMark(TrimMarks(s))
    ensures TrimMarks(s) == s <==> !HasMark(s)
    ensures Free(s, '/') ==> Free(TrimMarks(s), '/')
  {
    if HasMark(s) { TrimMarksMeaning(s[..|s| - 1]); }
  }

  // --------------------------------------------------------------------- theorems

  /** `@configMap/` or `@secret/` followed by no other slash. */
  ghost predicate BareReference(text: string) {
    exists k :: Free(k, '/') && (text == "@configMap/" + k || text == "@secret/" + k)
  }

  /** Unmarshalling panics exactly on bare references. */
  lemma PanicsExactly(text: string, e: EnvVar)
    ensures Unmarshal(text, e).None? <==> BareReference(text)
  {
    if Unmarshal(text, e).None? { PanicIsBare(text, e); }
    if BareReference(text) { BarePanics(text, e); }
  }

  lemma PanicIsBare(text: string, e: EnvVar)
    requires Unmarshal(text, e).None?
    ensures BareReference(text)
  {
    CutMeaning(text);
    var src, k := Cut(text).value.0, Cut(text).value.1;
    assert src == "configMap" || src == "secret";
    BareTexts(k);
  }

  lemma BarePanics(text: string, e: EnvVar)
    requires BareReference(text)
    ensures Unmarshal(text, e).None?
  {
    var k :| Free(k, '/') && (text == "@configMap/" + k || text == "@secret/" + k);
    BareTexts(k);
    PanicsOn(if text == "@configMap/" + k then "configMap" else "secret", k, e);
  }

  lemma BareTexts(k: string)
    ensures "@configMap/" + k == "@" + "configMap" + "/" + k && "@secret/" + k == "@" + "secret" + "/" + k
  {
    assert "@configMap/" == "@" + "configMap" + "/";
    assert "@secret/" == "@" + "secret" + "/";
  }

  lemma PanicsOn(src: string, k: string, e: EnvVar)
    requires Free(k, '/') && (src == "configMap" || src == "secret")
    ensures Unmarshal("@" + src + "/" + k, e).None?
  {
    CutOf(src, k);
    assert src[0] != 'f' && src[0] != 'r';
  }

  /** What a reference reads back as: one source, `Optional` false as nil, and for a field
      reference the text as value. */
  function Canonical(e: EnvVar): EnvVar {
    if e.valueFrom.None? then e
    else
      var from := e.valueFrom.value;
      if from.fieldRef.Some? then EnvVar(Marshal(e), Some(NO_SOURCE.(fieldRef := from.fieldRef)))
      else EnvVar("", Some(
        if from.resourceRef.Some? then NO_SOURCE.(resourceRef := from.resourceRef)
        else if from.configMapRef.Some? then NO_SOURCE.(configMapRef := Some(CanonicalKey(from.configMapRef.value)))
        else if from.secretRef.Some? then NO_SOURCE.(secretRef := Some(CanonicalKey(from.secretRef.value)))
        else NO_SOURCE))
  }

  function CanonicalKey(ref: KeyRef): KeyRef {
    ref.(optional := if ref.optional == Some(true) then Some(true) else None)
  }

  /** A plain value that reads as a reference. */
  predicate LooksLikeReference(text: string) {
    Cut(text).Some? &&
    var src := Cut(text).value.0;
    "field" <= src || "resource" <= src || "configMap" <= src || "secret" <= src
  }

  predicate PlainKey(key: string) { Free(key, '/') && !HasMark(key) }

  /** Conditions a caller can check before writing the variable down. */
  predicate Representable(e: EnvVar) {
    if e.valueFrom.None? then !LooksLikeReference(e.value)
    else
      var from := e.valueFrom.value;
      if from.fieldRef.Some? then Free(from.fieldRef.value, '/')
      else if from.resourceRef.Some? then Free(from.resourceRef.value, '/')
      else if from.configMapRef.Some? then PlainKey(from.configMapRef.value.key)
      else from.secretRef.Some? && PlainKey(from.secretRef.value.key)
  }

  /** A variable survives being written and read exactly when it is representable. */
  lemma RoundTripExactly(e: EnvVar)
    ensures Unmarshal(Marshal(e), FRESH) == Some(Canonical(e)) <==> Representable(e)
  {
    if e.valueFrom.None? {
      PlainValueRoundTrip(e.value);
    } else {
      var from := e.valueFrom.value;
      if from.fieldRef.Some? {
        PathRoundTrip(e, "field", from.fieldRef.value);
      } else if from.resourceRef.Some? {
        PathRoundTrip(e, "resource", from.resourceRef.value);
      } else if from.configMapRef.Some? {
        KeyRoundTrip(e, "configMap", from.configMapRef.value);
      } else if from.secretRef.Some? {
        KeyRoundTrip(e, "secret", from.secretRef.value);
      } else {
        assert Marshal(e) == "@" && Cut("@").None?;
      }
    }
  }

  lemma PlainValueRoundTrip(text: string)
    ensures Unmarshal(text, FRESH) == Some(EnvVar(text, None)) <==> !LooksLikeReference(text)
  {
  }

  lemma PathRoundTrip(e: EnvVar, prefix: string, path: string)
    requires e.valueFrom.Some?
    requires (prefix == "field" && e.valueFrom.value.fieldRef == Some(path)) ||
      (prefix == "resource" && e.valueFrom.value.fieldRef.None? && e.valueFrom.value.resourceRef == Some(path))
    ensures Unmarshal(Marshal(e), FRESH) == Some(Canonical(e)) <==> Free(path, '/')
  {
    PathText(e, prefix, path);
    if Free(path, '/') {
      CutOf(prefix, path);
    } else {
      ReadPathsHaveNoSlash(Marshal(e));
    }
  }

  lemma ReadPathsHaveNoSlash(text: string)
    ensures match Unmarshal(text, FRESH)
      case Some(EnvVar(_, Some(from))) =>
        (from.fieldRef.Some? ==> Free(from.fieldRef.value, '/')) &&
        (from.resourceRef.Some? ==> Free(from.resourceRef.value, '/'))
      case _ => true
  {
    if Cut(text).Some? { CutMeaning(text); }
  }

  lemma PathText(e: EnvVar, prefix: string, path: string)
    requires e.valueFrom.Some?
    requires (prefix == "field" && e.valueFrom.value.fieldRef == Some(path)) ||
      (prefix == "resource" && e.valueFrom.value.fieldRef.None? && e.valueFrom.value.resourceRef == Some(path))
    ensures Marshal(e) == "@" + prefix + "/" + path
    ensures prefix[0] == if prefix == "field" then 'f' else 'r'
  {
  }

  lemma KeyRoundTrip(e: EnvVar, prefix: string, ref: KeyRef)
    requires e.valueFrom.Some? && e.valueFrom.value.fieldRef.None? && e.valueFrom.value.resourceRef.None?
    requires (prefix == "configMap" && e.valueFrom.value.configMapRef == Some(ref)) ||
      (prefix == "secret" && e.valueFrom.value.configMapRef.None? && e.valueFrom.value.secretRef == Some(ref))
    ensures Unmarshal(Marshal(e), FRESH) == Some(Canonical(e)) <==> PlainKey(ref.key)
  {
    var text := Marshal(e);
    var key := ref.key + (if ref.optional == Some(true) then "?" else "");
    assert text == "@" + prefix + "/" + KeyText(ref) == "@" + (prefix + "/" + ref.name) + "/" + key;
    if Free(ref.key, '/') {
      CutOf(prefix + "/" + ref.name, key);
      InterpretKey(text, prefix, ref, key);
    } else {
      ReadKeysHaveNoSlash(text, ref.key);
    }
  }

  lemma ReadKeysHaveNoSlash(text: string, key: string)
    requires !Free(key, '/')
    ensures Unmarshal(text, FRESH).Some? ==>
      var from := Unmarshal(text, FRESH).value.valueFrom;
      (from.Some? && from.value.configMapRef.Some? ==> from.value.configMapRef.value.key != key) &&
      (from.Some? && from.value.secretRef.Some? ==> from.value.secretRef.value.key != key)
  {
    if Cut(text).Some? {
      CutMeaning(text);
      TrimMarksMeaning(Cut(text).value.1);
    }
  }

  lemma InterpretKey(text: string, prefix: string, ref: KeyRef, key: string)
    requires prefix == "configMap" || prefix == "secret"
    requires key == ref.key + (if ref.optional == Some(true) then "?" else "")
    ensures var r := KeyRef(ref.name, TrimMarks(key), if HasMark(key) then Some(true) else None);
      Interpret(text, prefix + "/" + ref.name, key, FRESH) == Some(EnvVar("", Some(
        if prefix == "configMap" then NO_SOURCE.(configMapRef := Some(r)) else NO_SOURCE.(secretRef := Some(r)))))
    ensures TrimMarks(key) == ref.key && (HasMark(key) <==> ref.optional == Some(true)) <==> !HasMark(ref.key)
  {
    var src := prefix + "/" + ref.name;
    assert src[0] == prefix[0] == (if prefix == "configMap" then 'c' else 's');
    assert prefix <= src && src[|prefix| + 1..] == ref.name;
    TrimMarksMeaning(ref.key);
    TrimMarksMeaning(key);
    if ref.optional == Some(true) { assert key[..|key| - 1] == ref.key; }
  }

  /** Writing back what was read normalises: doing it twice changes nothing more, for every
      text that does not panic. */
  lemma NormalisesOnce(text: string)
    requires Unmarshal(text, FRESH).Some?
    ensures var norm := Marshal(Unmarshal(text, FRESH).value);
      Unmarshal(norm, FRESH).Some? && Marshal(Unmarshal(norm, FRESH).value) == norm
  {
    var e := Unmarshal(text, FRESH).value;
    if e.valueFrom.Some? {
      CutMeaning(text);
      ReadIsRepresentable(text);
      RoundTripExactly(e);
      CanonicalKeepsText(e);
    }
  }

  /** Whatever was read as a reference can be written and read again. */
  lemma ReadIsRepresentable(text: string)
    requires Unmarshal(text, FRESH).Some? && Unmarshal(text, FRESH).value.valueFrom.Some?
    ensures Representable(Unmarshal(text, FRESH).value)
  {
    CutMeaning(text);
    TrimMarksMeaning(Cut(text).value.1);
  }

  lemma CanonicalKeepsText(e: EnvVar)
    ensures Marshal(Canonical(e)) == Marshal(e)
  {
  }

  // ------------------------------------------------------------------ the four forms

  /** A path is read as a field or a resource when what precedes the last slash begins with that word. */
  lemma PathsRead(rest: string, key: string, e: EnvVar)
    requires Free(key, '/')
    ensures Unmarshal("@field" + rest + "/" + key, e) ==
      Some(EnvVar("@field" + rest + "/" + key, Some(NO_SOURCE.(fieldRef := Some(key)))))
    ensures Unmarshal("@resource" + rest + "/" + key, e) == Some(e.(valueFrom := Some(NO_SOURCE.(resourceRef := Some(key)))))
  {
    assert "@" + "field" == "@field" && "@" + "resource" == "@resource";
    ReadWord("field", rest, key);
    ReadWord("resource", rest, key);
    assert ("resource" + rest)[0] == 'r';
  }

  /** A key is read likewise, less any marks at its end, which make it optional; of what precedes the slash,
      the word and one more character are dropped. */
  lemma KeysRead(c: char, name: string, key: string, e: EnvVar)
    requires Free(key, '/')
    ensures var ref := Some(KeyRef(name, TrimMarks(key), if HasMark(key) then Some(true) else None));
      Unmarshal("@configMap" + ([c] + name) + "/" + key, e) == Some(e.(valueFrom := Some(NO_SOURCE.(configMapRef := ref)))) &&
      Unmarshal("@secret" + ([c] + name) + "/" + key, e) == Some(e.(valueFrom := Some(NO_SOURCE.(secretRef := ref))))
  {
    assert "@" + "configMap" == "@configMap" && "@" + "secret" == "@secret";
    KeyReads("configMap", c, name, key, e);
    KeyReads("secret", c, name, key, e);
  }

  lemma KeyReads(word: string, c: char, name: string, key: string, e: EnvVar)
    requires Free(key, '/') && (word == "configMap" || word == "secret")
    ensures var ref := Some(KeyRef(name, TrimMarks(key), if HasMark(key) then Some(true) else None));
      Unmarshal("@" + word + ([c] + name) + "/" + key, e) ==
        Some(e.(valueFrom := Some(if word == "configMap" then NO_SOURCE.(configMapRef := ref) else NO_SOURCE.(secretRef := ref))))
  {
    ReadWord(word, [c] + name, key);
    var src := word + ([c] + name);
    assert src[0] == word[0] && src[|word| + 1..] == name;
  }

  lemma ReadWord(word: string, rest: string, key: string)
    requires Free(key, '/')
    ensures Cut("@" + word + rest + "/" + key) == Some((word + rest, key)) && word <= word + rest
  {
    CutOf(word + rest, key);
    assert "@" + (word + rest) + "/" + key == "@" + word + rest + "/" + key;
  }

  /** What does not begin with `@`, or has no slash, is a value; so is what has none of the four words. */
  lemma ValuesRead(text: string, src: string, key: string, e: EnvVar)
    requires Free(key, '/')
    ensures text != "" && (text[0] != '@' || Free(text, '/')) ==> Unmarshal(text, e) == Some(e.(value := text))
    ensures Unmarshal("", e) == Some(e)
    ensures !("field" <= src) && !("resource" <= src) && !("configMap" <= src) && !("secret" <= src) ==>
      Unmarshal("@" + src + "/" + key, e) == Some(e.(value := "@" + src + "/" + key))
  {
    CutOf(src, key);
    if text != "" && LastSlash(text) >= 0 { assert text[LastSlash(text)] in text; }
  }

  lemma Writes(v: string, from: Source, word: string, ref: KeyRef)
    requires from.fieldRef.None? && from.resourceRef.None?
    requires if word == "configMap/" then from.configMapRef == Some(ref)
             else word == "secret/" && from.configMapRef.None? && from.secretRef == Some(ref)
    ensures Marshal(EnvVar(v, Some(from))) == "@" + word + (ref.name + "/" + ref.key + if ref.optional == Some(true) then "?" else "")
  {
    assert "@" + (word + KeyText(ref)) == "@" + word + KeyText(ref);
  }

  /** How variables are written: a value as it is, a reference as the first of its four sources. */
  lemma PathsWrite(v: string, from: Source)
    ensures Marshal(EnvVar(v, None)) == v
    ensures from.fieldRef.Some? ==> Marshal(EnvVar(v, Some(from))) == "@field/" + from.fieldRef.value
    ensures from.fieldRef.None? && from.resourceRef.Some? ==>
      Marshal(EnvVar(v, Some(from))) == "@resource/" + from.resourceRef.value
  {
    if from.fieldRef.Some? {
      Associative("@", "field/", from.fieldRef.value);
      assert "@" + "field/" == "@field/";
    } else if from.resourceRef.Some? {
      Associative("@", "resource/", from.resourceRef.value);
      assert "@" + "resource/" == "@resource/";
    }
  }

  lemma KeysWrite(v: string, from: Source, name: string, key: string, optional: Option<bool>)
    requires from.fieldRef.None? && from.resourceRef.None?
    ensures var mark := if optional == Some(true) then "?" else "";
      (from.configMapRef == Some(KeyRef(name, key, optional)) ==>
        Marshal(EnvVar(v, Some(from))) == "@configMap/" + (name + "/" + key + mark)) &&
      (from.configMapRef.None? && from.secretRef == Some(KeyRef(name, key, optional)) ==>
        Marshal(EnvVar(v, Some(from))) == "@secret/" + (name + "/" + key + mark))
  {
    assert "@" + "configMap/" == "@configMap/" && "@" + "secret/" == "@secret/";
    if from.configMapRef.Some? {
      Writes(v, from, "configMap/", from.configMapRef.value);
    } else if from.secretRef.Some? {
      Writes(v, from, "secret/", from.secretRef.value);
    }
  }
}
