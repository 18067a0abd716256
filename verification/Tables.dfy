/** Tables filled by a list of writes, where later writes overwrite earlier ones. */
module Tables {

  /** The table after the first `n` writes; `text` gives an entry its key. */
  function Upto<E, V>(text: E -> string, value: E -> V, log: seq<E>, n: nat): map<string, V>
    requires n <= |log|
  {
    if n == 0 then map[] else Upto(text, value, log, n - 1)[text(log[n - 1]) := value(log[n - 1])]
  }

  predicate Holds<V(==)>(table: map<string, V>, key: string, value: V) { key in table && table[key] == value }

  predicate DistinctKeys<E>(text: E -> string, log: seq<E>) {
    forall i, j | 0 <= i < j < |log| :: text(log[i]) != text(log[j])
  }

  /** No two entries are about the same thing. */
  predicate DistinctFirsts<A(==), B>(log: seq<(A, B)>) {
    forall i, j | 0 <= i < j < |log| :: log[i].0 != log[j].0
  }

  lemma {:induction false} UptoOfPrefix<E, V>(text: E -> string, value: E -> V, log: seq<E>, more: seq<E>, n: nat)
    requires n <= |log|
    ensures Upto(text, value, log + more, n) == Upto(text, value, log, n)
  {
    if n == 0 {
    } else {
      UptoOfPrefix(text, value, log, more, n - 1);
    }
  }

  /** An entry that no later one shares its key with is in the table. */
  lemma {:induction false} LastIsHeld<E, V>(text: E -> string, value: E -> V, log: seq<E>, n: nat, i: nat)
    requires i < n <= |log| && forall j | i < j < n :: text(log[j]) != text(log[i])
    ensures Holds(Upto(text, value, log, n), text(log[i]), value(log[i]))
  {
    if i < n - 1 { LastIsHeld(text, value, log, n - 1, i); }
  }

  /** Every key of the table is there because of the last entry with that key. */
  lemma {:induction false} LastWriter<E, V>(text: E -> string, value: E -> V, log: seq<E>, n: nat, key: string)
    returns (i: nat)
    requires n <= |log| && key in Upto(text, value, log, n)
    ensures i < n && text(log[i]) == key && Upto(text, value, log, n)[key] == value(log[i])
    ensures forall j | i < j < n :: text(log[j]) != key
  {
    if key == text(log[n - 1]) {
      i := n - 1;
    } else {
      i := LastWriter(text, value, log, n - 1, key);
    }
  }

  lemma {:induction false} EveryKeyIsThere<E, V>(text: E -> string, value: E -> V, log: seq<E>, n: nat, i: nat)
    requires i < n <= |log|
    ensures text(log[i]) in Upto(text, value, log, n)
  {
    if i < n - 1 { EveryKeyIsThere(text, value, log, n - 1, i); }
  }

  /** With distinct keys no entry overwrites another. */
  lemma {:induction false} NothingOverwritten<E, V>(text: E -> string, value: E -> V, log: seq<E>, n: nat)
    requires DistinctKeys(text, log) && n <= |log|
    ensures |Upto(text, value, log, n)| == n
    ensures forall i | 0 <= i < n :: Holds(Upto(text, value, log, n), text(log[i]), value(log[i]))
  {
    if n == 0 {
    } else {
      NothingOverwritten(text, value, log, n - 1);
      if text(log[n - 1]) in Upto(text, value, log, n - 1) {
        var i := LastWriter(text, value, log, n - 1, text(log[n - 1]));
        assert false;
      }
    }
  }
}
