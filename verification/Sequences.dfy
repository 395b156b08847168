/** Splicing elements into and out of sequences without repetition. */
module Sequences {

  ghost predicate Distinct<T>(s: seq<T>) {
    forall i, j :: 0 <= i < j < |s| ==> s[i] != s[j]
  }

  /** The object at a position, null outside the sequence. */
  ghost function At(s: seq<object>, i: int): object? {
    if 0 <= i < |s| then s[i] else null
  }

  function Spliced<T>(s: seq<T>, k: nat, x: T): seq<T>
    requires k <= |s|
  {
    s[..k] + [x] + s[k..]
  }

  function Dropped<T>(s: seq<T>, k: nat): seq<T>
    requires k < |s|
  {
    s[..k] + s[k + 1..]
  }

  lemma SplicedDistinct<T>(s: seq<T>, k: nat, x: T)
    requires Distinct(s) && k <= |s| && x !in s
    ensures Distinct(Spliced(s, k, x))
  {
  }

  lemma DroppedDistinct<T>(s: seq<T>, k: nat)
    requires Distinct(s) && k < |s|
    ensures Distinct(Dropped(s, k)) && s[k] !in Dropped(s, k)
  {
  }

  lemma DroppedAt<T>(s: seq<T>, k: nat)
    requires k < |s|
    ensures |Dropped(s, k)| == |s| - 1
    ensures forall i :: 0 <= i < |s| - 1 ==> Dropped(s, k)[i] == s[if i < k then i else i + 1]
  {
  }

  lemma DroppedMembers<T>(s: seq<T>, k: nat)
    requires Distinct(s) && k < |s|
    ensures forall x :: x in Dropped(s, k) <==> x in s && x != s[k]
  {
    assert forall i :: 0 <= i < |s| && i != k ==> Dropped(s, k)[if i < k then i else i - 1] == s[i];
  }
}
