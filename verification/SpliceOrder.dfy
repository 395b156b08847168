/**
  Which objects a rebuilt list reaches when old objects are spliced back in by identity
  (gnu-io/src/main/java/gnu/io/CommPortIdentifier.java), and in which order, for every
  enumeration: the same old object may be kept for several reported positions.

  `kept` says for each position which old object takes it, if any. A position without one
  is held by a new object of its own.
 */
module SpliceOrder {
  import opened Options

  /** No old object is kept for two positions. */
  ghost predicate Once<T>(kept: seq<Option<T>>) {
    forall i, j :: 0 <= i < j < |kept| && kept[i].Some? ==> kept[i] != kept[j]
  }

  /** The positions i and j are held by the same object. */
  predicate Same<T(==)>(kept: seq<Option<T>>, i: int, j: int) {
    0 <= i < |kept| && 0 <= j < |kept| && (i == j || (kept[i].Some? && kept[i] == kept[j]))
  }

  /** The object at i is at no later position below k. */
  predicate LastBelow<T(==)>(kept: seq<Option<T>>, i: int, k: int) {
    forall j :: i < j < k ==> !Same(kept, i, j)
  }

  /** The last position of the object at i. */
  function Last<T(==)>(kept: seq<Option<T>>, i: nat): (j: nat)
    requires i < |kept|
    ensures i <= j < |kept| && Same(kept, i, j) && LastBelow(kept, j, |kept|)
  {
    LastUpTo(kept, i, |kept| - 1)
  }

  function LastUpTo<T(==)>(kept: seq<Option<T>>, i: nat, k: nat): (j: nat)
    requires i <= k < |kept| && forall j :: k < j < |kept| ==> !Same(kept, i, j)
    ensures i <= j < |kept| && Same(kept, i, j) && LastBelow(kept, j, |kept|)
  {
    if Same(kept, i, k) then
      assert forall j :: k < j < |kept| && Same(kept, k, j) ==> Same(kept, i, j);
      k
    else LastUpTo(kept, i, k - 1)
  }

  /** The splice at j finds its own object as the predecessor and links it to itself. */
  predicate Doubled<T(==)>(kept: seq<Option<T>>, j: int) {
    0 < j < |kept| && kept[j].Some? && kept[j - 1] == kept[j]
  }

  /** The next splice does not mend that link. */
  predicate Stuck<T(==)>(kept: seq<Option<T>>, j: int) {
    Doubled(kept, j) && (j + 1 == |kept| || kept[j + 1].None?)
  }

  /** The positions that a walk from the object at i comes through, each the last one of
      its object; the walk goes on behind that one. */
  function Walk<T(==)>(kept: seq<Option<T>>, i: nat): (path: seq<nat>)
    requires i <= |kept|
    ensures i < |kept| ==> path != []
    ensures forall n :: 0 <= n < |path| ==> path[n] < |kept|
    decreases |kept| - i
  {
    if i == |kept| then []
    else
      var j := Last(kept, i);
      if Stuck(kept, j) then [j] else [j] + Walk(kept, j + 1)
  }

  /** Where the walk from the object at i ends. */
  function End<T(==)>(kept: seq<Option<T>>, i: nat): (j: nat)
    requires i < |kept|
    ensures j < |kept| && (Stuck(kept, j) || j == |kept| - 1)
    decreases |kept| - i
  {
    var j := Last(kept, i);
    if Stuck(kept, j) || j + 1 == |kept| then j else End(kept, j + 1)
  }

  /** The walk from the head runs into an object that is linked to itself. */
  predicate Loops<T(==)>(kept: seq<Option<T>>) {
    kept != [] && Stuck(kept, End(kept, 0))
  }

  /** The walk goes from position p to position q. */
  ghost predicate Leads<T>(kept: seq<Option<T>>, p: nat, q: nat) {
    p < q < |kept| && !Stuck(kept, p) && q == Last(kept, p + 1)
  }

  lemma {:induction false} WalkEnds<T>(kept: seq<Option<T>>, i: nat)
    requires i < |kept|
    ensures Walk(kept, i)[|Walk(kept, i)| - 1] == End(kept, i)
    decreases |kept| - i
  {
    var j := Last(kept, i);
    if !Stuck(kept, j) && j + 1 < |kept| {
      WalkEnds(kept, j + 1);
    }
  }

  lemma {:induction false} WalkPositions<T>(kept: seq<Option<T>>, i: nat, n: nat)
    requires i < |kept| && n < |Walk(kept, i)|
    ensures i <= Walk(kept, i)[n] < |kept| && LastBelow(kept, Walk(kept, i)[n], |kept|)
    ensures n == 0 ==> Walk(kept, i)[n] == Last(kept, i)
    decreases n
  {
    if n > 0 {
      WalkPositions(kept, Last(kept, i) + 1, n - 1);
    }
  }

  /** How a walk goes on at each of its positions. */
  lemma {:induction false} WalkLeads<T>(kept: seq<Option<T>>, i: nat, n: nat)
    requires i < |kept| && n + 1 < |Walk(kept, i)|
    ensures Leads(kept, Walk(kept, i)[n], Walk(kept, i)[n + 1])
    decreases n
  {
    var j := Last(kept, i);
    var rest := Walk(kept, j + 1);
    assert Walk(kept, i) == [j] + rest;
    if n > 0 {
      WalkLeads(kept, j + 1, n - 1);
    } else {
      WalkPositions(kept, j + 1, 0);
    }
  }

  lemma {:induction false} WalkAscends<T>(kept: seq<Option<T>>, m: nat, n: nat)
    requires kept != [] && m < n < |Walk(kept, 0)|
    ensures Walk(kept, 0)[m] < Walk(kept, 0)[n]
    decreases n
  {
    WalkLeads(kept, 0, n - 1);
    if m < n - 1 {
      WalkAscends(kept, m, n - 1);
    }
  }

  /** A walk comes through every position if and only if no object is kept twice, and then
      it ends. */
  lemma {:induction false} WalkIsWhole<T>(kept: seq<Option<T>>, i: nat)
    requires i <= |kept| && Once(kept)
    ensures |Walk(kept, i)| == |kept| - i
    ensures forall n :: 0 <= n < |kept| - i ==> Walk(kept, i)[n] == i + n
    decreases |kept| - i
  {
    if i < |kept| {
      assert Last(kept, i) == i;
      WalkIsWhole(kept, i + 1);
    }
  }

  lemma {:induction false} WalkIsShort<T>(kept: seq<Option<T>>, i: nat, a: nat, b: nat)
    requires i <= a < b < |kept| && Same(kept, a, b)
    ensures |Walk(kept, i)| < |kept| - i
    decreases |kept| - i
  {
    var j := Last(kept, i);
    if !Stuck(kept, j) {
      if j + 1 <= a {
        WalkIsShort(kept, j + 1, a, b);
      } else {
        WalkLength(kept, j + 1);
        assert i == j ==> i == a && Same(kept, j, b);
      }
    } else {
      assert i < j || |kept| - i > 1;
    }
  }

  lemma {:induction false} WalkLength<T>(kept: seq<Option<T>>, i: nat)
    requires i <= |kept|
    ensures |Walk(kept, i)| <= |kept| - i
    decreases |kept| - i
  {
    if i < |kept| && !Stuck(kept, Last(kept, i)) {
      WalkLength(kept, Last(kept, i) + 1);
    }
  }

  /** All positions are walked through exactly when no object is kept twice. */
  lemma WholeIffOnce<T>(kept: seq<Option<T>>)
    ensures |Walk(kept, 0)| == |kept| <==> Once(kept)
    ensures Once(kept) ==> !Loops(kept) && Walk(kept, 0) == seq(|kept|, i => i)
  {
    if Once(kept) {
      WalkIsWhole(kept, 0);
    } else {
      var i, j :| 0 <= i < j < |kept| && kept[i].Some? && kept[i] == kept[j];
      WalkIsShort(kept, 0, i, j);
    }
  }

  /** A self-link that the next splice leaves alone can still be mended by a later splice of
      the same object. */
  lemma MendedLater<T>(x: T)
    ensures var kept := [Some(x), Some(x), None, Some(x)];
      Stuck(kept, 1) && Walk(kept, 0) == [3] && !Loops(kept)
  {
    var kept := [Some(x), Some(x), None, Some(x)];
    assert Same(kept, 0, 3);
    assert Last(kept, 0) == 3;
    assert Walk(kept, 4) == [];
  }

  /** A self-link that stays need not be reached from the head. */
  lemma PassedOver<T>(x: T, y: T)
    requires x != y
    ensures var kept := [Some(y), Some(x), Some(x), None, Some(y)];
      Stuck(kept, 2) && LastBelow(kept, 2, 5) && Walk(kept, 0) == [4] && !Loops(kept)
  {
    var kept := [Some(y), Some(x), Some(x), None, Some(y)];
    assert Same(kept, 0, 4);
    assert Last(kept, 0) == 4;
    assert Walk(kept, 5) == [];
  }
}
