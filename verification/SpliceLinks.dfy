/**
  The links that the splice loop of `getPortIdentifiers` leaves
  (gnu-io/src/main/java/gnu/io/CommPortIdentifier.java), and what they make of the registry:
  from the objects that the loop assigns to the list that a walk from the head finds.
 */
module SpliceLinks {
  import opened Options
  import opened Sequences
  import opened SpliceOrder
  import opened PortIdentifiers

  /** The object for each position: the old identifier that is kept, or the new one. */
  ghost function Chosen(kept: seq<Option<Identifier>>, added: seq<Identifier>): (chosen: seq<Identifier>)
    requires |kept| == |added|
    ensures |chosen| == |added|
    ensures forall i :: 0 <= i < |chosen| ==> chosen[i] == if kept[i].Some? then kept[i].value else added[i]
  {
    seq(|added|, i requires 0 <= i < |added| => if kept[i].Some? then kept[i].value else added[i])
  }

  /** The old objects that are kept for some position. */
  ghost function Reused(kept: seq<Option<Identifier>>): set<Identifier> {
    set i | 0 <= i < |kept| && kept[i].Some? :: kept[i].value
  }

  lemma ChosenApart(was: seq<Identifier>, reported: seq<Entry>, added: seq<Identifier>)
    requires |added| == |reported| && Distinct(added) && forall x <- was :: x !in added
    ensures Apart(Chosen(KeptAt(was, reported), added), added)
  {
  }

  /** The new objects are different, and an old one is at none of their positions. */
  ghost predicate Apart(chosen: seq<Identifier>, added: seq<Identifier>)
    requires |chosen| == |added|
  {
    Distinct(added) && forall i, j :: 0 <= i < |chosen| && 0 <= j < |added| && chosen[i] == added[j] ==> i == j
  }

  /** The object at i is at no later position below k. */
  ghost predicate FinalBelow(chosen: seq<Identifier>, i: nat, k: nat)
    requires i < k <= |chosen|
  {
    forall j :: i < j < k ==> chosen[j] != chosen[i]
  }

  /** A splice at k touches no object that it does not mean to. */
  lemma OthersDiffer(chosen: seq<Identifier>, added: seq<Identifier>, k: nat)
    requires k < |chosen| == |added| && Apart(chosen, added) && chosen[k] != added[k]
    ensures forall i {:trigger FinalBelow(chosen, i, k + 1)} :: 0 <= i < k && FinalBelow(chosen, i, k + 1) ==>
      FinalBelow(chosen, i, k) && chosen[i] != chosen[k] && (i < k - 1 ==> chosen[i] != chosen[k - 1])
    ensures forall j :: 0 <= j < |added| ==> added[j] != chosen[k]
    ensures forall j :: 0 < k <= j < |added| ==> added[j] != chosen[k - 1]
  {
  }

  /** Where the object whose last position is i points after k splices. */
  ghost function Link(chosen: seq<Identifier>, added: seq<Identifier>, k: nat, i: nat): object?
    requires i < k <= |chosen| == |added|
  {
    if i + 1 < k && chosen[i + 1] != added[i + 1] then chosen[i + 1]
    else if i > 0 && chosen[i - 1] == chosen[i] then chosen[i]
    else At(added, i + 1)
  }

  /** The new objects are different and none of them is kept. */
  ghost predicate Foreign(kept: seq<Option<Identifier>>, added: seq<Identifier>) {
    Distinct(added) && forall i, j :: 0 <= i < |kept| && 0 <= j < |added| && kept[i].Some? ==> kept[i].value != added[j]
  }

  lemma ChosenSame(kept: seq<Option<Identifier>>, added: seq<Identifier>, i: nat, j: nat)
    requires |kept| == |added| && Foreign(kept, added) && i < |kept| && j < |kept|
    ensures Chosen(kept, added)[i] == Chosen(kept, added)[j] <==> Same(kept, i, j)
  {
  }

  /** Where the object whose last position is p points in the end. */
  lemma Onward(kept: seq<Option<Identifier>>, added: seq<Identifier>, p: nat)
    requires |kept| == |added| && Foreign(kept, added) && p < |kept| && LastBelow(kept, p, |kept|)
    ensures FinalBelow(Chosen(kept, added), p, |kept|)
    ensures Link(Chosen(kept, added), added, |kept|, p)
         == if Stuck(kept, p) then Chosen(kept, added)[p] else At(Chosen(kept, added), p + 1)
  {
    forall j | p < j < |kept|
      ensures Chosen(kept, added)[j] != Chosen(kept, added)[p]
    {
      ChosenSame(kept, added, p, j);
    }
    if p > 0 {
      ChosenSame(kept, added, p - 1, p);
    }
  }

  /** The objects that a walk from the head comes through. */
  ghost function Listing(kept: seq<Option<Identifier>>, added: seq<Identifier>): (list: seq<Identifier>)
    requires |kept| == |added|
    ensures |list| == |Walk(kept, 0)|
    ensures forall m :: 0 <= m < |list| ==> list[m] == Chosen(kept, added)[Walk(kept, 0)[m]]
  {
    var path := Walk(kept, 0);
    seq(|path|, m requires 0 <= m < |path| => Chosen(kept, added)[path[m]])
  }

  lemma ListingDiffers(kept: seq<Option<Identifier>>, added: seq<Identifier>)
    requires |kept| == |added| && Foreign(kept, added)
    ensures Distinct(Listing(kept, added))
  {
    var path := Walk(kept, 0);
    forall m, n | 0 <= m < n < |path|
      ensures Listing(kept, added)[m] != Listing(kept, added)[n]
    {
      WalkPositions(kept, 0, m);
      WalkAscends(kept, m, n);
      ChosenSame(kept, added, path[m], path[n]);
    }
  }

  /** What follows in the listing; its last object follows itself when the walk loops. */
  ghost function Beyond(kept: seq<Option<Identifier>>, added: seq<Identifier>, m: nat): object?
    requires |kept| == |added| && m < |Listing(kept, added)|
  {
    if m + 1 < |Listing(kept, added)| then Listing(kept, added)[m + 1]
    else if Loops(kept) then Listing(kept, added)[m] else null
  }

  lemma ListingStep(kept: seq<Option<Identifier>>, added: seq<Identifier>, m: nat)
    requires |kept| == |added| && Foreign(kept, added) && m < |Walk(kept, 0)|
    ensures FinalBelow(Chosen(kept, added), Walk(kept, 0)[m], |kept|)
    ensures Link(Chosen(kept, added), added, |kept|, Walk(kept, 0)[m]) == Beyond(kept, added, m)
  {
    var p := Walk(kept, 0)[m];
    WalkPositions(kept, 0, m);
    Onward(kept, added, p);
    if m + 1 < |Walk(kept, 0)| {
      WalkLeads(kept, 0, m);
      OnwardLeads(kept, added, p, Walk(kept, 0)[m + 1]);
    } else {
      WalkEnds(kept, 0);
    }
  }

  lemma OnwardLeads(kept: seq<Option<Identifier>>, added: seq<Identifier>, p: nat, q: nat)
    requires |kept| == |added| && Foreign(kept, added) && Leads(kept, p, q) && LastBelow(kept, p, |kept|)
    ensures Link(Chosen(kept, added), added, |kept|, p) == Chosen(kept, added)[q]
  {
    Onward(kept, added, p);
    ChosenSame(kept, added, p + 1, q);
  }

  lemma ChosenNamed(was: seq<Identifier>, reported: seq<Entry>, added: seq<Identifier>, i: nat)
    requires i < |added| == |reported| && Is(added[i], reported[i])
    ensures Is(Chosen(KeptAt(was, reported), added)[i], reported[i])
  {
  }

  /** A name reported at a position of the walk is in the listing. */
  lemma ListingNamed(added: seq<Identifier>, was: seq<Identifier>, reported: seq<Entry>, s: string)
    requires |added| == |reported| && forall i :: 0 <= i < |added| ==> Is(added[i], reported[i])
    requires exists p <- Walk(KeptAt(was, reported), 0) :: reported[p].name == s
    ensures exists x <- Listing(KeptAt(was, reported), added) :: x.name == s
  {
    var kept := KeptAt(was, reported);
    var m :| 0 <= m < |Walk(kept, 0)| && reported[Walk(kept, 0)[m]].name == s;
    assert Listing(kept, added)[m].name == s;
  }

  // ---------- What a refresh makes of the world ----------

  /** A refresh with any enumeration: the list is what the walk finds, every reused object
      has the new driver, reached or not, and no other field changes. */
  ghost predicate Respliced(w: World, v: World, reported: seq<Entry>, added: seq<Identifier>, driver: Driver)
    requires |added| == |reported|
  {
    var kept := KeptAt(w.list, reported);
    && Foreign(kept, added) && v.list == Listing(kept, added) && v.made == w.made
    && FieldsRevised(w, v.fields, reported, added, driver)
  }

  ghost function Revised(f: Fields, reused: bool, driver: Driver): Fields {
    if reused then f.(driver := driver) else f
  }

  /** When no old object is kept twice the listing is the whole enumeration. */
  lemma WholeListing(kept: seq<Option<Identifier>>, added: seq<Identifier>)
    requires |kept| == |added| && Foreign(kept, added) && Once(kept)
    ensures Listing(kept, added) == Chosen(kept, added) && !Loops(kept)
  {
    WholeIffOnce(kept);
  }

  /** Everything but the list itself. */
  ghost predicate FieldsRevised(w: World, fields: map<Identifier, Fields>,
                                reported: seq<Entry>, added: seq<Identifier>, driver: Driver)
    requires |added| == |reported|
  {
    && (forall i :: 0 <= i < |added| ==> Is(added[i], reported[i]) && added[i] !in w.fields && added[i] in fields)
    && (forall x <- fields :: x !in w.fields ==> fields[x] == NewFields(driver))
    && (forall x <- w.fields :: x in fields &&
          fields[x] == Revised(w.fields[x], x in Reused(KeptAt(w.list, reported)), driver))
  }

  lemma ChosenRefreshed(w: World, v: World, reported: seq<Entry>, added: seq<Identifier>, driver: Driver)
    requires Listed(w) && |added| == |reported| && v.made == w.made
    requires FieldsRevised(w, v.fields, reported, added, driver)
    requires v.list == Chosen(KeptAt(w.list, reported), added) && Distinct(v.list)
    ensures Refreshed(w, v, reported, driver)
  {
    var kept := KeptAt(w.list, reported);
    forall i | 0 <= i < |reported|
      ensures Stands(w, v.fields, reported[i], v.list[i], driver)
    {
      assert kept[i].Some? ==> kept[i].value in Reused(kept);
    }
    forall x <- w.fields
      ensures x in v.list <==> x in Reused(kept)
    {
      if x in Reused(kept) {
        var i :| 0 <= i < |kept| && kept[i] == Some(x);
        assert v.list[i] == x;
      }
    }
  }

  /** The refreshed list is the whole enumeration, old objects kept where possible, if and
      only if no old object is kept for two reported positions. */
  lemma RefreshedIffOnce(w: World, v: World, reported: seq<Entry>, added: seq<Identifier>, driver: Driver)
    requires Listed(w) && |added| == |reported| && Respliced(w, v, reported, added, driver)
    ensures Refreshed(w, v, reported, driver) <==> Once(KeptAt(w.list, reported))
  {
    var kept := KeptAt(w.list, reported);
    WholeIffOnce(kept);
    if Once(kept) {
      WholeListing(kept, added);
      ListingDiffers(kept, added);
      ChosenRefreshed(w, v, reported, added, driver);
    }
  }

  /** Different names suffice. */
  lemma DifferentNamesOnce(list: seq<Identifier>, reported: seq<Entry>)
    requires DistinctNames(reported)
    ensures Once(KeptAt(list, reported))
  {
    var kept := KeptAt(list, reported);
    forall i, j | 0 <= i < j < |kept| && kept[i].Some?
      ensures kept[i] != kept[j]
    {
      assert reported[i].name != reported[j].name;
    }
  }

  // ---------- Which old identifiers are still reached ----------

  /** The walk over the enumeration comes through a position that keeps `x`. */
  ghost predicate Found(list: seq<Identifier>, reported: seq<Entry>, x: Identifier) {
    var kept := KeptAt(list, reported);
    exists p <- Walk(kept, 0) :: kept[p] == Some(x)
  }

  /** For any enumeration: an old identifier is in the refreshed list if and only if the walk
      finds it. */
  lemma StaysIffFound(w: World, v: World, reported: seq<Entry>, added: seq<Identifier>, driver: Driver, x: Identifier)
    requires |added| == |reported| && Respliced(w, v, reported, added, driver) && x in w.fields
    ensures x in v.list <==> Found(w.list, reported, x)
  {
    var kept := KeptAt(w.list, reported);
    var path := Walk(kept, 0);
    if x in v.list {
      var m :| 0 <= m < |v.list| && v.list[m] == x;
      assert path[m] in path && kept[path[m]] == Some(x);
    }
    if Found(w.list, reported, x) {
      var m :| 0 <= m < |path| && kept[path[m]] == Some(x);
      assert v.list[m] == x;
    }
  }

  /** Where no old object is kept twice and the old names differ, those are the identifiers
      whose name and type are reported. */
  lemma FoundIffReported(list: seq<Identifier>, reported: seq<Entry>, x: Identifier)
    requires NamesDiffer(list) && Once(KeptAt(list, reported)) && x in list
    ensures Found(list, reported, x) <==> Entry(x.name, x.ptype) in reported
  {
    var kept := KeptAt(list, reported);
    WholeIffOnce(kept);
    if Found(list, reported, x) {
      var p :| p in Walk(kept, 0) && kept[p] == Some(x);
      assert reported[p] == Entry(x.name, x.ptype);
    }
    if Entry(x.name, x.ptype) in reported {
      var i :| 0 <= i < |reported| && reported[i] == Entry(x.name, x.ptype);
      KeptExactly(list, reported[i], x);
      assert Walk(kept, 0)[i] == i;
    }
  }

  /** An identifier that is reported can be lost: between two positions of another one. */
  lemma ReportedAndLost(list: seq<Identifier>, x: Identifier, y: Identifier)
    requires NamesDiffer(list) && x in list && y in list && x != y
    ensures var reported := [Entry(y.name, y.ptype), Entry(x.name, x.ptype), Entry(y.name, y.ptype)];
      !Found(list, reported, x) && Found(list, reported, y) && !Loops(KeptAt(list, reported))
  {
    var reported := [Entry(y.name, y.ptype), Entry(x.name, x.ptype), Entry(y.name, y.ptype)];
    var kept := KeptAt(list, reported);
    KeptExactly(list, reported[0], y);
    KeptExactly(list, reported[1], x);
    assert kept == [Some(y), Some(x), Some(y)];
    assert Same(kept, 0, 2) && Last(kept, 0) == 2;
    assert Walk(kept, 3) == [] && Walk(kept, 0) == [2];
    assert 2 in Walk(kept, 0);
  }

  // ---------- Cycles anywhere among the objects ----------

  /** Objects each of which points to the next, and the last to the first. */
  ghost predicate Ring(ring: seq<Identifier>)
    reads ring
  {
    ring != [] && forall i {:trigger ring[i].next} :: 0 <= i < |ring| ==>
      ring[i].next == ring[if i + 1 < |ring| then i + 1 else 0]
  }

  /** The final links among the chosen objects. */
  ghost predicate Settled(kept: seq<Option<Identifier>>, added: seq<Identifier>)
    requires |kept| == |added|
    reads Chosen(kept, added)
  {
    forall p :: 0 <= p < |kept| && LastBelow(kept, p, |kept|) ==>
      Chosen(kept, added)[p].next == if Stuck(kept, p) then Chosen(kept, added)[p] else At(Chosen(kept, added), p + 1)
  }

  ghost function Rank(kept: seq<Option<Identifier>>, added: seq<Identifier>, x: Identifier): (p: nat)
    requires |kept| == |added| && Foreign(kept, added) && x in Chosen(kept, added)
    ensures p < |kept| && Chosen(kept, added)[p] == x && LastBelow(kept, p, |kept|)
  {
    var i :| 0 <= i < |added| && Chosen(kept, added)[i] == x;
    ChosenSame(kept, added, i, Last(kept, i));
    Last(kept, i)
  }

  lemma RankIsLast(kept: seq<Option<Identifier>>, added: seq<Identifier>, j: nat)
    requires |kept| == |added| && Foreign(kept, added) && j < |kept|
    ensures j <= Rank(kept, added, Chosen(kept, added)[j])
  {
    ChosenSame(kept, added, Rank(kept, added, Chosen(kept, added)[j]), j);
  }

  lemma {:induction false} HighestRank(kept: seq<Option<Identifier>>, added: seq<Identifier>, ring: seq<Identifier>)
    returns (m: nat)
    requires |kept| == |added| && Foreign(kept, added) && ring != []
    requires forall x <- ring :: x in Chosen(kept, added)
    ensures m < |ring|
    ensures forall i :: 0 <= i < |ring| ==> Rank(kept, added, ring[i]) <= Rank(kept, added, ring[m])
  {
    m := 0;
    for k := 1 to |ring|
      invariant m < |ring|
      invariant forall i :: 0 <= i < k ==> Rank(kept, added, ring[i]) <= Rank(kept, added, ring[m])
    {
      if Rank(kept, added, ring[m]) < Rank(kept, added, ring[k]) {
        m := k;
      }
    }
  }

  /** Every cycle among the objects goes through one whose last splice left it stuck. */
  lemma RingIsStuck(kept: seq<Option<Identifier>>, added: seq<Identifier>, ring: seq<Identifier>) returns (j: nat)
    requires |kept| == |added| && Foreign(kept, added) && Settled(kept, added)
    requires Ring(ring) && forall x <- ring :: x in Chosen(kept, added)
    ensures j < |kept| && LastBelow(kept, j, |kept|) && Stuck(kept, j)
  {
    var m := HighestRank(kept, added, ring);
    j := Rank(kept, added, ring[m]);
    if j + 1 < |kept| {
      RankIsLast(kept, added, j + 1);
    }
  }

  /** The links contain a cycle if and only if some object is kept for two neighbouring
      positions, for none after them, and nothing is kept for the position behind. */
  lemma CycleIffStuck(kept: seq<Option<Identifier>>, added: seq<Identifier>)
    requires |kept| == |added| && Foreign(kept, added) && Settled(kept, added)
    ensures (exists ring :: Ring(ring) && forall x <- ring :: x in Chosen(kept, added))
       <==> (exists j :: 0 <= j < |kept| && LastBelow(kept, j, |kept|) && Stuck(kept, j))
  {
    if ring :| Ring(ring) && forall x <- ring :: x in Chosen(kept, added) {
      var j := RingIsStuck(kept, added, ring);
    }
    if j :| 0 <= j < |kept| && LastBelow(kept, j, |kept|) && Stuck(kept, j) {
      assert Ring([Chosen(kept, added)[j]]);
    }
  }
}
