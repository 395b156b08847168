/**
  The registry's singly linked list of identifiers
  (gnu-io/src/main/java/gnu/io/CommPortIdentifier.java): appending, the two searches, the
  close that goes through a CommPort (CommPort.java), and the refresh that rebuilds the
  list and splices old objects back in by identity.
 */
module PortRegistry {
  import opened Sequences
  import opened Options
  import opened PortIdentifiers
  import opened SpliceOrder
  import opened SpliceLinks
  import opened PortRuns

  class Registry {
    var index: Identifier?
    ghost var nodes: seq<Identifier>
    ghost var known: set<Identifier>
    ghost var made: set<Port>

    /** The links run through `nodes` from the head to null, without a cycle. */
    ghost predicate Linked()
      reads this, nodes
    {
      && Distinct(nodes)
      && (forall i :: 0 <= i < |nodes| ==> nodes[i] in known)
      && index == At(nodes, 0)
      && (forall i {:trigger nodes[i].next} :: 0 <= i < |nodes| ==> nodes[i].next == At(nodes, i + 1))
    }

    /** The links run through `nodes` and then from the last of them to itself. */
    ghost predicate Looped()
      reads this, nodes
    {
      && nodes != [] && Distinct(nodes)
      && (forall i :: 0 <= i < |nodes| ==> nodes[i] in known)
      && index == nodes[0]
      && (forall i {:trigger nodes[i].next} :: 0 <= i < |nodes| ==>
            nodes[i].next == if i == |nodes| - 1 then nodes[i] else nodes[i + 1])
    }

    ghost function Snapshot(): map<Identifier, Fields>
      reads this`known, known
    {
      map x | x in known :: x.Now()
    }

    ghost function Current(): World
      reads this, known
    {
      World(nodes, Snapshot(), made)
    }

    constructor ()
      ensures Linked() && nodes == [] && known == {} && made == {}
    {
      index, nodes, known, made := null, [], {}, {};
    }

    /** `AddIdentifierToList`: walks to the end and links the identifier in there. */
    method AddIdentifier(cpi: Identifier)
      requires Linked() && cpi !in known && cpi.next == null
      modifies this`index, this`nodes, this`known, known`next
      ensures Linked() && nodes == old(nodes) + [cpi] && known == old(known) + {cpi}
      ensures forall x <- old(known) :: x !in old(nodes) ==> x.next == old(x.next)
    {
      if index == null {
        index := cpi;
      } else {
        var p := index;
        ghost var i := 0;
        while p.next != null
          invariant 0 <= i < |nodes| && p == nodes[i]
          decreases |nodes| - i
        {
          p, i := p.next, i + 1;
        }
        p.next := cpi;
      }
      nodes, known := nodes + [cpi], known + {cpi};
    }

    /** The driver's `initialize`, which adds a new identifier for every port it finds. */
    method Enumerate(reported: seq<Entry>, driver: Driver)
      requires Linked() && nodes == []
      modifies this`index, this`nodes, this`known, known`next
      ensures Linked() && |nodes| == |reported|
      ensures forall i :: 0 <= i < |nodes| ==>
        fresh(nodes[i]) && Is(nodes[i], reported[i]) && nodes[i].Now() == NewFields(driver)
      ensures forall x :: x in known <==> x in old(known) || x in nodes
    {
      for k := 0 to |reported|
        invariant Linked() && |nodes| == k
        invariant forall i :: 0 <= i < |nodes| ==>
          fresh(nodes[i]) && Is(nodes[i], reported[i]) && nodes[i].Now() == NewFields(driver)
        invariant forall x :: x in known <==> x in old(known) || x in nodes
      {
        var cpi := new Identifier(reported[k], driver);
        AddIdentifier(cpi);
      }
    }

    /** Remembers the old identifiers by name. */
    method Remember() returns (oldPorts: map<string, Identifier>)
      requires Linked()
      ensures oldPorts == ByName(nodes)
    {
      oldPorts := map[];
      var p := index;
      ghost var i := 0;
      assert nodes[..0] == [];
      while p != null
        invariant 0 <= i <= |nodes| && p == At(nodes, i)
        invariant oldPorts == ByName(nodes[..i])
        decreases |nodes| - i
      {
        assert nodes[..i + 1][..i] == nodes[..i];
        oldPorts := oldPorts[p.name := p];
        p, i := p.next, i + 1;
      }
      assert nodes[..i] == nodes;
    }

    /** The assignments that put an old identifier in the place of a new one. */
    method Splice(cur: Identifier, prev: Identifier?, x: Identifier)
      modifies this`index, x`driver, x`next, (if prev == null then {} else {prev})`next
      ensures x.driver == old(cur.driver)
      ensures index == (if prev == null then x else old(index)) && (prev != null ==> prev.next == x)
      ensures prev != x ==> x.next == old(cur.next)
    {
      x.driver := cur.driver;
      x.next := cur.next;
      if prev == null {
        index := x;
      } else {
        prev.next := x;
      }
    }

    /** The list in the making after k splices: behind them the new list is as it was. */
    ghost predicate Halfway(chosen: seq<Identifier>, added: seq<Identifier>, k: nat, driver: Driver)
      requires k <= |chosen| == |added|
      reads this, added, chosen
    {
      && index == (if k == 0 then At(added, 0) else chosen[0])
      && (forall i {:trigger added[i].next} :: k <= i < |added| ==> added[i].next == At(added, i + 1))
      && (forall i {:trigger chosen[i].next} :: 0 <= i < k && FinalBelow(chosen, i, k) ==>
            chosen[i].next == Link(chosen, added, k, i))
      && (forall i :: 0 <= i < |added| ==> added[i].driver == driver)
      && (forall i :: 0 <= i < k ==> chosen[i].driver == driver)
    }

    /** The splice of the old identifier chosen for position k. */
    method Place(ghost chosen: seq<Identifier>, ghost added: seq<Identifier>, ghost k: nat,
                 ghost driver: Driver, cur: Identifier, prev: Identifier?, x: Identifier)
      requires k < |chosen| == |added| && Apart(chosen, added) && Halfway(chosen, added, k, driver)
      requires cur == added[k] && prev == At(chosen, k - 1) && x == chosen[k] != cur
      modifies this`index, x`driver, x`next, (if prev == null then {} else {prev})`next
      ensures Halfway(chosen, added, k + 1, driver) && cur.next == At(added, k + 1)
    {
      OthersDiffer(chosen, added, k);
      Splice(cur, prev, x);
    }

    /** A position that keeps nothing leaves the new object where it is. */
    lemma StayedNew(chosen: seq<Identifier>, added: seq<Identifier>, k: nat, driver: Driver)
      requires k < |chosen| == |added| && Apart(chosen, added) && Halfway(chosen, added, k, driver)
      requires chosen[k] == added[k]
      ensures Halfway(chosen, added, k + 1, driver)
    {
    }

    /** Restores the old identifiers: walks the new list and puts the remembered identifier
        of the same name and type in the place of each new one. */
    method Restore(ghost was: seq<Identifier>, oldPorts: map<string, Identifier>,
                   ghost reported: seq<Entry>, ghost driver: Driver)
      requires Linked() && oldPorts == ByName(was) && |nodes| == |reported|
      requires forall x <- was :: x in known && x !in nodes
      requires forall i :: 0 <= i < |nodes| ==> Is(nodes[i], reported[i]) && nodes[i].driver == driver
      modifies this`index, Reused(KeptAt(was, reported))`driver, known`next
      ensures Halfway(Chosen(KeptAt(was, reported), nodes), nodes, |reported|, driver)
    {
      ghost var kept := KeptAt(was, reported);
      ghost var chosen := Chosen(kept, nodes);
      ChosenApart(was, reported, nodes);
      var curPort := index;
      var prevPort: Identifier? := null;
      ghost var k := 0;
      while curPort != null
        invariant 0 <= k <= |nodes| && curPort == At(nodes, k) && prevPort == At(chosen, k - 1)
        invariant Halfway(chosen, nodes, k, driver)
        decreases |nodes| - k
      {
        assert Is(curPort, reported[k]) && kept[k] == Kept(was, reported[k]);
        if curPort.name in oldPorts && oldPorts[curPort.name].ptype == curPort.ptype {
          var matching := oldPorts[curPort.name];
          Place(chosen, nodes, k, driver, curPort, prevPort, matching);
          prevPort := matching;
        } else {
          StayedNew(chosen, nodes, k, driver);
          prevPort := curPort;
        }
        curPort, k := curPort.next, k + 1;
      }
    }

    /** The links that the splices leave, followed from the head: they run through `Listing`,
        and back into its last object exactly when the walk loops. */
    lemma Followed(kept: seq<Option<Identifier>>, added: seq<Identifier>, driver: Driver)
      requires |kept| == |added| && Foreign(kept, added) && nodes == Listing(kept, added)
      requires Halfway(Chosen(kept, added), added, |added|, driver)
      requires forall i :: 0 <= i < |added| ==> Chosen(kept, added)[i] in known
      ensures if Loops(kept) then Looped() else Linked()
    {
      var list := Listing(kept, added);
      ListingDiffers(kept, added);
      if kept != [] {
        WalkPositions(kept, 0, 0);
        ChosenSame(kept, added, 0, Walk(kept, 0)[0]);
      }
      forall m | 0 <= m < |list|
        ensures list[m] in known && list[m].next == Beyond(kept, added, m)
      {
        ListingStep(kept, added, m);
      }
    }

    /** The list holds only new objects, one for every reported entry. */
    ghost predicate Pending(w: World, reported: seq<Entry>, driver: Driver)
      reads this, nodes, known
    {
      && Linked() && Listed(w) && made == w.made && |nodes| == |reported|
      && (forall x <- w.fields :: x in known && x !in nodes && x.Now() == w.fields[x])
      && (forall x <- known :: x in w.fields || x in nodes)
      && (forall i :: 0 <= i < |nodes| ==> Is(nodes[i], reported[i]) && nodes[i].Now() == NewFields(driver))
    }

    /** Restoring touches the drivers of reused identifiers and no other field. */
    method RestoreFields(ghost w: World, oldPorts: map<string, Identifier>,
                         ghost reported: seq<Entry>, ghost driver: Driver)
      requires Pending(w, reported, driver) && oldPorts == ByName(w.list)
      modifies this`index, Reused(KeptAt(w.list, reported))`driver, known`next
      ensures Halfway(Chosen(KeptAt(w.list, reported), nodes), nodes, |reported|, driver)
      ensures FieldsRevised(w, Snapshot(), reported, nodes, driver)
    {
      ghost var kept := KeptAt(w.list, reported);
      Restore(w.list, oldPorts, reported, driver);
      forall x <- w.fields
        ensures x.Now() == Revised(w.fields[x], x in Reused(kept), driver)
      {
        if x in Reused(kept) {
          ghost var i :| 0 <= i < |kept| && kept[i] == Some(x);
          assert Chosen(kept, nodes)[i] == x;
        }
      }
      NowRevised(w, reported, driver);
    }

    lemma NowRevised(w: World, reported: seq<Entry>, driver: Driver)
      requires |nodes| == |reported|
      requires forall x <- w.fields :: x in known && x !in nodes
      requires forall x <- known :: x in w.fields || x in nodes
      requires forall i :: 0 <= i < |nodes| ==> nodes[i] in known && Is(nodes[i], reported[i])
      requires forall i :: 0 <= i < |nodes| ==> nodes[i].Now() == NewFields(driver)
      requires forall x <- w.fields :: x.Now() == Revised(w.fields[x], x in Reused(KeptAt(w.list, reported)), driver)
      ensures FieldsRevised(w, Snapshot(), reported, nodes, driver)
    {
      assert forall x <- known :: Snapshot()[x] == x.Now();
    }

    /** The second half of a refresh. */
    method Rebuild(ghost w: World, oldPorts: map<string, Identifier>,
                   ghost reported: seq<Entry>, ghost driver: Driver)
      requires Pending(w, reported, driver) && oldPorts == ByName(w.list)
      modifies this`index, this`nodes, Reused(KeptAt(w.list, reported))`driver, known`next
      ensures if Loops(KeptAt(w.list, reported)) then Looped() else Linked()
      ensures Respliced(w, Current(), reported, old(nodes), driver)
      ensures Settled(KeptAt(w.list, reported), old(nodes))
    {
      ghost var kept, added := KeptAt(w.list, reported), nodes;
      PendingApart(w, reported, driver);
      RestoreFields(w, oldPorts, reported, driver);
      FinalLinks(kept, added, driver);
      Relist(kept, added, driver);
    }

    lemma PendingApart(w: World, reported: seq<Entry>, driver: Driver)
      requires Pending(w, reported, driver)
      ensures Foreign(KeptAt(w.list, reported), nodes)
      ensures forall i :: 0 <= i < |nodes| ==> Chosen(KeptAt(w.list, reported), nodes)[i] in known
    {
    }

    /** The list as it is found from the head. */
    ghost method Relist(kept: seq<Option<Identifier>>, added: seq<Identifier>, driver: Driver)
      requires |kept| == |added| && Foreign(kept, added)
      requires Halfway(Chosen(kept, added), added, |added|, driver)
      requires forall i :: 0 <= i < |added| ==> Chosen(kept, added)[i] in known
      modifies this`nodes
      ensures Current() == old(Current()).(list := Listing(kept, added))
      ensures if Loops(kept) then Looped() else Linked()
    {
      nodes := Listing(kept, added);
      Followed(kept, added, driver);
    }

    lemma FinalLinks(kept: seq<Option<Identifier>>, added: seq<Identifier>, driver: Driver)
      requires |kept| == |added| && Foreign(kept, added)
      requires Halfway(Chosen(kept, added), added, |added|, driver)
      ensures Settled(kept, added)
    {
      forall p | 0 <= p < |kept| && LastBelow(kept, p, |kept|)
        ensures Chosen(kept, added)[p].next == Link(Chosen(kept, added), added, |kept|, p)
        ensures Link(Chosen(kept, added), added, |kept|, p)
             == if Stuck(kept, p) then Chosen(kept, added)[p] else At(Chosen(kept, added), p + 1)
      {
        Onward(kept, added, p);
      }
    }

    /** `getPortIdentifiers`: the list becomes what a walk over the respliced enumeration
        finds. It ends in an object that points to itself exactly when that walk loops, and is
        the whole enumeration when no old object is kept twice. If the driver throws, the new
        objects made so far remain. */
    method Refresh(reported: seq<Entry>, driver: Driver, thrown: bool) returns (ghost added: seq<Identifier>)
      requires Linked()
      modifies this`index, this`nodes, this`known, known`next, known`driver
      ensures |added| == |reported|
      ensures thrown ==> Linked() && Aborted(old(Current()), Current(), reported, driver)
      ensures !thrown ==> Respliced(old(Current()), Current(), reported, added, driver)
      ensures !thrown ==> if Loops(KeptAt(old(nodes), reported)) then Looped() else Linked()
      ensures !thrown ==> Settled(KeptAt(old(nodes), reported), added)
      ensures !thrown && Once(KeptAt(old(nodes), reported)) ==>
        Linked() && Refreshed(old(Current()), Current(), reported, driver)
    {
      ghost var w := Current();
      var oldPorts := Remember();
      index, nodes := null, [];
      Enumerate(reported, driver);
      added := nodes;
      assert forall x <- w.fields :: x !in nodes && x.Now() == w.fields[x];
      if !thrown {
        Rebuild(w, oldPorts, reported, driver);
        RefreshedIffOnce(w, Current(), reported, added, driver);
        WholeIffOnce(KeptAt(w.list, reported));
      }
    }

    ghost predicate Named(s: string)
      reads this
    {
      exists x <- nodes :: x.name == s
    }

    /** The first identifier with a name. A list that loops is left only when there is one. */
    method Find(s: string) returns (c: Identifier?)
      requires Linked() || (Looped() && Named(s))
      ensures c != null <==> Named(s)
      ensures c != null ==> c in nodes && c.name == s
    {
      c := index;
      ghost var i := 0;
      while c != null && c.name != s
        invariant 0 <= i <= |nodes| && c == At(nodes, i)
        invariant forall j :: 0 <= j < i ==> nodes[j].name != s
        decreases |nodes| - i
      {
        c, i := c.next, i + 1;
      }
    }

    /** The searches after a refresh come to an end: the list does, or it has the name. */
    ghost predicate Findable(s: string, reported: seq<Entry>)
      reads this
    {
      var kept := KeptAt(nodes, reported);
      !Loops(kept) || exists p <- Walk(kept, 0) :: reported[p].name == s
    }

    /** `getPortIdentifier` for a name: refreshes only when the list does not have it. */
    method GetByName(s: string, reported: seq<Entry>, driver: Driver, thrown: bool)
      returns (c: Identifier?, ghost added: seq<Identifier>)
      requires (Looped() && Named(s)) || (Linked() && (Named(s) || thrown || Findable(s, reported)))
      modifies this`index, this`nodes, this`known, known`next, known`driver
      ensures c != null ==> c in nodes && c.name == s
      ensures c == null ==> !Named(s)
      ensures old(Named(s)) ==> c != null && Current() == old(Current())
      ensures old(Named(s)) ==> (old(Linked()) ==> Linked()) && (old(Looped()) ==> Looped())
      ensures !old(Named(s)) ==> |added| == |reported|
      ensures !old(Named(s)) && !thrown ==> Respliced(old(Current()), Current(), reported, added, driver)
      ensures !old(Named(s)) && thrown ==> Linked() && Aborted(old(Current()), Current(), reported, driver)
    {
      added := [];
      c := Find(s);
      if c == null {
        c, added := RefreshAndFind(s, reported, driver, thrown);
      }
    }

    /** The second search of `getPortIdentifier`, after a refresh. */
    method RefreshAndFind(s: string, reported: seq<Entry>, driver: Driver, thrown: bool)
      returns (c: Identifier?, ghost added: seq<Identifier>)
      requires Linked() && (thrown || Findable(s, reported))
      modifies this`index, this`nodes, this`known, known`next, known`driver
      ensures (c != null <==> Named(s)) && (c != null ==> c in nodes && c.name == s)
      ensures |added| == |reported|
      ensures !thrown ==> Respliced(old(Current()), Current(), reported, added, driver)
      ensures thrown ==> Linked() && Aborted(old(Current()), Current(), reported, driver)
    {
      ghost var kept := KeptAt(nodes, reported);
      added := Refresh(reported, driver, thrown);
      if !thrown && Loops(kept) {
        ListingNamed(added, old(nodes), reported, s);
        assert nodes == Listing(kept, added);
      }
      c := Find(s);
    }

    /** The search for a CommPort comes to an end: the list does, or some identifier in it
        holds the CommPort. */
    ghost predicate Sought(p: Port)
      reads this, nodes, known
    {
      Linked() || (Looped() && Holder(nodes, Snapshot(), p).Some?)
    }

    /** `getPortIdentifier` for a CommPort: the first identifier that holds it. */
    method GetByPort(p: Port) returns (c: Identifier?)
      requires Sought(p)
      ensures c == null <==> Holder(nodes, Current().fields, p) == None
      ensures c != null ==> c == Holder(nodes, Current().fields, p).value
    {
      c := index;
      ghost var i := 0;
      while c != null && c.port != Some(p)
        invariant 0 <= i <= |nodes| && c == At(nodes, i)
        invariant Holder(nodes[i..], Current().fields, p) == Holder(nodes, Current().fields, p)
        decreases |nodes| - i
      {
        assert nodes[i..][1..] == nodes[i + 1..];
        c, i := c.next, i + 1;
      }
    }

    /** `open` without waiting: the driver is asked only when the port could be claimed, and
        the claim is given back when the driver has no port. */
    method Open(x: Identifier, owner: string, answer: Option<Port>) returns (p: Option<Port>)
      requires Linked() && x in known && (x.available ==> x.port == None && x.owner == None)
      requires answer.Some? ==> answer.value !in made
      modifies x`owner, x`available, x`port, this`made
      ensures Linked() && nodes == old(nodes)
      ensures answer.Some? ==> Opened(old(Current()), Current(), x, owner, answer.value)
      ensures answer.None? ==> Current() == old(Current())
      ensures p == if old(x.available) then answer else None
      ensures p.Some? ==> !x.available && x.owner == Some(owner) && x.port == p
    {
      p := None;
      if x.available {
        x.available, x.owner := false, Some(owner);
        x.port := answer;
        if x.port != None {
          made := made + {answer.value};
          p := x.port;
        } else {
          x.available, x.owner := true, None;
        }
      }
    }

    /** `internalClosePort` on a known identifier. */
    method Release(cp: Identifier)
      requires cp in known
      modifies cp`owner, cp`available, cp`port
      ensures (old(Linked()) ==> Linked()) && (old(Looped()) ==> Looped())
      ensures nodes == old(nodes) && made == old(made)
      ensures Current().fields == old(Current().fields)[cp := Released(old(cp.Now()))]
    {
      cp.InternalClosePort();
    }

    /** `CommPort.close`: looks the identifier up, twice, and releases it. */
    method Close(p: Port)
      requires Sought(p)
      modifies known`owner, known`available, known`port
      ensures (old(Linked()) ==> Linked()) && (old(Looped()) ==> Looped())
      ensures Current() == AfterClose(old(Current()), p)
    {
      ghost var w := Current();
      var cp := GetByPort(p);
      if cp != null {
        cp := GetByPort(p);
        assert AfterClose(w, p) == w.(fields := w.fields[cp := Released(w.fields[cp])]);
        Release(cp);
      }
    }
  }
}
