/**
  The ordered list of processes that use a file, kept by `add_file` in
  native/src/fuserImp.c: a singly linked list of items in ascending order of pid, changed
  in place through a pointer to the link to follow.
 */
module OwnerList {
  import opened Options
  import opened Sequences

  /** One process: its pid, how it refers to the file, and its uid once that is known. */
  datatype Owner = Owner(pid: int, refs: bv32, uid: Option<int>)

  /** One call: the uid is known when the file asks for it and lstat succeeds. */
  datatype Report = Report(pid: int, ref: bv32, uid: Option<int>)

  function Union(a: bv32, b: bv32): (c: bv32)
    ensures a == 0 ==> c == b
  {
    a | b
  }

  function First(a: Option<int>, b: Option<int>): Option<int> {
    if a.Some? then a else b
  }

  function Merged(o: Owner, r: Report): Owner {
    o.(refs := Union(o.refs, r.ref), uid := First(o.uid, r.uid))
  }

  // ---- The list as a sequence --------------------------------------------------------

  /** Every pid in the list is larger. */
  ghost predicate Above(l: seq<Owner>, pid: int) {
    forall i :: 0 <= i < |l| ==> pid < l[i].pid
  }

  ghost predicate Ascending(l: seq<Owner>) {
    l == [] || (Above(l[1..], l[0].pid) && Ascending(l[1..]))
  }

  function Add(l: seq<Owner>, r: Report): seq<Owner> {
    if l == [] || r.pid < l[0].pid then [Owner(r.pid, r.ref, r.uid)] + l
    else if r.pid == l[0].pid then [Merged(l[0], r)] + l[1..]
    else [l[0]] + Add(l[1..], r)
  }

  function Updated(l: seq<Owner>, k: nat, r: Report): seq<Owner>
    requires k < |l|
  {
    l[k := Merged(l[k], r)]
  }

  /** What the list says about a pid. */
  function Lookup(l: seq<Owner>, pid: int): Option<Owner> {
    if l == [] then None else if l[0].pid == pid then Some(l[0]) else Lookup(l[1..], pid)
  }

  lemma {:induction false} AddStaysAbove(l: seq<Owner>, r: Report, pid: int)
    requires Above(l, pid) && pid < r.pid
    ensures Above(Add(l, r), pid)
  {
    if l != [] && l[0].pid < r.pid {
      AddStaysAbove(l[1..], r, pid);
    }
  }

  lemma {:induction false} AddKeepsOrder(l: seq<Owner>, r: Report)
    requires Ascending(l)
    ensures Ascending(Add(l, r))
  {
    var after := Add(l, r);
    if l == [] || r.pid < l[0].pid {
      assert after[1..] == l;
      assert l != [] ==> forall i :: 0 < i < |l| ==> l[i] == l[1..][i - 1];
    } else if r.pid == l[0].pid {
      assert after[1..] == l[1..];
    } else {
      assert after[1..] == Add(l[1..], r);
      AddKeepsOrder(l[1..], r);
      AddStaysAbove(l[1..], r, l[0].pid);
    }
  }

  lemma {:induction false} AddLookup(l: seq<Owner>, r: Report, pid: int)
    requires Ascending(l)
    ensures pid != r.pid ==> Lookup(Add(l, r), pid) == Lookup(l, pid)
    ensures Lookup(Add(l, r), r.pid) == Some(
      match Lookup(l, r.pid)
      case None => Owner(r.pid, r.ref, r.uid)
      case Some(o) => Merged(o, r))
  {
    if l == [] || r.pid < l[0].pid {
      assert l != [] ==> forall i :: 0 < i < |l| ==> l[i] == l[1..][i - 1];
      AbsentBelow(l, r.pid);
      assert ([Owner(r.pid, r.ref, r.uid)] + l)[1..] == l;
    } else if r.pid == l[0].pid {
      assert ([Merged(l[0], r)] + l[1..])[1..] == l[1..];
    } else {
      AddLookup(l[1..], r, pid);
      AddLookup(l[1..], r, r.pid);
      assert ([l[0]] + Add(l[1..], r))[1..] == Add(l[1..], r);
    }
  }

  lemma {:induction false} AbsentBelow(l: seq<Owner>, pid: int)
    requires Above(l, pid)
    ensures Lookup(l, pid) == None
  {
    if l != [] {
      AbsentBelow(l[1..], pid);
    }
  }

  // ---- Any sequence of reports --------------------------------------------------------

  /** The list after reports to a list that was `l`. */
  function AddAll(l: seq<Owner>, reports: seq<Report>): seq<Owner> {
    if reports == [] then l else Add(AddAll(l, reports[..|reports| - 1]), reports[|reports| - 1])
  }

  function After(reports: seq<Report>): seq<Owner> {
    AddAll([], reports)
  }

  lemma {:induction false} AddAllConcat(l: seq<Owner>, a: seq<Report>, b: seq<Report>)
    ensures AddAll(l, a + b) == AddAll(AddAll(l, a), b)
    decreases |b|
  {
    if b == [] {
      assert a + b == a;
    } else {
      AddAllConcat(l, a, b[..|b| - 1]);
      assert (a + b)[..|a + b| - 1] == a + b[..|b| - 1];
    }
  }

  predicate Seen(reports: seq<Report>, pid: int) {
    exists r :: r in reports && r.pid == pid
  }

  /** The union of all references reported for a pid. */
  function AllRefs(reports: seq<Report>, pid: int): bv32 {
    if reports == [] then 0
    else
      var last := reports[|reports| - 1];
      var earlier := AllRefs(reports[..|reports| - 1], pid);
      if last.pid == pid then Union(earlier, last.ref) else earlier
  }

  /** The first uid reported for a pid. */
  function FirstUid(reports: seq<Report>, pid: int): Option<int> {
    if reports == [] then None
    else
      var last := reports[|reports| - 1];
      var earlier := FirstUid(reports[..|reports| - 1], pid);
      if last.pid == pid then First(earlier, last.uid) else earlier
  }

  /** All the bits of `b` are among those of `a`. */
  predicate Contains(a: bv32, b: bv32) {
    a & b == b
  }

  lemma UnionContainsFirst(a: bv32, b: bv32)
    ensures Contains(Union(a, b), a)
  {
  }

  lemma UnionContainsSecond(a: bv32, b: bv32)
    ensures Contains(Union(a, b), b)
  {
  }

  /** Nothing is in a union that is not in whatever contains both sides. */
  lemma UnionIsLeast(a: bv32, b: bv32, x: bv32)
    requires Contains(x, a)
    requires Contains(x, b)
    ensures Contains(x, Union(a, b))
  {
    assert x & (a | b) == (x & a) | (x & b);
  }

  lemma ContainsAll(a: bv32, b: bv32, c: bv32)
    requires Contains(a, b) && Contains(b, c)
    ensures Contains(a, c)
  {
  }

  /** The references kept for a pid contain those of each of its reports. */
  lemma {:induction false} RefsContainEach(reports: seq<Report>, k: nat)
    requires k < |reports|
    ensures Contains(AllRefs(reports, reports[k].pid), reports[k].ref)
    decreases |reports|
  {
    var before, last := reports[..|reports| - 1], reports[|reports| - 1];
    var pid := reports[k].pid;
    UnionContainsFirst(AllRefs(before, pid), last.ref);
    UnionContainsSecond(AllRefs(before, pid), last.ref);
    if k < |reports| - 1 {
      RefsContainEach(before, k);
      if last.pid == pid {
        ContainsAll(AllRefs(reports, pid), AllRefs(before, pid), reports[k].ref);
      }
    }
  }

  /** ... and no bit that none of them has: whatever contains all of a pid's references
      contains what is kept. */
  lemma {:induction false} RefsAreLeast(reports: seq<Report>, pid: int, x: bv32)
    requires forall k :: 0 <= k < |reports| && reports[k].pid == pid ==> Contains(x, reports[k].ref)
    ensures Contains(x, AllRefs(reports, pid))
    decreases |reports|
  {
    if reports == [] {
      NothingContained(x);
    } else {
      var before, last := reports[..|reports| - 1], reports[|reports| - 1];
      RefsAreLeast(before, pid, x);
      if last.pid == pid {
        UnionIsLeast(AllRefs(before, pid), last.ref, x);
      }
    }
  }

  lemma NothingContained(x: bv32)
    ensures Contains(x, 0)
  {
  }

  /** The uid kept for a pid is the one that was known first. */
  lemma {:induction false} UidIsFirst(reports: seq<Report>, pid: int, uid: int)
    ensures FirstUid(reports, pid) == Some(uid) <==>
      exists k :: && 0 <= k < |reports| && reports[k].pid == pid && reports[k].uid == Some(uid)
                  && NoneKnown(reports[..k], pid)
    ensures FirstUid(reports, pid) == None <==> NoneKnown(reports, pid)
    decreases |reports|
  {
    if reports != [] {
      var n := |reports| - 1;
      var before, last := reports[..n], reports[n];
      UidIsFirst(before, pid, uid);
      assert forall k :: 0 <= k <= n ==> before[..k] == reports[..k];
      NoneKnownStep(reports, pid);
      if k :| 0 <= k < |reports| && reports[k].pid == pid && reports[k].uid == Some(uid) && NoneKnown(reports[..k], pid) {
        if k < n {
          assert before[k] == reports[k] && before[..k] == reports[..k];
        }
      }
      if FirstUid(before, pid) == Some(uid) {
        var k :| 0 <= k < n && before[k].pid == pid && before[k].uid == Some(uid) && NoneKnown(before[..k], pid);
        assert reports[k] == before[k] && reports[..k] == before[..k];
      } else if FirstUid(reports, pid) == Some(uid) {
        assert reports[..n] == before;
      }
    }
  }

  /** No report of the pid knows its uid. */
  ghost predicate NoneKnown(reports: seq<Report>, pid: int) {
    forall k :: 0 <= k < |reports| && reports[k].pid == pid ==> reports[k].uid == None
  }

  lemma NoneKnownStep(reports: seq<Report>, pid: int)
    requires reports != []
    ensures var last := reports[|reports| - 1];
      NoneKnown(reports, pid) <==> NoneKnown(reports[..|reports| - 1], pid) && (last.pid == pid ==> last.uid == None)
  {
    var n := |reports| - 1;
    assert forall k :: 0 <= k < n ==> reports[..n][k] == reports[k];
  }

  lemma {:induction false} ListStaysAscending(reports: seq<Report>)
    ensures Ascending(After(reports))
    decreases |reports|
  {
    if reports != [] {
      var before := reports[..|reports| - 1];
      ListStaysAscending(before);
      AddKeepsOrder(After(before), reports[|reports| - 1]);
    }
  }

  /** Whatever is reported in whatever order, the list is strictly ascending, has one item
      for each pid seen and none for others, and the item carries the union of the
      references and the first known uid. */
  lemma {:induction false} ListSumsReports(reports: seq<Report>, pid: int)
    ensures Ascending(After(reports))
    ensures Lookup(After(reports), pid) ==
      if Seen(reports, pid) then Some(Owner(pid, AllRefs(reports, pid), FirstUid(reports, pid))) else None
    decreases |reports|
  {
    ListStaysAscending(reports);
    if reports != [] {
      var before, last := reports[..|reports| - 1], reports[|reports| - 1];
      ListStaysAscending(before);
      ListSumsReports(before, pid);
      AddLookup(After(before), last, pid);
      assert reports == before + [last];
      assert Seen(reports, pid) <==> Seen(before, pid) || last.pid == pid;
      if !Seen(before, pid) {
        UnseenHasNothing(before, pid);
      }
    }
  }

  lemma {:induction false} UnseenHasNothing(reports: seq<Report>, pid: int)
    requires !Seen(reports, pid)
    ensures AllRefs(reports, pid) == 0 && FirstUid(reports, pid) == None
    decreases |reports|
  {
    if reports != [] {
      var before, last := reports[..|reports| - 1], reports[|reports| - 1];
      assert last in reports;
      UnseenHasNothing(before, pid);
    }
  }

  // ---- The linked list ----------------------------------------------------------------

  class Item {
    const pid: int
    var refs: bv32
    var uid: Option<int>
    var next: Item?

    constructor (pid: int, next: Item?)
      ensures this.pid == pid && refs == 0 && uid == None && this.next == next
    {
      this.pid, this.refs, this.uid, this.next := pid, 0, None, next;
    }

    method Note(r: Report)
      modifies this`refs, this`uid
      ensures refs == Union(old(refs), r.ref) && uid == First(old(uid), r.uid)
    {
      refs := refs | r.ref;
      if uid.None? {
        uid := r.uid;
      }
    }
  }

  ghost function OwnersOf(nodes: seq<Item>): (l: seq<Owner>)
    reads nodes
    ensures |l| == |nodes|
    ensures forall i :: 0 <= i < |l| ==> l[i] == Owner(nodes[i].pid, nodes[i].refs, nodes[i].uid)
  {
    seq(|nodes|, i requires 0 <= i < |nodes| reads nodes => Owner(nodes[i].pid, nodes[i].refs, nodes[i].uid))
  }

  twostate lemma NoneChanged(nodes: seq<Item>)
    requires forall i :: 0 <= i < |nodes| ==>
      nodes[i].refs == old(nodes[i].refs) && nodes[i].uid == old(nodes[i].uid)
    ensures OwnersOf(nodes) == old(OwnersOf(nodes))
  {
  }

  lemma OwnersSpliced(nodes: seq<Item>, k: nat, it: Item)
    requires k <= |nodes|
    ensures OwnersOf(Spliced(nodes, k, it)) == Spliced(OwnersOf(nodes), k, Owner(it.pid, it.refs, it.uid))
  {
  }

  /** Adding in closed form: `k` is the first position that is not smaller. */
  lemma {:induction false} AddAt(l: seq<Owner>, r: Report, k: nat)
    requires k <= |l|
    requires forall i :: 0 <= i < k ==> l[i].pid < r.pid
    requires k < |l| ==> r.pid <= l[k].pid
    ensures Add(l, r) ==
      if k < |l| && l[k].pid == r.pid then Updated(l, k, r)
      else Spliced(l, k, Owner(r.pid, r.ref, r.uid))
  {
    var one := Owner(r.pid, r.ref, r.uid);
    if k == 0 {
      assert l != [] ==> l[0 := Merged(l[0], r)] == [Merged(l[0], r)] + l[1..];
      assert Spliced(l, 0, one) == [one] + l;
    } else {
      AddAt(l[1..], r, k - 1);
      assert Add(l, r) == [l[0]] + Add(l[1..], r);
      if k < |l| && l[k].pid == r.pid {
        UpdatedBehind(l, k, Merged(l[k], r));
      } else {
        SplicedBehind(l, k, one);
      }
    }
  }

  lemma UpdatedBehind(l: seq<Owner>, k: nat, o: Owner)
    requires 0 < k < |l|
    ensures [l[0]] + l[1..][k - 1 := o] == l[k := o]
  {
  }

  lemma SplicedBehind(l: seq<Owner>, k: nat, o: Owner)
    requires 0 < k <= |l|
    ensures [l[0]] + Spliced(l[1..], k - 1, o) == Spliced(l, k, o)
  {
  }

  class FileDsc {
    const dev: int
    const ino: int
    const byDevice: bool
    const wantsUid: bool
    const named: FileDsc?
    var items: Item?
    ghost var nodes: seq<Item>
    ghost var footprint: set<Item>

    /** The links run through `nodes`, without a cycle. */
    ghost predicate Linked()
      reads this, nodes
    {
      && Distinct(nodes)
      && (forall i :: 0 <= i < |nodes| ==> nodes[i] in footprint)
      && items == At(nodes, 0)
      && (forall i {:trigger nodes[i].next} :: 0 <= i < |nodes| ==> nodes[i].next == At(nodes, i + 1))
    }

    ghost predicate Valid()
      reads this, nodes
    {
      Linked() && Ascending(OwnersOf(nodes))
    }

    ghost function Owners(): seq<Owner>
      reads this, nodes
    {
      OwnersOf(nodes)
    }

    /** `named` is the entry with the name, for an entry that repeats it; null otherwise. */
    constructor (dev: int, ino: int, byDevice: bool, wantsUid: bool, named: FileDsc?)
      ensures Valid() && Owners() == []
    {
      this.dev, this.ino, this.byDevice, this.wantsUid, this.named := dev, ino, byDevice, wantsUid, named;
      items := null;
      nodes, footprint := [], {};
    }

    /** Where the items of this entry are kept. */
    function Keeper(): FileDsc {
      if named == null then this else named
    }

    predicate Matches(device: int, inode: int) {
      if byDevice then device != 0 && device == dev else device == dev && inode == ino
    }

    /** The item at which the walk stops, the one before it, and its position. */
    method Find(pid: int) returns (prev: Item?, item: Item?, ghost k: nat)
      requires Linked()
      ensures k <= |nodes| && prev == At(nodes, k - 1) && item == At(nodes, k)
      ensures forall i :: 0 <= i < k ==> nodes[i].pid < pid
      ensures item != null ==> pid <= item.pid
    {
      prev, item, k := null, items, 0;
      while item != null && item.pid < pid
        invariant 0 <= k <= |nodes| && prev == At(nodes, k - 1) && item == At(nodes, k)
        invariant forall i :: 0 <= i < k ==> nodes[i].pid < pid
        decreases |nodes| - k
      {
        prev, item, k := item, item.next, k + 1;
      }
    }

    /** Links a new item in at position `k`. */
    method Link(prev: Item?, item: Item?, pid: int, ghost k: nat) returns (it: Item)
      requires Linked() && k <= |nodes| && prev == At(nodes, k - 1) && item == At(nodes, k)
      modifies this`items, this`nodes, this`footprint, footprint`next
      ensures fresh(it) && it.pid == pid && it.refs == 0 && it.uid == None
      ensures Linked() && nodes == Spliced(old(nodes), k, it) && footprint == old(footprint) + {it}
    {
      it := new Item(pid, item);
      if prev == null {
        items := it;
      } else {
        prev.next := it;
      }
      ghost var was := nodes;
      SplicedDistinct(was, k, it);
      nodes, footprint := Spliced(was, k, it), footprint + {it};
      forall i | 0 <= i < |nodes|
        ensures nodes[i] in footprint && nodes[i].next == At(nodes, i + 1)
      {
        if i != k {
          ghost var m := if i < k then i else i - 1;
          assert nodes[i] == was[m];
          assert was[m].next == if m == k - 1 then it else At(was, m + 1);
        }
      }
    }

    /** A pid that is in the list already. */
    method Merge(item: Item, r: Report, ghost k: nat)
      requires Linked() && k < |nodes| && nodes[k] == item
      modifies item
      ensures Linked() && Owners() == Updated(old(Owners()), k, r)
    {
      ghost var l := Owners();
      item.Note(r);
      forall i | 0 <= i < |nodes|
        ensures Owners()[i] == Updated(l, k, r)[i]
      {
        assert i != k ==> nodes[i] != item;
      }
    }

    /** A new pid. */
    method Enter(prev: Item?, item: Item?, r: Report, ghost k: nat)
      requires Linked() && k <= |nodes| && prev == At(nodes, k - 1) && item == At(nodes, k)
      modifies this`items, this`nodes, this`footprint, footprint`next
      ensures Linked() && Owners() == Spliced(old(Owners()), k, Owner(r.pid, r.ref, r.uid))
      ensures fresh(footprint - old(footprint))
    {
      ghost var was := nodes;
      var it := Link(prev, item, r.pid, k);
      it.Note(r);
      NoneChanged(was);
      OwnersSpliced(was, k, it);
    }

    /** Finds or makes the item of a pid and adds the report to it. */
    method AddOwner(r: Report)
      requires Valid()
      modifies this`items, this`nodes, this`footprint, footprint
      ensures Valid() && Owners() == Add(old(Owners()), r)
      ensures fresh(footprint - old(footprint))
    {
      var prev, item, k := Find(r.pid);
      AddAt(Owners(), r, k);
      AddKeepsOrder(Owners(), r);
      if item != null && item.pid == r.pid {
        Merge(item, r, k);
      } else {
        Enter(prev, item, r, k);
      }
    }
  }

  // ---- All files ------------------------------------------------------------------------

  lemma MergedTwice(o: Owner, r: Report)
    ensures Merged(Merged(o, r), r) == Merged(o, r)
    ensures Merged(Owner(r.pid, r.ref, r.uid), r) == Owner(r.pid, r.ref, r.uid)
  {
  }

  /** Reporting the same thing twice changes nothing more. */
  lemma {:induction false} AddTwice(l: seq<Owner>, r: Report)
    ensures Add(Add(l, r), r) == Add(l, r)
  {
    if l == [] || r.pid < l[0].pid {
      MergedTwice(Owner(r.pid, r.ref, r.uid), r);
      assert Add(l, r)[1..] == l;
    } else if r.pid == l[0].pid {
      MergedTwice(l[0], r);
      assert Add(l, r)[1..] == l[1..];
    } else {
      AddTwice(l[1..], r);
      assert Add(l, r)[1..] == Add(l[1..], r);
    }
  }

  /** One call of `add_file`; `lstat` answers for each entry, as it is asked for each. */
  datatype Call = Call(device: int, inode: int, pid: int, ref: bv32, lstat: nat -> Option<int>)

  /** Entry `j` matches the call and stands for the file `f`. */
  predicate Concerns(files: seq<FileDsc>, j: nat, call: Call, f: FileDsc)
    requires j < |files|
  {
    files[j].Matches(call.device, call.inode) && files[j].Keeper() == f
  }

  /** What the file takes from a call by way of entry `j`. */
  function ReportOf(f: FileDsc, call: Call, j: nat): Report {
    Report(call.pid, call.ref, if f.wantsUid then call.lstat(j) else None)
  }

  /** What reaches a file from the entries before `i`, in order. */
  function Reports(files: seq<FileDsc>, i: nat, call: Call, f: FileDsc): seq<Report>
    requires i <= |files|
  {
    if i == 0 then []
    else Reports(files, i - 1, call, f) + if Concerns(files, i - 1, call, f) then [ReportOf(f, call, i - 1)] else []
  }

  /** What reaches a file from any number of calls. */
  function AllReports(files: seq<FileDsc>, calls: seq<Call>, f: FileDsc): seq<Report> {
    if calls == [] then []
    else AllReports(files, calls[..|calls| - 1], f) + Reports(files, |files|, calls[|calls| - 1], f)
  }

  /** What reaches a file, entry by entry: the entry is the file or repeats its name, the device
      is the same, and so is the inode unless the entry stands for the whole of a device. The
      uid comes along only where the file wants it. */
  lemma {:induction false} ReportsAre(files: seq<FileDsc>, i: nat, call: Call, f: FileDsc, r: Report)
    requires i <= |files|
    ensures r in Reports(files, i, call, f) <==>
      exists j :: && 0 <= j < i && (files[j].named == f || (files[j].named == null && files[j] == f))
                  && call.device == files[j].dev
                  && (call.inode == files[j].ino || files[j].byDevice) && (files[j].byDevice ==> call.device != 0)
                  && r.pid == call.pid && r.ref == call.ref
                  && r.uid == if f.wantsUid then call.lstat(j) else None
  {
    if i > 0 {
      ReportsAre(files, i - 1, call, f, r);
    }
  }

  /** Some entry before `i` concerns the file. */
  predicate Touched(files: seq<FileDsc>, i: nat, call: Call, f: FileDsc)
    requires i <= |files|
  {
    exists j :: 0 <= j < i && Concerns(files, j, call, f)
  }

  lemma TouchedStep(files: seq<FileDsc>, i: nat, call: Call, f: FileDsc)
    requires i < |files|
    ensures Touched(files, i + 1, call, f) <==> Touched(files, i, call, f) || Concerns(files, i, call, f)
  {
  }

  function AddIf(l: seq<Owner>, r: Report, yes: bool): seq<Owner> {
    if yes then Add(l, r) else l
  }

  lemma AddIfTwice(l: seq<Owner>, r: Report, a: bool, b: bool)
    ensures AddIf(AddIf(l, r, a), r, b) == AddIf(l, r, a || b)
  {
    AddTwice(l, r);
  }

  /** Where lstat always gives the same answer, a call has the effect of one report to every
      file that some matching entry stands for. */
  lemma {:induction false} SameAnswerOnce(files: seq<FileDsc>, i: nat, call: Call, f: FileDsc, l: seq<Owner>)
    requires i <= |files| && forall j :: call.lstat(j) == call.lstat(0)
    ensures AddAll(l, Reports(files, i, call, f)) == AddIf(l, ReportOf(f, call, 0), Touched(files, i, call, f))
  {
    if i > 0 {
      var r, touched, more := ReportOf(f, call, 0), Touched(files, i - 1, call, f), Concerns(files, i - 1, call, f);
      SameAnswerOnce(files, i - 1, call, f, l);
      ReportsStep(files, i - 1, call, f, l);
      assert call.lstat(i - 1) == call.lstat(0);
      AddIfTwice(l, r, touched, more);
      TouchedStep(files, i - 1, call, f);
      assert AddAll(l, Reports(files, i, call, f)) == AddIf(AddIf(l, r, touched), r, more);
    }
  }

  /** The files keep their items apart, and every keeper is one of them. */
  ghost predicate Apart(files: seq<FileDsc>)
    reads *
  {
    && (forall f :: f in files ==> f.Keeper() in files)
    && (forall i :: 0 <= i < |files| ==> files[i].Valid())
    && (forall f, g :: f in files && g in files && f != g ==> f.footprint !! g.footprint)
  }

  /** One report to one of the files leaves the others alone. */
  method ReportTo(files: seq<FileDsc>, keeper: FileDsc, r: Report)
    requires Apart(files) && keeper in files
    modifies files, keeper.footprint
    ensures Apart(files)
    ensures keeper.Owners() == Add(old(keeper.Owners()), r)
    ensures forall f :: f in files && f != keeper ==> f.Owners() == old(f.Owners()) && f.footprint == old(f.footprint)
    ensures fresh(keeper.footprint - old(keeper.footprint))
  {
    keeper.AddOwner(r);
  }

  /** Every file's list is the wanted one, and its items lie in the region. */
  ghost predicate Standing(files: seq<FileDsc>, want: map<FileDsc, seq<Owner>>, region: set<Item>)
    reads *
  {
    Apart(files) && forall f <- files :: f in want && f.Owners() == want[f] && f.footprint <= region
  }

  /** The lists wanted after one more entry. */
  function WantedNext(files: seq<FileDsc>, i: nat, call: Call, want: map<FileDsc, seq<Owner>>): map<FileDsc, seq<Owner>>
    requires i < |files|
  {
    var f := files[i].Keeper();
    if files[i].Matches(call.device, call.inode) && f in want then want[f := Add(want[f], ReportOf(f, call, i))] else want
  }

  /** One entry: a match reports to the file that the entry stands for. */
  method Visit(files: seq<FileDsc>, i: nat, call: Call, ghost want: map<FileDsc, seq<Owner>>, ghost region: set<Item>)
    returns (ghost wider: set<Item>)
    requires i < |files| && Standing(files, want, region)
    modifies files, region
    ensures Standing(files, WantedNext(files, i, call, want), wider) && region <= wider && fresh(wider - region)
  {
    wider := region;
    if files[i].Matches(call.device, call.inode) {
      var keeper := files[i].Keeper();
      ReportTo(files, keeper, ReportOf(keeper, call, i));
      wider := region + keeper.footprint;
    }
  }

  /** The lists wanted once the entries before `i` have been gone through. */
  function Wanted(files: seq<FileDsc>, i: nat, call: Call, was: map<FileDsc, seq<Owner>>): map<FileDsc, seq<Owner>>
    requires i <= |files|
  {
    if i == 0 then was else WantedNext(files, i - 1, call, Wanted(files, i - 1, call, was))
  }

  lemma {:induction false} WantedIs(files: seq<FileDsc>, i: nat, call: Call, was: map<FileDsc, seq<Owner>>, f: FileDsc)
    requires i <= |files| && f in was
    ensures f in Wanted(files, i, call, was)
    ensures Wanted(files, i, call, was)[f] == AddAll(was[f], Reports(files, i, call, f))
  {
    if i > 0 {
      WantedIs(files, i - 1, call, was, f);
      ReportsStep(files, i - 1, call, f, was[f]);
    }
  }

  lemma ReportsStep(files: seq<FileDsc>, i: nat, call: Call, f: FileDsc, l: seq<Owner>)
    requires i < |files|
    ensures AddAll(l, Reports(files, i + 1, call, f)) ==
      AddIf(AddAll(l, Reports(files, i, call, f)), ReportOf(f, call, i), Concerns(files, i, call, f))
  {
    var before := Reports(files, i, call, f);
    if Concerns(files, i, call, f) {
      assert (before + [ReportOf(f, call, i)])[..|before|] == before;
    } else {
      assert Reports(files, i + 1, call, f) == before;
    }
  }

  /** One call: every file gets the reports of the matching entries that stand for it. */
  method GoThrough(files: seq<FileDsc>, call: Call, ghost was: map<FileDsc, seq<Owner>>, ghost region: set<Item>)
    returns (ghost wider: set<Item>)
    requires Standing(files, was, region)
    modifies files, region
    ensures Standing(files, Wanted(files, |files|, call, was), wider) && region <= wider && fresh(wider - region)
  {
    wider := region;
    for i := 0 to |files|
      invariant Standing(files, Wanted(files, i, call, was), wider) && region <= wider && fresh(wider - region)
    {
      wider := Visit(files, i, call, Wanted(files, i, call, was), wider);
    }
  }

  ghost function OwnersNow(files: seq<FileDsc>): map<FileDsc, seq<Owner>>
    reads *
  {
    map f | f in files :: f.Owners()
  }

  /** `add_file`: every file's list takes in, in order, the reports of the matching entries
      that stand for it. */
  method AddFile(files: seq<FileDsc>, call: Call, ghost region: set<Item>) returns (ghost wider: set<Item>)
    requires Apart(files) && forall f <- files :: f.footprint <= region
    modifies files, region
    ensures Apart(files) && region <= wider && fresh(wider - region) && forall f <- files :: f.footprint <= wider
    ensures forall f <- files :: f.Owners() == AddAll(old(f.Owners()), Reports(files, |files|, call, f))
  {
    ghost var was := OwnersNow(files);
    wider := GoThrough(files, call, was, region);
    forall f | f in files
      ensures f.Owners() == AddAll(was[f], Reports(files, |files|, call, f))
    {
      WantedIs(files, |files|, call, was, f);
    }
  }

  /** The lists wanted after any number of calls. */
  function WantedAll(files: seq<FileDsc>, calls: seq<Call>, was: map<FileDsc, seq<Owner>>): map<FileDsc, seq<Owner>> {
    if calls == [] then was
    else Wanted(files, |files|, calls[|calls| - 1], WantedAll(files, calls[..|calls| - 1], was))
  }

  lemma {:induction false} WantedAllIs(files: seq<FileDsc>, calls: seq<Call>, was: map<FileDsc, seq<Owner>>, f: FileDsc)
    requires f in was
    ensures f in WantedAll(files, calls, was)
    ensures WantedAll(files, calls, was)[f] == AddAll(was[f], AllReports(files, calls, f))
    decreases |calls|
  {
    if calls != [] {
      var before, last := calls[..|calls| - 1], calls[|calls| - 1];
      WantedAllIs(files, before, was, f);
      WantedIs(files, |files|, last, WantedAll(files, before, was), f);
      AddAllConcat(was[f], AllReports(files, before, f), Reports(files, |files|, last, f));
    }
  }

  /** Any sequence of calls, as the scan of all processes makes them: every file ends with
      the list that the reports which reached it make. */
  method AddFiles(files: seq<FileDsc>, calls: seq<Call>, ghost region: set<Item>) returns (ghost wider: set<Item>)
    requires Apart(files) && forall f <- files :: f.footprint <= region
    modifies files, region
    ensures Apart(files) && region <= wider && fresh(wider - region) && forall f <- files :: f.footprint <= wider
    ensures forall f <- files :: f.Owners() == AddAll(old(f.Owners()), AllReports(files, calls, f))
    ensures forall f <- files :: old(f.Owners()) == [] ==> f.Owners() == After(AllReports(files, calls, f))
  {
    ghost var was := OwnersNow(files);
    wider := region;
    assert calls[..0] == [];
    for k := 0 to |calls|
      invariant Standing(files, WantedAll(files, calls[..k], was), wider) && region <= wider && fresh(wider - region)
    {
      wider := GoThrough(files, calls[k], WantedAll(files, calls[..k], was), wider);
      assert calls[..k + 1][..k] == calls[..k];
    }
    assert calls[..|calls|] == calls;
    forall f | f in files
      ensures f.Owners() == AddAll(was[f], AllReports(files, calls, f))
    {
      WantedAllIs(files, calls, was, f);
    }
  }
}
