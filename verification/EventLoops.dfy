/**
  The master list of running event loops (native/src/SerialImp.c): a doubly linked list
  that `initialise_event_info_struct` appends to, `finalize_event_info_struct` unlinks
  from and `nativeSetEventFlag` searches by descriptor.
 */
module EventLoops {
  import opened Sequences

  const EVENT_KINDS := 11

  class EventInfo {
    var fd: int
    var eventflags: seq<int>
    var initialised: bool
    var prev: EventInfo?
    var next: EventInfo?

    constructor ()
      ensures !initialised
    {
      fd, eventflags, initialised, prev, next := 0, [], false, null, null;
    }

    method ClearFlags()
      modifies this`eventflags
      ensures eventflags == seq(EVENT_KINDS, i => 0)
    {
      eventflags := [];
      for i := 0 to EVENT_KINDS
        invariant eventflags == seq(i, i => 0)
      {
        eventflags := eventflags + [0];
      }
    }
  }

  class MasterList {
    var master: EventInfo?
    ghost var running: seq<EventInfo>
    ghost var footprint: set<EventInfo>

    /** The links run through `running` in both directions, without a cycle. */
    ghost predicate Linked()
      reads this, running
    {
      && Distinct(running)
      && (forall i :: 0 <= i < |running| ==> running[i] in footprint)
      && master == At(running, 0)
      && (forall i {:trigger running[i].next} :: 0 <= i < |running| ==> running[i].next == At(running, i + 1))
      && (forall i {:trigger running[i].prev} :: 0 <= i < |running| ==> running[i].prev == At(running, i - 1))
    }

    /** Every loop in the list has been set up. */
    ghost predicate Valid()
      reads this, running
    {
      Linked() && forall i :: 0 <= i < |running| ==>
        running[i].initialised && |running[i].eventflags| == EVENT_KINDS
    }

    constructor ()
      ensures Valid() && running == []
    {
      master := null;
      running, footprint := [], {};
    }

    /** Walks to the end of the list and links the entry in there. */
    method Append(eis: EventInfo)
      requires Linked() && eis !in running
      modifies this, eis`prev, eis`next, footprint`next
      ensures Linked() && running == old(running) + [eis] && footprint == old(footprint) + {eis}
    {
      var index := master;
      if index != null {
        ghost var i := 0;
        while index.next != null
          invariant 0 <= i < |running| && index == running[i]
          decreases |running| - i
        {
          index, i := index.next, i + 1;
        }
        index.next := eis;
        eis.prev := index;
        eis.next := null;
      } else {
        master := eis;
        master.next := null;
        master.prev := null;
      }
      running, footprint := running + [eis], footprint + {eis};
    }

    /** Appends a new entry, clears its flags and notes its descriptor. */
    method Begin(eis: EventInfo, fd: int)
      requires Valid() && eis !in running && !eis.initialised
      modifies this, eis, footprint`next
      ensures Linked() && running == old(running) + [eis] && footprint == old(footprint) + {eis}
      ensures forall e :: e in old(running) ==> e.initialised && |e.eventflags| == EVENT_KINDS
      ensures eis.fd == fd && eis.eventflags == seq(EVENT_KINDS, i => 0) && !eis.initialised
    {
      assert forall e :: e in running ==> e.initialised && |e.eventflags| == EVENT_KINDS;
      Append(eis);
      eis.ClearFlags();
      eis.fd := fd;
    }

    /** Sets a new entry up; without the Java callback it is unlinked again. */
    method Enter(eis: EventInfo, fd: int, callback: bool)
      requires Valid() && eis !in running && !eis.initialised
      modifies this, eis, footprint`next, footprint`prev
      ensures Valid() && running == if callback then old(running) + [eis] else old(running)
      ensures eis.fd == fd && eis.eventflags == seq(EVENT_KINDS, i => 0) && eis.initialised == callback
    {
      Begin(eis, fd);
      if !callback {
        Unlink(eis, |running| - 1);
        assert running == old(running);
        assert forall i :: 0 <= i < |running| ==> running[i] in old(running);
      } else {
        eis.initialised := true;
        assert forall i :: 0 <= i < |old(running)| ==> running[i] in old(running);
      }
    }

    /** Sets an entry up and appends it; an entry that is already running is only refreshed.
        `callback` says whether the Java callback was found. */
    method Initialise(eis: EventInfo, fd: int, callback: bool) returns (ok: bool)
      requires Valid() && (eis.initialised <==> eis in running)
      modifies this, eis, footprint`next, footprint`prev
      ensures Valid() && eis.initialised == ok == (old(eis.initialised) || callback)
      ensures running == if ok then Step(old(running), Start(eis)) else old(running)
      ensures eis.fd == if old(eis.initialised) then old(eis.fd) else fd
      ensures eis.eventflags == if old(eis.initialised) then old(eis.eventflags) else seq(EVENT_KINDS, i => 0)
    {
      if eis.initialised {
        return true;
      }
      Enter(eis, fd, callback);
      return callback;
    }

    /** The beginning of `eventLoop`: it marks its entry as new before setting it up, so an
        entry that has ended, which stays marked, can begin another session. */
    method BeginSession(eis: EventInfo, fd: int, callback: bool) returns (ok: bool)
      requires Valid() && eis !in running
      modifies this, eis, footprint`next, footprint`prev
      ensures Valid() && ok == callback && eis.initialised == callback
      ensures running == if ok then Step(old(running), Start(eis)) else old(running)
      ensures eis.fd == fd && eis.eventflags == seq(EVENT_KINDS, i => 0)
    {
      eis.initialised := false;
      ok := Initialise(eis, fd, callback);
    }

    /** Unlinks the entry at position `k`. */
    method Unlink(eis: EventInfo, ghost k: nat)
      requires Linked() && k < |running| && running[k] == eis
      modifies this, footprint`next, footprint`prev
      ensures Linked() && running == old(Dropped(running, k)) && footprint == old(footprint)
    {
      if eis.next != null && eis.prev != null {
        eis.prev.next := eis.next;
        eis.next.prev := eis.prev;
      } else if eis.next != null {
        eis.next.prev := null;
        master := eis.next;
      } else if eis.prev != null {
        eis.prev.next := null;
      } else {
        master := null;
      }
      ghost var was := running;
      assert forall i {:trigger was[i].next} :: 0 <= i < |was| && i != k ==>
        was[i].next == At(was, if i == k - 1 then k + 1 else i + 1);
      assert forall i {:trigger was[i].prev} :: 0 <= i < |was| && i != k ==>
        was[i].prev == At(was, if i == k + 1 then k - 1 else i - 1);
      DroppedDistinct(was, k);
      DroppedAt(was, k);
      running := Dropped(was, k);
      forall i | 0 <= i < |running|
        ensures running[i] in footprint
        ensures running[i].next == At(running, i + 1) && running[i].prev == At(running, i - 1)
      {
        assert running[i] == was[if i < k then i else i + 1];
      }
    }

    /** Dropping an entry keeps the others set up. */
    lemma StillSetUp(was: seq<EventInfo>, k: nat)
      requires k < |was| && running == Dropped(was, k)
      requires forall i :: 0 <= i < |was| ==> was[i].initialised && |was[i].eventflags| == EVENT_KINDS
      ensures forall i :: 0 <= i < |running| ==>
        running[i].initialised && |running[i].eventflags| == EVENT_KINDS
    {
      DroppedAt(was, k);
    }

    /** Ends a running loop. */
    method Finalize(eis: EventInfo)
      requires Valid() && eis in running
      modifies this, footprint`next, footprint`prev
      ensures Valid() && running == Step(old(running), End(eis))
    {
      ghost var k :| 0 <= k < |running| && running[k] == eis;
      ghost var was := running;
      RemovedIsDropped(running, k);
      Unlink(eis, k);
      StillSetUp(was, k);
    }

    /** The first running loop on that descriptor. */
    ghost predicate FirstOn(i: int, fd: int)
      reads this, running
    {
      0 <= i < |running| && running[i].fd == fd && forall j :: 0 <= j < i ==> running[j].fd != fd
    }

    /** Sets one flag of the first entry with that descriptor, and nothing else. */
    method SetEventFlag(fd: int, event: nat, flag: int)
      requires Valid() && event < EVENT_KINDS
      modifies running`eventflags
      ensures Valid()
      ensures forall i :: 0 <= i < |running| ==>
        running[i].eventflags == if FirstOn(i, fd) then old(running[i].eventflags)[event := flag]
                                 else old(running[i].eventflags)
    {
      var index := master;
      if index == null {
        return;
      }
      ghost var k := 0;
      while index.fd != fd && index.next != null
        invariant 0 <= k < |running| && index == running[k]
        invariant forall j :: 0 <= j < k ==> running[j].fd != fd
        decreases |running| - k
      {
        index, k := index.next, k + 1;
      }
      if index.fd != fd {
        return;
      }
      index.eventflags := index.eventflags[event := flag];
    }
  }

  // ---- Runs of event loops that start, restart and end ----------------------------

  datatype Op<T> = Start(who: T) | End(who: T)

  /** What `BeginSession`, `Initialise` and `Finalize` do to the list. */
  function Step<T(==)>(list: seq<T>, op: Op<T>): seq<T> {
    match op
    case Start(x) => if x in list then list else list + [x]
    case End(x) => Removed(list, x)
  }

  function Removed<T(==)>(list: seq<T>, x: T): seq<T> {
    if list == [] then [] else if list[0] == x then list[1..] else [list[0]] + Removed(list[1..], x)
  }

  /** The list after a run; the last operation is done last. */
  function After<T(==)>(ops: seq<Op<T>>): seq<T> {
    if ops == [] then [] else Step(After(ops[..|ops| - 1]), ops[|ops| - 1])
  }

  /** A loop is running when it was started and has not ended since. */
  predicate IsRunning<T(==)>(ops: seq<Op<T>>, x: T) {
    if ops == [] then false
    else if ops[|ops| - 1].who == x then ops[|ops| - 1].Start?
    else IsRunning(ops[..|ops| - 1], x)
  }

  /** When the present session of a running loop began; starting it again changes nothing. */
  function Since<T(==)>(ops: seq<Op<T>>, x: T): (t: nat)
    requires IsRunning(ops, x)
    ensures t < |ops|
  {
    var before := ops[..|ops| - 1];
    if IsRunning(before, x) then Since(before, x) else |before|
  }

  lemma {:induction false} RemovedIsDropped<T>(list: seq<T>, k: nat)
    requires Distinct(list) && k < |list|
    ensures Removed(list, list[k]) == Dropped(list, k)
  {
    if k > 0 {
      var rest := list[1..];
      RemovedIsDropped(rest, k - 1);
      assert list[0] != list[k] == rest[k - 1];
      assert [list[0]] + Dropped(rest, k - 1) == Dropped(list, k);
    }
  }

  lemma {:induction false} NothingRemoved<T>(list: seq<T>, x: T)
    requires x !in list
    ensures Removed(list, x) == list
  {
    if list != [] {
      NothingRemoved(list[1..], x);
      assert [list[0]] + list[1..] == list;
    }
  }

  lemma RemovedKeepsRest<T>(list: seq<T>, x: T)
    requires Distinct(list)
    ensures x !in list ==> Removed(list, x) == list
    ensures forall k :: 0 <= k < |list| && list[k] == x ==> Removed(list, x) == Dropped(list, k)
  {
    if x !in list {
      NothingRemoved(list, x);
    }
    forall k | 0 <= k < |list| && list[k] == x
      ensures Removed(list, x) == Dropped(list, k)
    {
      RemovedIsDropped(list, k);
    }
  }

  /** For any order of starts and ends, the list holds exactly the running loops, each
      once, in the order in which their present sessions began. */
  lemma {:induction false} ListIsStartOrder<T>(ops: seq<Op<T>>)
    ensures Distinct(After(ops))
    ensures forall x :: x in After(ops) <==> IsRunning(ops, x)
    ensures forall i, j :: 0 <= i < j < |After(ops)| ==> Since(ops, After(ops)[i]) < Since(ops, After(ops)[j])
  {
    if ops != [] {
      var before, op := ops[..|ops| - 1], ops[|ops| - 1];
      ListIsStartOrder(before);
      var was, list := After(before), After(ops);
      StepMembers(was, op);
      forall x | x in list
        ensures IsRunning(ops, x)
        ensures Since(ops, x) == if x in was then Since(before, x) else |before|
      {
        assert x in was <==> IsRunning(before, x);
      }
      forall i, j | 0 <= i < j < |list|
        ensures Since(ops, list[i]) < Since(ops, list[j])
      {
        assert list[i] in list && list[j] in list;
        EarlierStays(was, op, i, j);
      }
    }
  }

  lemma StepMembers<T>(was: seq<T>, op: Op<T>)
    requires Distinct(was)
    ensures Distinct(Step(was, op))
    ensures forall x :: x in Step(was, op) <==> if x == op.who then op.Start? else x in was
  {
    RemovedKeepsRest(was, op.who);
    if op.End? && op.who in was {
      var k :| 0 <= k < |was| && was[k] == op.who;
      DroppedDistinct(was, k);
      DroppedMembers(was, k);
    }
  }

  /** Two entries of the new list were in the old one in the same order, unless the later
      one has just been appended. */
  lemma EarlierStays<T>(was: seq<T>, op: Op<T>, i: nat, j: nat)
    requires Distinct(was) && i < j < |Step(was, op)|
    ensures var list := Step(was, op);
      if list[j] in was then exists a, b :: 0 <= a < b < |was| && was[a] == list[i] && was[b] == list[j]
      else list[i] in was
  {
    var list := Step(was, op);
    RemovedKeepsRest(was, op.who);
    if op.End? && op.who in was {
      var k :| 0 <= k < |was| && was[k] == op.who;
      var a, b := if i < k then i else i + 1, if j < k then j else j + 1;
      assert was[a] == list[i] && was[b] == list[j];
    } else if j < |was| {
      assert was[i] == list[i] && was[j] == list[j];
    }
  }
}
