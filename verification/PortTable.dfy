/**
  The table of open ports behind the Win32 termios emulation (native/src/termios.c): a
  doubly linked list kept in ascending order of descriptor, which serves as an allocator
  of the smallest free descriptor.
 */
module PortTable {
  import opened Sequences

  datatype Entry = Entry(fd: int, filename: string)

  // ---- The table as a sequence of entries ----------------------------------------

  ghost predicate Used(t: seq<Entry>, fd: int) {
    exists i :: 0 <= i < |t| && t[i].fd == fd
  }

  ghost predicate IsOpen(t: seq<Entry>, filename: string) {
    exists i :: 0 <= i < |t| && t[i].filename == filename
  }

  predicate Before(a: Entry, b: Entry) {
    a.fd < b.fd && a.filename != b.filename
  }

  /** Positive descriptors in strictly ascending order, each file open once. */
  ghost predicate Ordered(t: seq<Entry>) {
    && (forall i :: 0 <= i < |t| ==> 0 < t[i].fd)
    && (forall i, j {:trigger Before(t[i], t[j])} :: 0 <= i < j < |t| ==> Before(t[i], t[j]))
  }

  /** The order, ready for use at any two positions. */
  lemma Ascending(t: seq<Entry>)
    requires Ordered(t)
    ensures forall i, j :: 0 <= i < j < |t| ==> t[i].fd < t[j].fd
    ensures forall i, j :: 0 <= i < j < |t| ==> t[i].filename != t[j].filename
  {
    forall i, j | 0 <= i < j < |t|
      ensures t[i].fd < t[j].fd && t[i].filename != t[j].filename
    {
      assert Before(t[i], t[j]);
    }
  }

  ghost predicate SmallestFree(t: seq<Entry>, fd: int) {
    0 < fd && !Used(t, fd) && forall m :: 0 < m < fd ==> Used(t, m)
  }

  /** `add_port` dereferences a null `prev` when it has to insert before the head. */
  predicate HeadInsert(t: seq<Entry>) {
    t != [] && t[0].fd > 1
  }

  /** The first entries of an ordered table are numbered without a gap up to the smallest
      free descriptor, and everything behind them is larger. */
  lemma {:induction false} DenseUpTo(t: seq<Entry>, fd: int, k: nat)
    requires Ordered(t) && SmallestFree(t, fd) && k < fd
    ensures k <= |t| && forall i :: 0 <= i < k ==> t[i].fd == i + 1
  {
    Ascending(t);
    if k > 0 {
      DenseUpTo(t, fd, k - 1);
      assert Used(t, k);
      var i :| 0 <= i < |t| && t[i].fd == k;
      assert k - 1 <= i;
      assert k >= 2 ==> k - 1 == t[k - 2].fd < t[k - 1].fd;
    }
  }

  function Inserted(t: seq<Entry>, e: Entry): seq<Entry>
    requires 0 < e.fd <= |t| + 1
  {
    t[..e.fd - 1] + [e] + t[e.fd - 1..]
  }

  /** `fd` belongs at position `fd - 1`: smaller ones before, larger ones after. */
  ghost predicate Fits(t: seq<Entry>, fd: int) {
    && 0 < fd <= |t| + 1
    && (forall i :: 0 <= i < fd - 1 ==> t[i].fd == i + 1)
    && (forall i :: fd - 1 <= i < |t| ==> fd < t[i].fd)
  }

  lemma FreePosition(t: seq<Entry>, fd: int)
    requires Ordered(t) && SmallestFree(t, fd)
    ensures Fits(t, fd)
  {
    Ascending(t);
    DenseUpTo(t, fd, fd - 1);
    forall i | fd - 1 <= i < |t|
      ensures fd < t[i].fd
    {
      assert t[i].fd != fd;
      assert fd >= 2 ==> t[fd - 2].fd == fd - 1;
    }
  }

  /** Inserting the smallest free descriptor at its own position keeps the order. */
  lemma InsertKeepsOrder(t: seq<Entry>, fd: int, filename: string)
    requires Ordered(t) && SmallestFree(t, fd) && !IsOpen(t, filename)
    ensures fd <= |t| + 1
    ensures Ordered(Inserted(t, Entry(fd, filename)))
  {
    FreePosition(t, fd);
    var e := Entry(fd, filename);
    var u := Inserted(t, e);
    forall i | 0 <= i < |u|
      ensures 0 < u[i].fd
    {
      InsertedAt(t, e, i);
    }
    forall i, j | 0 <= i < j < |u|
      ensures Before(u[i], u[j])
    {
      InsertedAt(t, e, i);
      InsertedAt(t, e, j);
      if i == fd - 1 {
        FitsBeside(t, e, j - 1);
      } else if j == fd - 1 {
        FitsBeside(t, e, i);
      } else {
        assert Before(t[if i < fd then i else i - 1], t[if j < fd then j else j - 1]);
      }
    }
  }

  lemma InsertedAt(t: seq<Entry>, e: Entry, i: nat)
    requires 0 < e.fd <= |t| + 1 && i <= |t|
    ensures Inserted(t, e)[i] == if i < e.fd - 1 then t[i] else if i == e.fd - 1 then e else t[i - 1]
  {
  }

  lemma FitsBeside(t: seq<Entry>, e: Entry, k: nat)
    requires Fits(t, e.fd) && !IsOpen(t, e.filename) && k < |t|
    ensures if k < e.fd - 1 then Before(t[k], e) else Before(e, t[k])
  {
  }

  /** Dropping one entry keeps the order. */
  lemma RemoveKeepsOrder(t: seq<Entry>, k: nat)
    requires Ordered(t) && k < |t|
    ensures Ordered(t[..k] + t[k + 1..])
  {
    var u := t[..k] + t[k + 1..];
    assert forall i :: 0 <= i < |u| ==> u[i] == if i < k then t[i] else t[i + 1];
  }

  lemma GapIsFree(t: seq<Entry>, i: nat)
    requires Ordered(t) && i < |t| && forall j :: 0 <= j <= i ==> t[j].fd == j + 1
    requires i + 1 < |t| ==> t[i + 1].fd != t[i].fd + 1
    ensures SmallestFree(t, i + 2)
  {
    Ascending(t);
    forall m | 0 < m < i + 2
      ensures Used(t, m)
    {
      assert t[m - 1].fd == m;
    }
  }

  lemma FreeIsUnique(t: seq<Entry>, a: int, b: int)
    requires SmallestFree(t, a) && SmallestFree(t, b)
    ensures a == b
  {
  }

  lemma OneIsFree(t: seq<Entry>)
    requires Ordered(t) && (t == [] || t[0].fd > 1)
    ensures SmallestFree(t, 1)
  {
    Ascending(t);
    assert forall i :: 0 <= i < |t| ==> t[0].fd <= t[i].fd;
  }

  /** The descriptor after the gapless stretch that reaches at least to position `i`. */
  function Gap(t: seq<Entry>, i: nat): (fd: int)
    requires Ordered(t) && i < |t| && forall j :: 0 <= j <= i ==> t[j].fd == j + 1
    ensures SmallestFree(t, fd)
    decreases |t| - i
  {
    if i + 1 < |t| && t[i + 1].fd == t[i].fd + 1 then Gap(t, i + 1)
    else
      GapIsFree(t, i);
      t[i].fd + 1
  }

  function FreeFd(t: seq<Entry>): (fd: int)
    requires Ordered(t)
    ensures SmallestFree(t, fd)
  {
    if t == [] || t[0].fd > 1 then
      OneIsFree(t);
      1
    else Gap(t, 0)
  }

  // ---- Runs of opens and closes against a plain map --------------------------------

  /** `Open` carries whether the device could be opened and queried. */
  datatype Op = Open(filename: string, device: bool) | Close(fd: int)

  /** The program state: `Crashed` after the null dereference. */
  datatype Table = Running(entries: seq<Entry>) | Crashed

  ghost predicate Good(t: Table) {
    t.Running? ==> Ordered(t.entries)
  }

  ghost function Without(t: seq<Entry>, fd: int): seq<Entry> {
    if Used(t, fd) then
      var k :| 0 <= k < |t| && t[k].fd == fd;
      t[..k] + t[k + 1..]
    else t
  }

  lemma WithoutAt(t: seq<Entry>, k: nat)
    requires Ordered(t) && k < |t|
    ensures Without(t, t[k].fd) == t[..k] + t[k + 1..]
  {
    Ascending(t);
  }

  /** A port that could not be opened is taken out again, and nothing has changed. */
  lemma RemoveUndoesInsert(t: seq<Entry>, e: Entry)
    requires 0 < e.fd <= |t| + 1 && Ordered(Inserted(t, e))
    ensures Without(Inserted(t, e), e.fd) == t
  {
    var u := Inserted(t, e);
    assert u[e.fd - 1] == e;
    WithoutAt(u, e.fd - 1);
    assert u[..e.fd - 1] + u[e.fd..] == t;
  }

  ghost function Step(t: Table, op: Op): Table
    requires Good(t)
  {
    if t.Crashed? then Crashed
    else match op
      case Open(f, device) =>
        if IsOpen(t.entries, f) then t
        else if HeadInsert(t.entries) then Crashed
        else if !device then t
        else
          InsertKeepsOrder(t.entries, FreeFd(t.entries), f);
          Running(Inserted(t.entries, Entry(FreeFd(t.entries), f)))
      case Close(fd) => Running(Without(t.entries, fd))
  }

  /** What an open does, case by case. */
  lemma OpenCases(t: seq<Entry>, filename: string, device: bool)
    requires Ordered(t)
    ensures IsOpen(t, filename) ==> Step(Running(t), Open(filename, device)) == Running(t)
    ensures !IsOpen(t, filename) && HeadInsert(t) ==> Step(Running(t), Open(filename, device)) == Crashed
    ensures !IsOpen(t, filename) && !HeadInsert(t) && !device ==> Step(Running(t), Open(filename, device)) == Running(t)
    ensures !IsOpen(t, filename) ==> FreeFd(t) <= |t| + 1
    ensures !IsOpen(t, filename) && !HeadInsert(t) && device ==>
      Step(Running(t), Open(filename, device)) == Running(Inserted(t, Entry(FreeFd(t), filename)))
  {
    if !IsOpen(t, filename) {
      InsertKeepsOrder(t, FreeFd(t), filename);
    }
  }

  // The reference: which descriptor belongs to which open file, as a plain set of pairs
  // that knows nothing of lists or positions.

  ghost function Pairs(t: seq<Entry>): set<Entry> {
    set e | e in t
  }

  ghost predicate HasFile(m: set<Entry>, filename: string) {
    exists e :: e in m && e.filename == filename
  }

  ghost predicate HasFd(m: set<Entry>, fd: int) {
    exists e :: e in m && e.fd == fd
  }

  /** The new pair carries the smallest positive descriptor that no file has. */
  ghost predicate Assigned(m: set<Entry>, e: Entry, n: set<Entry>) {
    && n == m + {e}
    && 0 < e.fd && !HasFd(m, e.fd)
    && forall v :: 0 < v < e.fd ==> HasFd(m, v)
  }

  ghost predicate PairsStep(m: set<Entry>, op: Op, n: set<Entry>) {
    match op
    case Open(f, device) =>
      if HasFile(m, f) || !device then n == m
      else exists fd :: Assigned(m, Entry(fd, f), n)
    case Close(fd) =>
      n == set e | e in m && e.fd != fd
  }

  /** The one case the list does not survive: a new file is opened while descriptor 1 is
      free and some port is open. */
  ghost predicate PairsCrash(m: set<Entry>, op: Op) {
    op.Open? && !HasFile(m, op.filename) && m != {} && !HasFd(m, 1)
  }

  lemma StepKeepsGood(t: Table, op: Op)
    requires Good(t)
    ensures Good(Step(t, op))
  {
    if t.Running? {
      match op
      case Open(f, _) =>
        if !IsOpen(t.entries, f) {
          InsertKeepsOrder(t.entries, FreeFd(t.entries), f);
        }
      case Close(fd) =>
        if Used(t.entries, fd) {
          var k :| 0 <= k < |t.entries| && t.entries[k].fd == fd;
          WithoutAt(t.entries, k);
          RemoveKeepsOrder(t.entries, k);
        }
    }
  }

  lemma PairsAgree(t: seq<Entry>)
    ensures forall f :: HasFile(Pairs(t), f) <==> IsOpen(t, f)
    ensures forall v :: HasFd(Pairs(t), v) <==> Used(t, v)
    ensures Pairs(t) == {} <==> t == []
  {
    assert forall i :: 0 <= i < |t| ==> t[i] in Pairs(t);
    assert t == [] || t[0] in Pairs(t);
  }

  lemma HeadInsertIsFdOneFree(t: seq<Entry>)
    requires Ordered(t)
    ensures HeadInsert(t) <==> t != [] && !Used(t, 1)
  {
    Ascending(t);
    assert t != [] && t[0].fd > 1 ==> forall i :: 0 <= i < |t| ==> t[i].fd > 1;
  }

  lemma RemovedPairs(t: seq<Entry>, k: nat)
    requires Ordered(t) && k < |t|
    ensures Pairs(t[..k] + t[k + 1..]) == set e | e in Pairs(t) && e.fd != t[k].fd
  {
    Ascending(t);
    assert t[..k] + t[k + 1..] == Dropped(t, k);
    DroppedMembers(t, k);
    forall e | e in t
      ensures e == t[k] <==> e.fd == t[k].fd
    {
      var i :| 0 <= i < |t| && t[i] == e;
    }
  }

  /** One open or close does to the list what it does to the plain set of pairs; the list
      crashes exactly in the case named by `PairsCrash`. */
  lemma StepMatchesPairs(t: seq<Entry>, op: Op)
    requires Ordered(t)
    ensures Good(Step(Running(t), op))
    ensures Step(Running(t), op).Crashed? <==> PairsCrash(Pairs(t), op)
    ensures Step(Running(t), op).Running? ==> PairsStep(Pairs(t), op, Pairs(Step(Running(t), op).entries))
  {
    StepKeepsGood(Running(t), op);
    match op
    case Open(f, device) =>
      OpenMatchesPairs(t, f, device);
    case Close(fd) =>
      PairsAgree(t);
      if Used(t, fd) {
        var k :| 0 <= k < |t| && t[k].fd == fd;
        WithoutAt(t, k);
        RemovedPairs(t, k);
      } else {
        assert forall e :: e in Pairs(t) ==> e.fd != fd;
      }
  }

  lemma OpenMatchesPairs(t: seq<Entry>, f: string, device: bool)
    requires Ordered(t)
    ensures var u := Step(Running(t), Open(f, device));
      && (u.Crashed? <==> PairsCrash(Pairs(t), Open(f, device)))
      && (u.Running? ==> PairsStep(Pairs(t), Open(f, device), Pairs(u.entries)))
  {
    PairsAgree(t);
    HeadInsertIsFdOneFree(t);
    if !IsOpen(t, f) && !HeadInsert(t) && device {
      InsertIsAssigned(t, FreeFd(t), f);
    }
  }

  lemma InsertIsAssigned(t: seq<Entry>, fd: int, f: string)
    requires Ordered(t) && SmallestFree(t, fd)
    ensures fd <= |t| + 1 && Assigned(Pairs(t), Entry(fd, f), Pairs(Inserted(t, Entry(fd, f))))
  {
    FreePosition(t, fd);
    PairsAgree(t);
    InsertedPairs(t, Entry(fd, f));
  }

  lemma InsertedPairs(t: seq<Entry>, e: Entry)
    requires 0 < e.fd <= |t| + 1
    ensures Pairs(Inserted(t, e)) == Pairs(t) + {e}
  {
    assert t == t[..e.fd - 1] + t[e.fd - 1..];
  }

  ghost function Exec(t: Table, ops: seq<Op>): (u: Table)
    requires Good(t)
    ensures Good(u)
    decreases |ops|
  {
    if ops == [] then t
    else
      StepKeepsGood(t, ops[0]);
      Exec(Step(t, ops[0]), ops[1..])
  }

  /** The plain set of pairs through the same run, for runs that avoid the crash. */
  ghost predicate PairsRun(m: set<Entry>, ops: seq<Op>, n: set<Entry>)
    decreases |ops|
  {
    if ops == [] then n == m
    else !PairsCrash(m, ops[0]) && exists k :: PairsStep(m, ops[0], k) && PairsRun(k, ops[1..], n)
  }

  /** Over every sequence of opens and closes: either the list is ordered and holds just
      what the plain set of pairs holds after the same run, or some open met the case of
      `PairsCrash`. */
  lemma {:induction false} RunMatchesPairs(t: seq<Entry>, ops: seq<Op>)
    requires Ordered(t)
    ensures Exec(Running(t), ops).Running? ==> PairsRun(Pairs(t), ops, Pairs(Exec(Running(t), ops).entries))
    ensures Exec(Running(t), ops).Crashed? ==> !exists n :: PairsRun(Pairs(t), ops, n)
    decreases |ops|
  {
    if ops != [] {
      StepMatchesPairs(t, ops[0]);
      var u := Step(Running(t), ops[0]);
      if u.Running? {
        RunMatchesPairs(u.entries, ops[1..]);
        forall n, k | PairsRun(Pairs(t), ops, n) && PairsStep(Pairs(t), ops[0], k) && PairsRun(k, ops[1..], n)
          ensures k == Pairs(u.entries)
        {
          PairsStepUnique(Pairs(t), ops[0], k, Pairs(u.entries));
        }
      } else {
        CrashIsFinal(ops[1..]);
      }
    }
  }

  lemma {:induction false} CrashIsFinal(ops: seq<Op>)
    ensures Exec(Crashed, ops) == Crashed
    decreases |ops|
  {
    if ops != [] {
      CrashIsFinal(ops[1..]);
    }
  }

  /** The reference leaves no choice. */
  lemma PairsStepUnique(m: set<Entry>, op: Op, k: set<Entry>, n: set<Entry>)
    requires PairsStep(m, op, k) && PairsStep(m, op, n)
    ensures k == n
  {
  }

  /** Whenever two or more ports are open, closing the one with descriptor 1 and opening
      another file brings the crash about. */
  lemma ReopeningAtHeadCrashes(t: seq<Entry>, filename: string, device: bool)
    requires Ordered(t) && |t| >= 2 && t[0].fd == 1 && !IsOpen(t, filename)
    ensures Good(Step(Running(t), Close(1)))
    ensures Step(Step(Running(t), Close(1)), Open(filename, device)) == Crashed
  {
    StepKeepsGood(Running(t), Close(1));
    Ascending(t);
    assert Used(t, t[0].fd);
    WithoutAt(t, 0);
    assert t[..0] + t[1..] == t[1..];
    assert forall i :: 0 <= i < |t| - 1 ==> t[1..][i] == t[i + 1];
  }
}
