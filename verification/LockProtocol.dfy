/**
  The lock-file protocol of `fhs_lock`, `is_device_locked`, `fhs_unlock` and
  `check_lock_pid` (native/src/SerialImp.c), run by any number of processes over
  one shared lock directory.

  Every access to the directory is a step of its own: the stale check reads the
  lock file and probes the recorded pid (`Judge`), unlinks it (`Remove`), creates
  the file exclusively (`Create`) and writes the pid into it (`Record`); unlocking
  reads the file (`Confirm`) and unlinks it (`Release`).  Processes may start and
  crash anywhere, and a pid may be used again.
 */
module LockProtocol {

  type Pid = nat
  type Device = string

  /** A lock file is empty until its creator has written its pid. */
  datatype Content = Empty(creator: Pid) | Holds(pid: Pid)

  /** Where a process stands inside a lock or unlock call. */
  datatype Point =
    | Outside
    | Judged(device: Device, stale: bool)
    | Cleared(device: Device)
    | Created(device: Device)
    | Confirmed(device: Device)

  /** `at` gives the position of every live process; `holds` are the successful
      lock calls not yet undone, including those of processes that crashed. */
  datatype State = State(files: map<Device, Content>, at: map<Pid, Point>, holds: set<(Pid, Device)>)

  datatype Step =
    | Spawn(p: Pid)
    | Crash(p: Pid)
    | Judge(p: Pid, d: Device, seen: Pid)
    | Refuse(p: Pid)
    | Remove(p: Pid)
    | Pass(p: Pid)
    | Create(p: Pid)
    | Record(p: Pid)
    | Confirm(p: Pid, d: Device, seen: Pid, kin: set<Pid>)
    | Release(p: Pid)

  /** The pid a reader finds: a file without a pid leaves its buffer unset. */
  predicate Reads(s: State, d: Device, seen: Pid) {
    d in s.files && s.files[d].Holds? ==> seen == s.files[d].pid
  }

  predicate Enabled(s: State, step: Step) {
    match step
    case Spawn(p) => p !in s.at
    case Crash(p) => p in s.at
    case Judge(p, d, seen) => p in s.at && s.at[p].Outside? && Reads(s, d, seen)
    case Refuse(p) => p in s.at && s.at[p].Judged?
    case Remove(p) => p in s.at && s.at[p].Judged? && s.at[p].stale
    case Pass(p) => p in s.at && s.at[p].Judged? && !s.at[p].stale
    case Create(p) => p in s.at && s.at[p].Cleared?
    case Record(p) => p in s.at && s.at[p].Created?
    case Confirm(p, d, seen, kin) => p in s.at && s.at[p].Outside? && Reads(s, d, seen)
    case Release(p) => p in s.at && s.at[p].Confirmed?
  }

  /** `check_lock_pid` accepts the process itself and its kin: the parent's pid and the pid
      recorded at open time. */
  predicate Accepts(s: State, p: Pid, d: Device, seen: Pid, kin: set<Pid>) {
    d in s.files && (seen == p || seen in kin)
  }

  /** The check finds a file that names a dead process. */
  predicate FindsStale(s: State, d: Device, seen: Pid) {
    d in s.files && seen !in s.at
  }

  /** The effect of one step. */
  function Next(s: State, step: Step): State
    requires Enabled(s, step)
  {
    match step
    case Spawn(p) =>
      s.(at := s.at[p := Outside], holds := set h | h in s.holds && h.0 != p)
    case Crash(p) =>
      s.(at := s.at - {p})
    case Judge(p, d, seen) =>
      // stat, open, read, sscanf and kill(pid, 0) with ESRCH
      s.(at := s.at[p := Judged(d, FindsStale(s, d, seen))])
    case Refuse(p) =>
      // an unexpected lock file elsewhere
      s.(at := s.at[p := Outside])
    case Remove(p) =>
      var d := s.at[p].device;
      if d in s.files then
        s.(files := s.files - {d}, at := s.at[p := Cleared(d)])
      else
        // unlink fails: the lock call gives up
        s.(at := s.at[p := Outside])
    case Pass(p) =>
      s.(at := s.at[p := Cleared(s.at[p].device)])
    case Create(p) =>
      // open with O_CREAT | O_EXCL
      var d := s.at[p].device;
      if d in s.files then
        s.(at := s.at[p := Outside])
      else
        s.(files := s.files[d := Empty(p)], at := s.at[p := Created(d)])
    case Record(p) =>
      // the write reaches the directory entry only while it still names our file
      var d := s.at[p].device;
      s.(files := if d in s.files && s.files[d] == Empty(p) then s.files[d := Holds(p)] else s.files,
         at := s.at[p := Outside],
         holds := s.holds + {(p, d)})
    case Confirm(p, d, seen, kin) =>
      if Accepts(s, p, d, seen, kin) then
        s.(at := s.at[p := Confirmed(d)])
      else
        s.(holds := s.holds - {(p, d)})
    case Release(p) =>
      var d := s.at[p].device;
      s.(files := s.files - {d}, at := s.at[p := Outside], holds := s.holds - {(p, d)})
  }

  /** Nobody is about to unlink `d` as stale, nor between creating it and writing its pid. */
  ghost predicate Quiet(s: State, d: Device) {
    forall q :: q in s.at ==> s.at[q] != Judged(d, true) && s.at[q] != Created(d)
  }

  /** What the callers have to arrange: a check that finds a stale file overlaps neither
      another such check nor a pid write, and an unlock that is accepted is for the process's
      own file and overlaps no such check. */
  ghost predicate Orderly(s: State, step: Step) {
    match step
    case Judge(_, d, seen) => FindsStale(s, d, seen) ==> Quiet(s, d)
    case Confirm(p, d, seen, kin) => Accepts(s, p, d, seen, kin) ==> s.files[d] == Holds(p) && Quiet(s, d)
    case _ => true
  }

  ghost predicate Possible(s: State, steps: seq<Step>)
    decreases |steps|
  {
    steps == [] || (Enabled(s, steps[0]) && Possible(Next(s, steps[0]), steps[1..]))
  }

  ghost predicate OrderlyRun(s: State, steps: seq<Step>)
    requires Possible(s, steps)
    decreases |steps|
  {
    steps == [] || (Orderly(s, steps[0]) && OrderlyRun(Next(s, steps[0]), steps[1..]))
  }

  ghost function Exec(s: State, steps: seq<Step>): State
    requires Possible(s, steps)
    decreases |steps|
  {
    if steps == [] then s else Exec(Next(s, steps[0]), steps[1..])
  }

  /** Any lock files may be lying around at the start; nobody is inside a call yet. */
  ghost predicate Init(s: State) {
    s.holds == {} && forall p :: p in s.at ==> s.at[p] == Outside
  }

  ghost predicate LiveHolder(s: State, p: Pid, d: Device) {
    p in s.at && (p, d) in s.holds
  }

  ghost predicate HoldersRecorded(s: State) {
    forall p, d :: LiveHolder(s, p, d) ==> d in s.files && s.files[d] == Holds(p)
  }

  /** What the position of one process says about the directory. */
  ghost predicate PointOk(s: State, p: Pid)
    requires p in s.at
  {
    match s.at[p]
    case Created(d) => d in s.files && s.files[d] == Empty(p)
    case Confirmed(d) =>
      && d in s.files && s.files[d] == Holds(p)
      && (forall q :: q in s.at ==> s.at[q] != Judged(d, true))
    case Judged(d, true) =>
      && d in s.files
      && (forall q :: q in s.at ==> !LiveHolder(s, q, d) && s.at[q] != Created(d))
      && (forall q :: q in s.at && s.at[q] == Judged(d, true) ==> q == p)
    case _ => true
  }

  ghost predicate Inv(s: State) {
    HoldersRecorded(s) && forall p :: p in s.at ==> PointOk(s, p)
  }

  /** The device a step unlinks or creates, if it touches the directory at all. */
  ghost predicate Touches(s: State, step: Step, d: Device)
    requires Enabled(s, step)
  {
    (step.Remove? || step.Create? || step.Record? || step.Release?) && s.at[step.p].device == d
  }

  lemma UntouchedFile(s: State, step: Step, d: Device)
    requires Enabled(s, step) && !Touches(s, step, d)
    ensures var t := Next(s, step);
      (d in t.files <==> d in s.files) && (d in s.files ==> t.files[d] == s.files[d])
  {
  }

  /** No step takes a live holder's file away, and a new holder has just written its own. */
  lemma StepKeepsHolders(s: State, step: Step)
    requires Inv(s) && Enabled(s, step) && Orderly(s, step)
    ensures HoldersRecorded(Next(s, step))
  {
    var t := Next(s, step);
    forall q, d | LiveHolder(t, q, d)
      ensures d in t.files && t.files[d] == Holds(q)
    {
      if step == Record(q) && s.at[q].device == d {
        assert PointOk(s, q);
      } else {
        assert LiveHolder(s, q, d);
        if Touches(s, step, d) {
          assert PointOk(s, step.p);
        } else {
          UntouchedFile(s, step, d);
        }
      }
    }
  }

  /** What the other processes' positions say stays true. */
  lemma StepKeepsPoint(s: State, step: Step, q: Pid)
    requires Inv(s) && Enabled(s, step) && Orderly(s, step)
    requires q in Next(s, step).at
    ensures PointOk(Next(s, step), q)
  {
    var t := Next(s, step);
    if step.p in s.at {
      assert PointOk(s, step.p);
    }
    if q != step.p {
      assert PointOk(s, q);
    }
    match t.at[q] {
      case Created(d) =>
        assert q != step.p && Touches(s, step, d) ==> PointOk(s, step.p);
      case Confirmed(d) =>
        forall r | r in s.at
          ensures PointOk(s, r)
        {
        }
      case Judged(d, stale) =>
        if stale {
          forall r | r in t.at
            ensures !LiveHolder(t, r, d) && t.at[r] != Created(d)
          {
            assert r in s.at ==> PointOk(s, r);
            assert r in s.at && q in s.at && q != step.p ==> !LiveHolder(s, r, d);
            assert LiveHolder(s, r, d) ==> d in s.files;
          }
          if q != step.p && Touches(s, step, d) {
            assert !LiveHolder(s, step.p, d);
          }
        }
      case _ =>
    }
  }

  lemma StepKeepsInv(s: State, step: Step)
    requires Inv(s) && Enabled(s, step) && Orderly(s, step)
    ensures Inv(Next(s, step))
  {
    StepKeepsHolders(s, step);
    forall q | q in Next(s, step).at
      ensures PointOk(Next(s, step), q)
    {
      StepKeepsPoint(s, step, q);
    }
  }

  lemma {:induction false} RunKeepsInv(s: State, steps: seq<Step>)
    requires Inv(s) && Possible(s, steps) && OrderlyRun(s, steps)
    ensures Inv(Exec(s, steps))
    decreases |steps|
  {
    if steps != [] {
      StepKeepsInv(s, steps[0]);
      RunKeepsInv(Next(s, steps[0]), steps[1..]);
    }
  }

  /** Mutual exclusion over whole runs: in every orderly run of any processes, a live
      holder's pid is what its lock file says, so a device has at most one live holder. */
  lemma Exclusion(s: State, steps: seq<Step>, p: Pid, q: Pid, d: Device)
    requires Init(s) && Possible(s, steps) && OrderlyRun(s, steps)
    requires LiveHolder(Exec(s, steps), p, d) && LiveHolder(Exec(s, steps), q, d)
    ensures d in Exec(s, steps).files && Exec(s, steps).files[d] == Holds(p)
    ensures p == q
  {
    RunKeepsInv(s, steps);
  }

  /** Unfolds a run by one step. */
  lemma ExecCons(s: State, step: Step, rest: seq<Step>)
    requires Enabled(s, step) && Possible(Next(s, step), rest)
    ensures Possible(s, [step] + rest)
    ensures Exec(s, [step] + rest) == Exec(Next(s, step), rest)
    ensures OrderlyRun(s, [step] + rest) <==> Orderly(s, step) && OrderlyRun(Next(s, step), rest)
  {
    assert ([step] + rest)[1..] == rest;
  }

  /** Runs one after the other. */
  lemma {:induction false} ExecConcat(s: State, a: seq<Step>, b: seq<Step>)
    requires Possible(s, a) && Possible(Exec(s, a), b)
    ensures Possible(s, a + b)
    ensures Exec(s, a + b) == Exec(Exec(s, a), b)
    ensures OrderlyRun(s, a + b) <==> OrderlyRun(s, a) && OrderlyRun(Exec(s, a), b)
    decreases |a|
  {
    if a == [] {
      assert a + b == b;
    } else {
      ExecConcat(Next(s, a[0]), a[1..], b);
      assert (a + b)[1..] == a[1..] + b;
    }
  }

  /** A lock call that finds no file, up to its exclusive create. */
  lemma FreshFile(s: State, d: Device, p: Pid, seen: Pid)
    requires p in s.at && s.at[p] == Outside && d !in s.files
    ensures var steps := [Judge(p, d, seen), Pass(p), Create(p)];
      && Possible(s, steps)
      && OrderlyRun(s, steps)
      && Exec(s, steps) == State(s.files[d := Empty(p)], s.at[p := Created(d)], s.holds)
  {
    var s1 := Next(s, Judge(p, d, seen));
    var s2 := Next(s1, Pass(p));
    ExecCons(s2, Create(p), []);
    ExecCons(s1, Pass(p), [Create(p)]);
    ExecCons(s, Judge(p, d, seen), [Pass(p)] + [Create(p)]);
    assert [Judge(p, d, seen), Pass(p), Create(p)] == [Judge(p, d, seen)] + ([Pass(p)] + [Create(p)]);
    assert Next(s2, Create(p)).at == s.at[p := Created(d)];
  }

  /** A process whose check found `d` stale, run to the end of its lock call. */
  lemma TakeOver(s: State, d: Device, q: Pid)
    requires q in s.at && s.at[q] == Judged(d, true) && d in s.files
    ensures var steps := [Remove(q), Create(q), Record(q)];
      && Possible(s, steps)
      && OrderlyRun(s, steps)
      && Exec(s, steps) == State(s.files[d := Holds(q)], s.at[q := Outside], s.holds + {(q, d)})
  {
    var s1 := Next(s, Remove(q));
    var s2 := Next(s1, Create(q));
    ExecCons(s2, Record(q), []);
    ExecCons(s1, Create(q), [Record(q)]);
    ExecCons(s, Remove(q), [Create(q)] + [Record(q)]);
    assert [Remove(q), Create(q), Record(q)] == [Remove(q)] + ([Create(q)] + [Record(q)]);
    assert Next(s2, Record(q)).files == s.files[d := Holds(q)];
    assert Next(s2, Record(q)).at == s.at[q := Outside];
  }

  /** The lock of a process that died is not lost: any idle process can take it over,
      and it takes the four steps of one `fhs_lock` call. */
  lemma DeadLockIsReclaimed(s: State, d: Device, p: Pid)
    requires d in s.files && s.files[d].Holds? && s.files[d].pid !in s.at
    requires Quiet(s, d) && p in s.at && s.at[p] == Outside
    ensures var steps := [Judge(p, d, s.files[d].pid), Remove(p), Create(p), Record(p)];
      && Possible(s, steps)
      && OrderlyRun(s, steps)
      && LiveHolder(Exec(s, steps), p, d)
      && Exec(s, steps).files == s.files[d := Holds(p)]
  {
    var judge := Judge(p, d, s.files[d].pid);
    TakeOver(Next(s, judge), d, p);
    ExecCons(s, judge, [Remove(p), Create(p), Record(p)]);
    assert [judge, Remove(p), Create(p), Record(p)] == [judge] + [Remove(p), Create(p), Record(p)];
  }

  // ---- What whole calls do ------------------------------------------------------

  /** An unlock of the process's own file frees the device and changes nothing else. */
  lemma UnlockFrees(s: State, d: Device, p: Pid, kin: set<Pid>)
    requires p in s.at && s.at[p] == Outside && d in s.files && s.files[d] == Holds(p) && Quiet(s, d)
    ensures var steps := [Confirm(p, d, p, kin), Release(p)];
      && Possible(s, steps)
      && OrderlyRun(s, steps)
      && Exec(s, steps) == State(s.files - {d}, s.at, s.holds - {(p, d)})
  {
    var s1 := Next(s, Confirm(p, d, p, kin));
    ExecCons(s1, Release(p), []);
    ExecCons(s, Confirm(p, d, p, kin), [Release(p)]);
    assert [Confirm(p, d, p, kin), Release(p)] == [Confirm(p, d, p, kin)] + [Release(p)];
    assert s1.at[p := Outside] == s.at;
  }

  /** A lock call that finds no file ends as the holder. */
  lemma FreshLock(s: State, d: Device, p: Pid, seen: Pid)
    requires p in s.at && s.at[p] == Outside && d !in s.files
    ensures var steps := [Judge(p, d, seen), Pass(p), Create(p), Record(p)];
      && Possible(s, steps)
      && OrderlyRun(s, steps)
      && Exec(s, steps) == State(s.files[d := Holds(p)], s.at, s.holds + {(p, d)})
  {
    FreshFile(s, d, p, seen);
    var begun := [Judge(p, d, seen), Pass(p), Create(p)];
    var t := Exec(s, begun);
    ExecCons(t, Record(p), []);
    ExecConcat(s, begun, [Record(p)]);
    assert begun + [Record(p)] == [Judge(p, d, seen), Pass(p), Create(p), Record(p)];
    assert t.files[d := Holds(p)] == s.files[d := Holds(p)] && t.at[p := Outside] == s.at;
  }

  /** After an unlock the device can be locked again by any other process. */
  lemma UnlockThenLock(s: State, d: Device, p: Pid, q: Pid)
    requires LiveHolder(s, p, d) && d in s.files && s.files[d] == Holds(p) && Quiet(s, d)
    requires p != q && q in s.at && s.at[p] == s.at[q] == Outside
    ensures var steps := [Confirm(p, d, p, {}), Release(p), Judge(q, d, 0), Pass(q), Create(q), Record(q)];
      && Possible(s, steps)
      && OrderlyRun(s, steps)
      && LiveHolder(Exec(s, steps), q, d)
      && !LiveHolder(Exec(s, steps), p, d)
  {
    UnlockFrees(s, d, p, {});
    var freed := [Confirm(p, d, p, {}), Release(p)];
    FreshLock(Exec(s, freed), d, q, 0);
    var locked := [Judge(q, d, 0), Pass(q), Create(q), Record(q)];
    ExecConcat(s, freed, locked);
    assert freed + locked == [Confirm(p, d, p, {}), Release(p), Judge(q, d, 0), Pass(q), Create(q), Record(q)];
  }

  /** A lock call on a device that a live process has locked fails and changes nothing. */
  lemma LockedIsRefused(s: State, d: Device, p: Pid)
    requires p in s.at && s.at[p] == Outside && d in s.files && s.files[d].Holds? && s.files[d].pid in s.at
    ensures var steps := [Judge(p, d, s.files[d].pid), Pass(p), Create(p)];
      Possible(s, steps) && OrderlyRun(s, steps) && Exec(s, steps) == s
  {
    var judge := Judge(p, d, s.files[d].pid);
    var s1 := Next(s, judge);
    var s2 := Next(s1, Pass(p));
    ExecCons(s2, Create(p), []);
    ExecCons(s1, Pass(p), [Create(p)]);
    ExecCons(s, judge, [Pass(p)] + [Create(p)]);
    assert [judge, Pass(p), Create(p)] == [judge] + ([Pass(p)] + [Create(p)]);
    assert Next(s2, Create(p)).at == s.at;
  }

  /** A call that gives up after its check changes nothing either. */
  lemma GivingUpChangesNothing(s: State, d: Device, p: Pid, seen: Pid)
    requires Enabled(s, Judge(p, d, seen))
    ensures Next(Next(s, Judge(p, d, seen)), Refuse(p)) == s
  {
    assert s.at[p := Judged(d, FindsStale(s, d, seen))][p := Outside] == s.at;
  }

  /** An unlock of somebody else's file is refused: no file goes. */
  lemma ForeignUnlockIsRefused(s: State, d: Device, p: Pid, kin: set<Pid>)
    requires p in s.at && s.at[p] == Outside && d in s.files && s.files[d].Holds?
    requires s.files[d].pid != p && s.files[d].pid !in kin
    ensures var step := Confirm(p, d, s.files[d].pid, kin);
      Enabled(s, step) && Orderly(s, step) && Next(s, step) == s.(holds := s.holds - {(p, d)})
  {
  }

  /** Of two calls that found the file stale, the one that comes second to the unlink gives
      up. */
  lemma SecondUnlinkGivesUp(s: State, d: Device, p: Pid, q: Pid)
    requires p != q && p in s.at && q in s.at && s.at[p] == s.at[q] == Judged(d, true) && d in s.files
    ensures var t := Next(Next(s, Remove(p)), Remove(q));
      t.at[p] == Cleared(d) && t.at[q] == Outside && t.files == s.files - {d} && t.holds == s.holds
  {
  }

  /** A pid that is written after the file has been unlinked reaches nobody, also when another
      file of that name has come. */
  lemma LatePidIsLost(s: State, p: Pid, d: Device)
    requires p in s.at && s.at[p] == Created(d) && (d !in s.files || s.files[d] != Empty(p))
    ensures var t := Next(s, Record(p));
      t.files == s.files && t.at[p] == Outside && (p, d) in t.holds
  {
  }

  /** The lock of a holder that crashes passes to the next process that asks. */
  lemma CrashedHolderIsReplaced(s: State, d: Device, p: Pid, q: Pid)
    requires LiveHolder(s, p, d) && d in s.files && s.files[d] == Holds(p) && Quiet(s, d)
    requires p != q && q in s.at && s.at[q] == Outside
    ensures var steps := [Crash(p)] + [Judge(q, d, p), Remove(q), Create(q), Record(q)];
      && Possible(s, steps)
      && OrderlyRun(s, steps)
      && LiveHolder(Exec(s, steps), q, d)
      && p !in Exec(s, steps).at
  {
    var t := Next(s, Crash(p));
    DeadLockIsReclaimed(t, d, q);
    var judge := Judge(q, d, p);
    TakeOver(Next(t, judge), d, q);
    ExecCons(t, judge, [Remove(q), Create(q), Record(q)]);
    assert [judge, Remove(q), Create(q), Record(q)] == [judge] + [Remove(q), Create(q), Record(q)];
    ExecCons(s, Crash(p), [judge, Remove(q), Create(q), Record(q)]);
  }

  /** A new process holds nothing, whoever had its pid before. */
  lemma NewProcessHoldsNothing(s: State, p: Pid, d: Device)
    requires Enabled(s, Spawn(p))
    ensures var t := Next(s, Spawn(p));
      p in t.at && t.at[p] == Outside && !LiveHolder(t, p, d) && t.files == s.files
    ensures forall q :: q != p ==> (LiveHolder(Next(s, Spawn(p)), q, d) <==> LiveHolder(s, q, d))
  {
  }

  // ---- Why the callers' order is needed -----------------------------------------

  ghost predicate TwoLiveHolders(s: State, p: Pid, q: Pid, d: Device) {
    p != q && LiveHolder(s, p, d) && LiveHolder(s, q, d)
  }

  /** Two stale checks of one dead lock that overlap: the later unlink removes the
      winner's fresh lock file, and both calls succeed. */
  lemma OverlappingChecksShareDevice(s: State, d: Device, p: Pid, q: Pid)
    requires d in s.files && s.files[d].Holds? && s.files[d].pid !in s.at
    requires p != q && p in s.at && q in s.at && s.at[p] == s.at[q] == Outside
    ensures var dead := s.files[d].pid;
      var steps := [Judge(p, d, dead), Judge(q, d, dead), Remove(p), Create(p), Record(p),
                    Remove(q), Create(q), Record(q)];
      && Possible(s, steps)
      && TwoLiveHolders(Exec(s, steps), p, q, d)
      && !OrderlyRun(s, steps)
  {
    var first, second := Judge(p, d, s.files[d].pid), Judge(q, d, s.files[d].pid);
    var s1 := Next(s, first);
    var s2 := Next(s1, second);
    TakeOver(s2, d, p);
    var won := [Remove(p), Create(p), Record(p)];
    TakeOver(Exec(s2, won), d, q);
    var again := [Remove(q), Create(q), Record(q)];
    ExecConcat(s2, won, again);
    ExecCons(s1, second, won + again);
    ExecCons(s, first, [second] + (won + again));
    assert s1.at[p] == Judged(d, true);
    assert [first, second, Remove(p), Create(p), Record(p), Remove(q), Create(q), Record(q)]
        == [first] + ([second] + (won + again));
  }

  /** A check that falls between another call's exclusive create and its pid write reads
      no pid; when the leftover buffer names a dead process, both calls succeed. */
  lemma UnwrittenPidSharesDevice(s: State, d: Device, p: Pid, q: Pid, junk: Pid)
    requires d !in s.files && junk !in s.at
    requires p != q && p in s.at && q in s.at && s.at[p] == s.at[q] == Outside
    ensures var steps := [Judge(p, d, junk), Pass(p), Create(p), Judge(q, d, junk), Record(p),
                          Remove(q), Create(q), Record(q)];
      && Possible(s, steps)
      && TwoLiveHolders(Exec(s, steps), p, q, d)
      && !OrderlyRun(s, steps)
  {
    var begun := [Judge(p, d, junk), Pass(p), Create(p)];
    FreshFile(s, d, p, junk);
    var s3 := Exec(s, begun);
    assert s3.at[p] == Created(d);
    var s4 := Next(s3, Judge(q, d, junk));
    var s5 := Next(s4, Record(p));
    TakeOver(s5, d, q);
    var again := [Remove(q), Create(q), Record(q)];
    ExecCons(s4, Record(p), again);
    ExecCons(s3, Judge(q, d, junk), [Record(p)] + again);
    var rest := [Judge(q, d, junk)] + ([Record(p)] + again);
    ExecConcat(s, begun, rest);
    assert [Judge(p, d, junk), Pass(p), Create(p), Judge(q, d, junk), Record(p),
            Remove(q), Create(q), Record(q)] == begun + rest;
  }

  /** `check_lock_pid` also accepts the parent's pid: a child that does not hold the
      device can take its live parent's lock away and then lock the device itself. */
  lemma ChildUnlocksParent(s: State, d: Device, p: Pid, q: Pid)
    requires LiveHolder(s, p, d) && d in s.files && s.files[d] == Holds(p)
    requires p != q && q in s.at && s.at[q] == Outside
    ensures var steps := [Confirm(q, d, p, {p}), Release(q), Judge(q, d, 0), Pass(q), Create(q), Record(q)];
      && Possible(s, steps)
      && TwoLiveHolders(Exec(s, steps), p, q, d)
      && !OrderlyRun(s, steps)
  {
    var s1 := Next(s, Confirm(q, d, p, {p}));
    var s2 := Next(s1, Release(q));
    FreshFile(s2, d, q, 0);
    var begun := [Judge(q, d, 0), Pass(q), Create(q)];
    var s5 := Exec(s2, begun);
    ExecCons(s5, Record(q), []);
    ExecConcat(s2, begun, [Record(q)]);
    ExecCons(s1, Release(q), begun + [Record(q)]);
    ExecCons(s, Confirm(q, d, p, {p}), [Release(q)] + (begun + [Record(q)]));
    assert [Confirm(q, d, p, {p}), Release(q), Judge(q, d, 0), Pass(q), Create(q), Record(q)]
        == [Confirm(q, d, p, {p})] + ([Release(q)] + (begun + [Record(q)]));
  }

  // ---- The order is needed exactly ----------------------------------------------

  /** Some orderly run leads from one state to the other. */
  ghost predicate Leads(s: State, t: State) {
    exists steps :: Possible(s, steps) && OrderlyRun(s, steps) && Exec(s, steps) == t
  }

  /** Some orderly run ends with two live holders of one device. */
  ghost predicate Unsafe(s: State) {
    exists t, p, q, d :: Leads(s, t) && TwoLiveHolders(t, p, q, d)
  }

  lemma LeadsSelf(s: State)
    ensures Leads(s, s)
  {
    assert Possible(s, []) && OrderlyRun(s, []) && Exec(s, []) == s;
  }

  lemma LeadsRun(s: State, t: State, steps: seq<Step>)
    requires Leads(s, t) && Possible(t, steps) && OrderlyRun(t, steps)
    ensures Leads(s, Exec(t, steps))
  {
    var before :| Possible(s, before) && OrderlyRun(s, before) && Exec(s, before) == t;
    ExecConcat(s, before, steps);
  }

  lemma LeadsOn(s: State, t: State, step: Step)
    requires Leads(s, t) && Enabled(t, step) && Orderly(t, step)
    ensures Leads(s, Next(t, step))
  {
    ExecCons(t, step, []);
    LeadsRun(s, t, [step]);
  }

  /** After a file has gone, a process that is in no call locks the device. */
  lemma LockFresh(base: State, s: State, d: Device, p: Pid)
    requires Leads(base, s) && p in s.at && s.at[p] == Outside && d !in s.files
    ensures Leads(base, State(s.files[d := Holds(p)], s.at, s.holds + {(p, d)}))
  {
    FreshLock(s, d, p, 0);
    LeadsRun(base, s, [Judge(p, d, 0), Pass(p), Create(p), Record(p)]);
  }

  /** An unlock that has been accepted while another process holds the device frees it, and
      then both hold it. */
  lemma AcceptedThenShared(base: State, s: State, d: Device, p: Pid, q: Pid)
    requires Leads(base, s) && p in s.at && s.at[p] == Confirmed(d)
    requires p != q && LiveHolder(s, q, d)
    ensures Unsafe(base)
  {
    LeadsOn(base, s, Release(p));
    var t := Next(s, Release(p));
    LockFresh(base, t, d, p);
    assert TwoLiveHolders(State(t.files[d := Holds(p)], t.at, t.holds + {(p, d)}), p, q, d);
  }

  /** A check that found the file stale runs on to a hold while another process holds the
      device. */
  lemma JudgedThenShared(base: State, s: State, d: Device, p: Pid, q: Pid)
    requires Leads(base, s) && p in s.at && s.at[p] == Judged(d, true) && d in s.files
    requires p != q && LiveHolder(s, q, d)
    ensures Unsafe(base)
  {
    TakeOver(s, d, p);
    LeadsRun(base, s, [Remove(p), Create(p), Record(p)]);
    assert TwoLiveHolders(State(s.files[d := Holds(p)], s.at[p := Outside], s.holds + {(p, d)}), p, q, d);
  }

  /** A pid that no process has, different from a given one. */
  lemma UnusedPid(s: State, r: Pid) returns (u: Pid)
    ensures u !in s.at && u != r
  {
    u := r + 1;
    var left := s.at.Keys - {r};
    while u in s.at
      invariant u > r && left <= s.at.Keys && forall v :: v in s.at && v >= u && v != r ==> v in left
      decreases left
    {
      left := left - {u};
      u := u + 1;
    }
  }

  /** A check that overlaps another stale check or a pid write. */
  lemma OverlapIsUnsafe(s: State, p: Pid, d: Device, seen: Pid)
    requires Inv(s) && Enabled(s, Judge(p, d, seen)) && !Orderly(s, Judge(p, d, seen))
    ensures Unsafe(Next(s, Judge(p, d, seen)))
  {
    var q :| q in s.at && (s.at[q] == Judged(d, true) || s.at[q] == Created(d));
    var base := Next(s, Judge(p, d, seen));
    LeadsSelf(base);
    assert PointOk(s, q);
    if s.at[q] == Judged(d, true) {
      TakeOver(base, d, q);
      LeadsRun(base, base, [Remove(q), Create(q), Record(q)]);
      JudgedThenShared(base, Exec(base, [Remove(q), Create(q), Record(q)]), d, p, q);
    } else {
      LeadsOn(base, base, Record(q));
      JudgedThenShared(base, Next(base, Record(q)), d, p, q);
    }
  }

  /** While an unlock of another's file is under way, somebody can come to hold the device. */
  lemma SomebodyElseHolds(base: State, s: State, d: Device, p: Pid)
    requires Leads(base, s) && p in s.at && s.at[p] == Confirmed(d) && d in s.files
    requires s.files[d].Holds? ==> s.files[d].pid !in s.at
    requires forall q :: q in s.at && s.at[q] == Created(d) ==> s.files[d] == Empty(q)
    ensures Unsafe(base)
  {
    if q :| q in s.at && s.at[q] == Judged(d, true) {
      TakeOver(s, d, q);
      LeadsRun(base, s, [Remove(q), Create(q), Record(q)]);
      AcceptedThenShared(base, Exec(s, [Remove(q), Create(q), Record(q)]), d, p, q);
    } else if q :| q in s.at && s.at[q] == Created(d) {
      LeadsOn(base, s, Record(q));
      AcceptedThenShared(base, Next(s, Record(q)), d, p, q);
    } else {
      var dead := if s.files[d].Holds? then s.files[d].pid else 0;
      var u := UnusedPid(s, dead);
      NewcomerTakesOver(base, s, d, p, u);
    }
  }

  lemma NewcomerTakesOver(base: State, s: State, d: Device, p: Pid, u: Pid)
    requires Leads(base, s) && p in s.at && s.at[p] == Confirmed(d) && d in s.files && Quiet(s, d)
    requires u !in s.at && (s.files[d].Holds? ==> s.files[d].pid !in s.at && s.files[d].pid != u)
    ensures Unsafe(base)
  {
    LeadsOn(base, s, Spawn(u));
    var s1 := Next(s, Spawn(u));
    var seen := UnusedPid(s1, u);
    if s.files[d].Holds? {
      seen := s.files[d].pid;
    }
    LeadsOn(base, s1, Judge(u, d, seen));
    var s2 := Next(s1, Judge(u, d, seen));
    TakeOver(s2, d, u);
    LeadsRun(base, s2, [Remove(u), Create(u), Record(u)]);
    AcceptedThenShared(base, Exec(s2, [Remove(u), Create(u), Record(u)]), d, p, u);
  }

  /** An accepted unlock of another's file, or of a file that is about to be unlinked. */
  lemma WrongUnlockIsUnsafe(s: State, p: Pid, d: Device, seen: Pid, kin: set<Pid>)
    requires Inv(s) && Enabled(s, Confirm(p, d, seen, kin)) && !Orderly(s, Confirm(p, d, seen, kin))
    ensures Unsafe(Next(s, Confirm(p, d, seen, kin)))
  {
    var base := Next(s, Confirm(p, d, seen, kin));
    LeadsSelf(base);
    forall q | q in s.at
      ensures s.at[q] == Created(d) ==> s.files[d] == Empty(q)
    {
      assert PointOk(s, q);
    }
    if s.files[d] == Holds(p) {
      var q :| q in s.at && s.at[q] == Judged(d, true);
      TakeOver(base, d, q);
      LeadsRun(base, base, [Remove(q), Create(q), Record(q)]);
      AcceptedThenShared(base, Exec(base, [Remove(q), Create(q), Record(q)]), d, p, q);
    } else if s.files[d].Holds? && s.files[d].pid in s.at {
      LeadsOn(base, base, Crash(s.files[d].pid));
      SomebodyElseHolds(base, Next(base, Crash(s.files[d].pid)), d, p);
    } else {
      SomebodyElseHolds(base, base, d, p);
    }
  }

  lemma InvIsSafe(s: State)
    requires Inv(s)
    ensures !Unsafe(s)
  {
    forall t, p, q, d | Leads(s, t)
      ensures !TwoLiveHolders(t, p, q, d)
    {
      var steps :| Possible(s, steps) && OrderlyRun(s, steps) && Exec(s, steps) == t;
      RunKeepsInv(s, steps);
    }
  }

  /** The order is exact: in every state that orderly runs reach, a step is orderly if and
      only if no orderly run after it ends with two live holders of one device. */
  lemma SafeIffOrderly(s: State, step: Step)
    requires Inv(s) && Enabled(s, step)
    ensures Orderly(s, step) <==> !Unsafe(Next(s, step))
  {
    if Orderly(s, step) {
      StepKeepsInv(s, step);
      InvIsSafe(Next(s, step));
    } else {
      match step
      case Judge(p, d, seen) => OverlapIsUnsafe(s, p, d, seen);
      case Confirm(p, d, seen, kin) => WrongUnlockIsUnsafe(s, p, d, seen, kin);
    }
  }

  /** At no moment of the run can its orderly continuation end with two live holders. */
  ghost predicate AlwaysSafe(s: State, steps: seq<Step>)
    requires Possible(s, steps)
    decreases |steps|
  {
    !Unsafe(s) && (steps == [] || AlwaysSafe(Next(s, steps[0]), steps[1..]))
  }

  /** For every run of any processes: it is orderly if and only if it is safe throughout. */
  lemma {:induction false} RunSafeIffOrderly(s: State, steps: seq<Step>)
    requires Inv(s) && Possible(s, steps)
    ensures OrderlyRun(s, steps) <==> AlwaysSafe(s, steps)
    decreases |steps|
  {
    InvIsSafe(s);
    if steps != [] {
      SafeIffOrderly(s, steps[0]);
      if Orderly(s, steps[0]) {
        StepKeepsInv(s, steps[0]);
        RunSafeIffOrderly(Next(s, steps[0]), steps[1..]);
      } else {
        assert Unsafe(Next(s, steps[0]));
      }
    }
  }
}
