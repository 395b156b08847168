/**
  Ownership of one `CommPortIdentifier` (gnu-io/src/main/java/gnu/io/CommPortIdentifier.java)
  shared by any number of threads.  Each `synchronized` block is one step, and so is
  every unsynchronized access to `commport`: `open` claims the port, waits for it,
  asks the driver and returns or gives the port back; `close` first looks the identifier
  up by its CommPort and only later releases it.
 */
module PortOwnership {
  import opened Options

  type Thread = nat
  type Port = nat

  /** How far a thread is in `open`; `Holding` lasts until its port is released. */
  datatype Point =
    | Away
    | Denied(name: string)
    | Claimed(name: string)
    | Asking(name: string)
    | Served(name: string)
    | Failing(name: string)
    | Holding(name: string, port: Port)

  /** The three fields of the identifier, the threads in `open`, the closers that have
      found the identifier, and the CommPorts handed out so far. */
  datatype State = State(
    available: bool, owner: Option<string>, commport: Option<Port>,
    at: map<Thread, Point>, closing: map<Thread, Port>, handed: set<Port>)

  datatype Step =
    | Claim(t: Thread, name: string)
    | Await(t: Thread)
    | Look(t: Thread)
    | Drive(t: Thread, answer: Option<Port>)
    | Return(t: Thread)
    | Unown(t: Thread)
    | Find(c: Thread, p: Port)
    | Release(c: Thread)

  function At(s: State, t: Thread): Point {
    if t in s.at then s.at[t] else Away
  }

  function Free(s: State): State {
    s.(available := true, owner := None, commport := None)
  }

  function Take(s: State, t: Thread, name: string): State {
    s.(available := false, owner := Some(name), at := s.at[t := Claimed(name)])
  }

  predicate Enabled(s: State, step: Step) {
    match step
    case Claim(t, _) => At(s, t).Away?
    case Await(t) => At(s, t).Denied?
    case Look(t) => At(s, t).Claimed?
    case Drive(t, _) => At(s, t).Asking?
    case Return(t) => At(s, t).Served?
    case Unown(t) => At(s, t).Failing?
    case Find(c, p) => c !in s.closing && p in s.handed
    case Release(c) => c in s.closing
  }

  function Next(s: State, step: Step): State
    requires Enabled(s, step)
  {
    match step
    case Claim(t, name) =>
      if s.available then Take(s, t, name) else s.(at := s.at[t := Denied(name)])
    case Await(t) =>
      // leaves the wait loop: the port came free, or time ran out and open throws
      if s.available then Take(s, t, At(s, t).name) else s.(at := s.at[t := Away])
    case Look(t) =>
      var n := At(s, t).name;
      s.(at := s.at[t := if s.commport.None? then Asking(n) else Served(n)])
    case Drive(t, answer) =>
      var n := At(s, t).name;
      if answer.Some? then
        s.(commport := answer, at := s.at[t := Served(n)])
      else
        // null or an exception
        s.(at := s.at[t := Failing(n)])
    case Return(t) =>
      var n := At(s, t).name;
      if s.commport.Some? then
        s.(at := s.at[t := Holding(n, s.commport.value)], handed := s.handed + {s.commport.value})
      else
        s.(at := s.at[t := Failing(n)])
    case Unown(t) =>
      // the finally block leaves commport alone; it was null when tested
      s.(available := true, owner := None, at := s.at[t := Away])
    case Find(c, p) =>
      if s.commport == Some(p) then s.(closing := s.closing[c := p]) else s
    case Release(c) =>
      var p := s.closing[c];
      Free(s).(closing := s.closing - {c},
               at := map t | t in s.at :: if s.at[t].Holding? && s.at[t].port == p then Away else s.at[t])
  }

  /** What the surroundings have to provide: the driver answers with no CommPort that was
      handed out before, and nobody closes a CommPort that is already being closed. */
  ghost predicate Orderly(s: State, step: Step) {
    match step
    case Drive(_, answer) => answer.Some? ==> answer.value !in s.handed
    case Find(_, p) => forall c :: c in s.closing ==> s.closing[c] != p
    case _ => true
  }

  ghost predicate Possible(s: State, steps: seq<Step>)
    decreases |steps|
  {
    steps == [] || (Enabled(s, steps[0]) && Possible(Next(s, steps[0]), steps[1..]))
  }

  ghost predicate OrderlyRun(s: State, steps: seq<Step>)
    requires Possible(s, steps)
    decreases |steps|
  {
    steps == [] || (Orderly(s, steps[0]) && OrderlyRun(Next(s, steps[0]), steps[1..]))
  }

  ghost function Exec(s: State, steps: seq<Step>): State
    requires Possible(s, steps)
    decreases |steps|
  {
    if steps == [] then s else Exec(Next(s, steps[0]), steps[1..])
  }

  /** A new identifier: available, unowned, no CommPort. */
  function Start(): State {
    State(true, None, None, map[], map[], {})
  }

  /** The thread is between its claim and the release of that claim. */
  ghost predicate Owning(s: State, t: Thread) {
    !At(s, t).Away? && !At(s, t).Denied?
  }

  /** The identifier's fields agree with the point an owning thread has reached. */
  ghost predicate OwnerOk(s: State, t: Thread)
    requires Owning(s, t)
  {
    && !s.available
    && s.owner == Some(At(s, t).name)
    && match At(s, t)
       case Served(_) => s.commport.Some? && s.commport.value !in s.handed
       case Holding(_, p) => s.commport == Some(p)
       case _ => s.commport.None?
  }

  ghost predicate Inv(s: State) {
    && (s.available ==> s.owner.None? && s.commport.None?)
    && (s.available <==> forall t :: !Owning(s, t))
    && (forall t :: Owning(s, t) ==> OwnerOk(s, t))
    && (forall t, u :: Owning(s, t) && Owning(s, u) ==> t == u)
    && (forall c :: c in s.closing ==> s.commport == Some(s.closing[c]) && s.closing[c] in s.handed)
    && (forall c, e :: c in s.closing && e in s.closing ==> c == e)
  }

  lemma StepKeepsInv(s: State, step: Step)
    requires Inv(s) && Enabled(s, step) && Orderly(s, step)
    ensures Inv(Next(s, step))
  {
    match step
    case Claim(t, _) => EntryKeepsInv(s, step, t);
    case Await(t) => EntryKeepsInv(s, step, t);
    case Find(c, p) =>
      var n := Next(s, step);
      assert forall t :: Owning(n, t) <==> Owning(s, t);
      assert forall t :: Owning(s, t) ==> OwnerOk(s, t);
    case Release(c) => ReleaseKeepsInv(s, c);
    case _ => OwnerStepKeepsInv(s, step, step.t);
  }

  /** The two synchronized blocks that may claim the port. */
  lemma EntryKeepsInv(s: State, step: Step, t: Thread)
    requires Inv(s) && Enabled(s, step) && (step.Claim? || step.Await?) && step.t == t
    ensures Inv(Next(s, step))
  {
    var n := Next(s, step);
    assert forall u :: u != t ==> (Owning(n, u) <==> Owning(s, u));
    if s.available {
      assert Owning(n, t);
    } else {
      var u :| Owning(s, u);
      assert Owning(n, u);
      assert forall v :: Owning(n, v) ==> OwnerOk(s, v);
    }
  }

  /** What the owner does between its claim and its return. */
  lemma OwnerStepKeepsInv(s: State, step: Step, t: Thread)
    requires Inv(s) && Enabled(s, step) && Orderly(s, step)
    requires (step.Look? || step.Drive? || step.Return? || step.Unown?) && step.t == t
    ensures Inv(Next(s, step))
  {
    var n := Next(s, step);
    assert Owning(s, t) && OwnerOk(s, t);
    forall u | u != t
      ensures !Owning(n, u)
    {
      assert !Owning(s, u);
    }
    assert Owning(n, t) <==> !step.Unown?;
  }

  lemma ReleaseKeepsInv(s: State, c: Thread)
    requires Inv(s) && c in s.closing
    ensures Inv(Next(s, Release(c)))
  {
    var n := Next(s, Release(c));
    forall t
      ensures !Owning(n, t)
    {
      assert Owning(s, t) ==> OwnerOk(s, t);
    }
  }

  lemma {:induction false} RunKeepsInv(s: State, steps: seq<Step>)
    requires Inv(s) && Possible(s, steps) && OrderlyRun(s, steps)
    ensures Inv(Exec(s, steps))
    decreases |steps|
  {
    if steps != [] {
      StepKeepsInv(s, steps[0]);
      RunKeepsInv(Next(s, steps[0]), steps[1..]);
    }
  }

  /** Over every orderly run of any threads: at most one of them is between claim and
      release, a port that is marked available has no owner and no CommPort, and a port
      that is not available does have an owning thread. */
  lemma OneOwner(steps: seq<Step>)
    requires Possible(Start(), steps) && OrderlyRun(Start(), steps)
    ensures var s := Exec(Start(), steps);
      && (forall t, u :: Owning(s, t) && Owning(s, u) ==> t == u)
      && (s.available ==> s.owner.None? && s.commport.None?)
      && (s.available <==> !exists t :: Owning(s, t))
      && (forall t :: At(s, t).Holding? ==> s.owner == Some(At(s, t).name) && s.commport == Some(At(s, t).port))
  {
    RunKeepsInv(Start(), steps);
    var s := Exec(Start(), steps);
    forall t | At(s, t).Holding?
      ensures s.owner == Some(At(s, t).name) && s.commport == Some(At(s, t).port)
    {
      assert Owning(s, t) && OwnerOk(s, t);
    }
  }

  /** After a driver call that fails, giving the port back restores the free state and
      leaves every other thread where it was. */
  lemma FailureFreesPort(steps: seq<Step>, t: Thread)
    requires Possible(Start(), steps) && OrderlyRun(Start(), steps)
    requires At(Exec(Start(), steps), t).Failing?
    ensures var s := Exec(Start(), steps);
      var n := Next(s, Unown(t));
      && n == Free(s).(at := s.at[t := Away])
      && !exists u :: Owning(n, u)
  {
    RunKeepsInv(Start(), steps);
    var s := Exec(Start(), steps);
    assert Owning(s, t) && OwnerOk(s, t);
    StepKeepsInv(s, Unown(t));
  }

  /** Closing a CommPort acts on its own session only: a port that is not the current one
      finds nothing, and a release that happens ends exactly the session holding it. */
  lemma CloseEndsOwnSession(steps: seq<Step>, c: Thread, p: Port)
    requires Possible(Start(), steps) && OrderlyRun(Start(), steps)
    ensures var s := Exec(Start(), steps);
      && (p in s.handed && c !in s.closing && s.commport != Some(p) ==> Next(s, Find(c, p)) == s)
      && (c in s.closing && s.closing[c] == p ==>
            exists t :: && At(s, t).Holding? && At(s, t).port == p
                        && At(Next(s, Release(c)), t) == Away
                        && forall u :: u != t ==> At(Next(s, Release(c)), u) == At(s, u))
  {
    RunKeepsInv(Start(), steps);
    var s := Exec(Start(), steps);
    if c in s.closing && s.closing[c] == p {
      var t :| Owning(s, t);
      assert OwnerOk(s, t);
      forall u | u != t
        ensures At(Next(s, Release(c)), u) == At(s, u)
      {
        assert !Owning(s, u);
      }
    }
  }

  /** Why one thread at a time may close a CommPort: when two closers have both found it,
      the slower one releases whoever claimed the port in between, and a third thread can
      then claim it as well. */
  lemma DoubleCloseFreesNextOwner(s: State, t: Thread, p: Port, c: Thread, e: Thread,
                                  u: Thread, v: Thread, name: string)
    requires s.commport == Some(p) && p in s.handed && At(s, t).Holding? && At(s, t).port == p
    requires c != e && c !in s.closing && e !in s.closing
    requires u != v && At(s, u).Away? && At(s, v).Away?
    ensures var steps := [Find(c, p), Find(e, p), Release(c), Claim(u, name), Release(e), Claim(v, name)];
      && Possible(s, steps)
      && Owning(Exec(s, steps), u) && Owning(Exec(s, steps), v)
      && !Orderly(Next(s, Find(c, p)), Find(e, p))
  {
    var s1 := Next(s, Find(c, p));
    var s2 := Next(s1, Find(e, p));
    var s3 := Next(s2, Release(c));
    var s4 := Next(s3, Claim(u, name));
    var s5 := Next(s4, Release(e));
    assert At(s3, u).Away? && At(s4, v).Away? && At(s5, u) == Claimed(name);
    ExecCons(s5, Claim(v, name), []);
    var r4 := [Claim(v, name)];
    ExecCons(s4, Release(e), r4);
    var r3 := [Release(e)] + r4;
    ExecCons(s3, Claim(u, name), r3);
    var r2 := [Claim(u, name)] + r3;
    ExecCons(s2, Release(c), r2);
    var r1 := [Release(c)] + r2;
    ExecCons(s1, Find(e, p), r1);
    ExecCons(s, Find(c, p), [Find(e, p)] + r1);
    assert [Find(c, p), Find(e, p), Release(c), Claim(u, name), Release(e), Claim(v, name)]
        == [Find(c, p)] + ([Find(e, p)] + r1);
  }

  /** Unfolds a run by one step. */
  lemma ExecCons(s: State, step: Step, rest: seq<Step>)
    requires Enabled(s, step) && Possible(Next(s, step), rest)
    ensures Possible(s, [step] + rest)
    ensures Exec(s, [step] + rest) == Exec(Next(s, step), rest)
    ensures OrderlyRun(s, [step] + rest) <==> Orderly(s, step) && OrderlyRun(Next(s, step), rest)
  {
    assert ([step] + rest)[1..] == rest;
  }

  // ---- What whole calls do ----------------------------------------------------------

  ghost predicate IsFree(s: State) {
    s.available && s.owner.None? && s.commport.None?
  }

  /** An open of a free port whose driver makes a CommPort ends as its recorded owner. */
  lemma OpenGivesPort(s: State, t: Thread, name: string, p: Port)
    requires IsFree(s) && At(s, t).Away?
    ensures var steps := [Claim(t, name), Look(t), Drive(t, Some(p)), Return(t)];
      && Possible(s, steps)
      && Exec(s, steps) == State(false, Some(name), Some(p), s.at[t := Holding(name, p)], s.closing, s.handed + {p})
  {
    var s1 := Next(s, Claim(t, name));
    var s2 := Next(s1, Look(t));
    var s3 := Next(s2, Drive(t, Some(p)));
    ExecCons(s3, Return(t), []);
    ExecCons(s2, Drive(t, Some(p)), [Return(t)]);
    ExecCons(s1, Look(t), [Drive(t, Some(p))] + [Return(t)]);
    ExecCons(s, Claim(t, name), [Look(t)] + ([Drive(t, Some(p))] + [Return(t)]));
    assert [Claim(t, name), Look(t), Drive(t, Some(p)), Return(t)]
        == [Claim(t, name)] + ([Look(t)] + ([Drive(t, Some(p))] + [Return(t)]));
    assert Next(s3, Return(t)).at == s.at[t := Holding(name, p)];
  }

  /** An open whose driver fails leaves the port as free as it was. */
  lemma FailedOpenLeavesNothing(s: State, t: Thread, name: string)
    requires IsFree(s) && At(s, t).Away?
    ensures var steps := [Claim(t, name), Look(t), Drive(t, None), Unown(t)];
      && Possible(s, steps)
      && Exec(s, steps) == s.(at := s.at[t := Away])
  {
    var s1 := Next(s, Claim(t, name));
    var s2 := Next(s1, Look(t));
    var s3 := Next(s2, Drive(t, None));
    ExecCons(s3, Unown(t), []);
    ExecCons(s2, Drive(t, None), [Unown(t)]);
    ExecCons(s1, Look(t), [Drive(t, None)] + [Unown(t)]);
    ExecCons(s, Claim(t, name), [Look(t)] + ([Drive(t, None)] + [Unown(t)]));
    assert [Claim(t, name), Look(t), Drive(t, None), Unown(t)]
        == [Claim(t, name)] + ([Look(t)] + ([Drive(t, None)] + [Unown(t)]));
    assert Next(s3, Unown(t)).at == s.at[t := Away];
  }

  /** A thread that finds the port in use waits, and the port stays the owner's. */
  lemma InUseIsDenied(s: State, t: Thread, name: string)
    requires !s.available && At(s, t).Away?
    ensures Next(s, Claim(t, name)) == s.(at := s.at[t := Denied(name)])
  {
  }

  /** A waiter gets the port if it has come free, as its recorded owner, and gives up if not. */
  lemma WaiterGetsFreePort(s: State, t: Thread)
    requires At(s, t).Denied?
    ensures var n := Next(s, Await(t));
      var name := At(s, t).name;
      && (s.available ==> !n.available && n.owner == Some(name) && At(n, t) == Claimed(name))
      && (!s.available ==> n == s.(at := s.at[t := Away]))
  {
  }

  /** From one owner to the next: the owner's CommPort is closed, the waiter claims the port
      under its own name. */
  lemma CloseLetsWaiterIn(s: State, t: Thread, u: Thread, c: Thread, p: Port)
    requires At(s, t).Holding? && At(s, t).port == p && s.commport == Some(p) && p in s.handed
    requires At(s, u).Denied? && c !in s.closing
    ensures var steps := [Find(c, p), Release(c), Await(u)];
      && Possible(s, steps)
      && (var n := Exec(s, steps);
          At(n, t).Away? && At(n, u) == Claimed(At(s, u).name) && n.owner == Some(At(s, u).name) && n.commport.None?)
  {
    var s1 := Next(s, Find(c, p));
    var s2 := Next(s1, Release(c));
    ExecCons(s2, Await(u), []);
    ExecCons(s1, Release(c), [Await(u)]);
    ExecCons(s, Find(c, p), [Release(c)] + [Await(u)]);
    assert [Find(c, p), Release(c), Await(u)] == [Find(c, p)] + ([Release(c)] + [Await(u)]);
  }

  // ---- The conditions are exact ---------------------------------------------------

  /** Some orderly run leads from one state to the other. */
  ghost predicate Leads(s: State, t: State) {
    exists steps :: Possible(s, steps) && OrderlyRun(s, steps) && Exec(s, steps) == t
  }

  ghost predicate TwoOwners(s: State, t: Thread, u: Thread) {
    t != u && Owning(s, t) && Owning(s, u)
  }

  /** Some orderly run ends with two threads between claim and release. */
  ghost predicate Unsafe(s: State) {
    exists n, t, u :: Leads(s, n) && TwoOwners(n, t, u)
  }

  lemma LeadsSelf(s: State)
    ensures Leads(s, s)
  {
    assert Possible(s, []) && OrderlyRun(s, []) && Exec(s, []) == s;
  }

  lemma {:induction false} ExecSnoc(s: State, steps: seq<Step>, step: Step)
    requires Possible(s, steps) && OrderlyRun(s, steps)
    requires Enabled(Exec(s, steps), step) && Orderly(Exec(s, steps), step)
    ensures Possible(s, steps + [step]) && OrderlyRun(s, steps + [step])
    ensures Exec(s, steps + [step]) == Next(Exec(s, steps), step)
    decreases |steps|
  {
    if steps == [] {
      ExecCons(s, step, []);
      assert [] + [step] == [step] + [];
    } else {
      ExecSnoc(Next(s, steps[0]), steps[1..], step);
      assert (steps + [step])[1..] == steps[1..] + [step];
    }
  }

  lemma LeadsOn(s: State, n: State, step: Step)
    requires Leads(s, n) && Enabled(n, step) && Orderly(n, step)
    ensures Leads(s, Next(n, step))
  {
    var steps :| Possible(s, steps) && OrderlyRun(s, steps) && Exec(s, steps) == n;
    ExecSnoc(s, steps, step);
  }

  /** A number that is not in use. */
  lemma Unused(used: set<Thread>) returns (t: Thread)
    ensures t !in used
  {
    t := 0;
    var left := used;
    while t in used
      invariant left <= used && forall v :: v in used && v >= t ==> v in left
      decreases left
    {
      left := left - {t};
      t := t + 1;
    }
  }

  /** A release while a thread owns the port without holding a CommPort, and the port is free
      for the next one. */
  lemma StrayRelease(base: State, s: State, c: Thread, t: Thread)
    requires Leads(base, s) && c in s.closing && Owning(s, t) && !At(s, t).Holding?
    ensures Unsafe(base)
  {
    LeadsOn(base, s, Release(c));
    var n := Next(s, Release(c));
    var u := Unused(n.at.Keys);
    LeadsOn(base, n, Claim(u, ""));
    assert TwoOwners(Next(n, Claim(u, "")), t, u);
  }

  lemma SecondCloserIsUnsafe(s: State, c: Thread, p: Port)
    requires Inv(s) && Enabled(s, Find(c, p)) && !Orderly(s, Find(c, p))
    ensures Unsafe(Next(s, Find(c, p)))
  {
    var e :| e in s.closing && s.closing[e] == p;
    var base := Next(s, Find(c, p));
    LeadsSelf(base);
    LeadsOn(base, base, Release(e));
    var n := Next(base, Release(e));
    var u := Unused(n.at.Keys);
    LeadsOn(base, n, Claim(u, ""));
    StrayRelease(base, Next(n, Claim(u, "")), c, u);
  }

  /** A CommPort that was handed out before can be closed by its former owner while the new
      one is still in `open`. */
  lemma ReusedPortIsUnsafe(s: State, t: Thread, answer: Option<Port>)
    requires Inv(s) && Enabled(s, Drive(t, answer)) && !Orderly(s, Drive(t, answer))
    ensures Unsafe(Next(s, Drive(t, answer)))
  {
    var base := Next(s, Drive(t, answer));
    assert Owning(s, t) && OwnerOk(s, t);
    assert s.closing.Keys == {};
    LeadsSelf(base);
    LeadsOn(base, base, Find(0, answer.value));
    StrayRelease(base, Next(base, Find(0, answer.value)), 0, t);
  }

  lemma InvIsSafe(s: State)
    requires Inv(s)
    ensures !Unsafe(s)
  {
    forall n, t, u | Leads(s, n)
      ensures !TwoOwners(n, t, u)
    {
      var steps :| Possible(s, steps) && OrderlyRun(s, steps) && Exec(s, steps) == n;
      RunKeepsInv(s, steps);
    }
  }

  /** A step meets the conditions if and only if no orderly run after it ends with two
      owners. */
  lemma SafeIffOrderly(s: State, step: Step)
    requires Inv(s) && Enabled(s, step)
    ensures Orderly(s, step) <==> !Unsafe(Next(s, step))
  {
    if Orderly(s, step) {
      StepKeepsInv(s, step);
      InvIsSafe(Next(s, step));
    } else {
      match step
      case Find(c, p) => SecondCloserIsUnsafe(s, c, p);
      case Drive(t, answer) => ReusedPortIsUnsafe(s, t, answer);
    }
  }

  /** At no moment of the run can its orderly continuation end with two owners. */
  ghost predicate AlwaysSafe(s: State, steps: seq<Step>)
    requires Possible(s, steps)
    decreases |steps|
  {
    !Unsafe(s) && (steps == [] || AlwaysSafe(Next(s, steps[0]), steps[1..]))
  }

  /** For every run of any threads: it is orderly if and only if it is safe throughout. */
  lemma {:induction false} RunSafeIffOrderly(s: State, steps: seq<Step>)
    requires Inv(s) && Possible(s, steps)
    ensures OrderlyRun(s, steps) <==> AlwaysSafe(s, steps)
    decreases |steps|
  {
    InvIsSafe(s);
    if steps != [] {
      SafeIffOrderly(s, steps[0]);
      if Orderly(s, steps[0]) {
        StepKeepsInv(s, steps[0]);
        RunSafeIffOrderly(Next(s, steps[0]), steps[1..]);
      } else {
        assert Unsafe(Next(s, steps[0]));
      }
    }
  }
}
