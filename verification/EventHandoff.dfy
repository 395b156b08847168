/**
  The hand-off of communication events on Windows CE between the event thread
  (`CommEventThread`, native/src/WinCE/rxtxHelpers.cpp) and the event loop
  (`eventLoop`, native/src/WinCE/gnu_io_RXTXPort.cpp): one shared mask, one auto-reset
  event object, and an event thread that spins until the loop has cleared the mask.
  Every load, store and system call is a step of its own.
 */
module EventHandoff {

  type Mask = nat

  /** The event thread: in WaitCommEvent, mask stored, signal set and spinning. */
  datatype Producer = Waiting | Stored | Spinning

  /** The event loop: waiting for the signal, signal taken, mask copied, mask cleared. */
  datatype Consumer = Idle | Woken | Copied(mask: Mask) | Cleared(mask: Mask)

  datatype State = State(
    event: Mask, signal: bool, producer: Producer, consumer: Consumer,
    produced: seq<Mask>, dispatched: seq<Mask>)

  datatype Step =
    | CommEvent(mask: Mask)
    | SetSignal
    | Spin
    | TakeSignal
    | CopyMask
    | ClearMask
    | Dispatch

  predicate Enabled(s: State, step: Step) {
    match step
    case CommEvent(_) => s.producer.Waiting?
    case SetSignal => s.producer.Stored?
    case Spin => s.producer.Spinning?
    case TakeSignal => s.consumer.Idle? && s.signal
    case CopyMask => s.consumer.Woken?
    case ClearMask => s.consumer.Copied?
    case Dispatch => s.consumer.Cleared?
  }

  function Next(s: State, step: Step): State
    requires Enabled(s, step)
  {
    match step
    case CommEvent(m) => s.(event := m, producer := Stored, produced := s.produced + [m])
    case SetSignal => s.(signal := true, producer := Spinning)
    case Spin => if s.event == 0 then s.(producer := Waiting) else s
    case TakeSignal => s.(signal := false, consumer := Woken)
    case CopyMask => s.(consumer := Copied(s.event))
    case ClearMask => s.(event := 0, consumer := Cleared(s.consumer.mask))
    case Dispatch => s.(dispatched := s.dispatched + [s.consumer.mask], consumer := Idle)
  }

  function Start(): State {
    State(0, false, Waiting, Idle, [], [])
  }

  ghost predicate Possible(s: State, steps: seq<Step>)
    decreases |steps|
  {
    steps == [] || (Enabled(s, steps[0]) && Possible(Next(s, steps[0]), steps[1..]))
  }

  ghost function Exec(s: State, steps: seq<Step>): State
    requires Possible(s, steps)
    decreases |steps|
  {
    if steps == [] then s else Exec(Next(s, steps[0]), steps[1..])
  }

  /** The mask the event loop has copied but not dispatched yet. */
  ghost function Carried(s: State): seq<Mask> {
    match s.consumer
    case Copied(m) => [m]
    case Cleared(m) => [m]
    case _ => []
  }

  /** The mask the event thread has stored and the loop has not copied yet. */
  ghost function Parked(s: State): seq<Mask> {
    if s.event != 0 && !s.consumer.Copied? then [s.event] else []
  }

  ghost predicate Inv(s: State) {
    && s.produced == s.dispatched + Carried(s) + Parked(s)
    && (s.producer.Waiting? ==> s.event == 0 && !s.signal)
    && (s.producer.Stored? ==> s.event != 0 && !s.signal && !s.consumer.Woken? && !s.consumer.Copied?)
    && (s.producer.Spinning? && s.event != 0 ==> s.signal != (s.consumer.Woken? || s.consumer.Copied?))
    && (s.signal ==> s.event != 0)
    && (s.consumer.Woken? ==> s.event != 0)
    && (s.consumer.Copied? ==> s.event == s.consumer.mask != 0)
  }

  lemma StepKeepsInv(s: State, step: Step)
    requires Inv(s) && Enabled(s, step) && (step.CommEvent? ==> step.mask != 0)
    ensures Inv(Next(s, step))
  {
    var t := Next(s, step);
    match step
    case CommEvent(m) =>
      assert s.produced + [m] == t.dispatched + Carried(t) + Parked(t);
    case CopyMask =>
      assert s.dispatched + Carried(s) + Parked(s) == t.dispatched + Carried(t) + Parked(t);
    case Dispatch =>
      assert s.dispatched + Carried(s) == t.dispatched + Carried(t);
    case _ =>
  }

  // ---------- Empty masks ----------

  /** Some interleaving leads from one state to the other. */
  ghost predicate Reaches(s: State, t: State) {
    exists steps :: Possible(s, steps) && Exec(s, steps) == t
  }

  lemma {:induction false} ExecSnoc(s: State, steps: seq<Step>, step: Step)
    requires Possible(s, steps) && Enabled(Exec(s, steps), step)
    ensures Possible(s, steps + [step])
    ensures Exec(s, steps + [step]) == Next(Exec(s, steps), step)
    decreases |steps|
  {
    if steps == [] {
      assert ([] + [step])[1..] == [];
    } else {
      ExecSnoc(Next(s, steps[0]), steps[1..], step);
      assert (steps + [step])[1..] == steps[1..] + [step];
    }
  }

  lemma ReachSelf(s: State)
    ensures Reaches(s, s)
  {
    assert Possible(s, []) && Exec(s, []) == s;
  }

  lemma ReachOn(s: State, t: State, step: Step)
    requires Reaches(s, t) && Enabled(t, step)
    ensures Reaches(s, Next(t, step))
  {
    var steps :| Possible(s, steps) && Exec(s, steps) == t;
    ExecSnoc(s, steps, step);
  }

  /** Both threads wait and nothing is pending. */
  predicate Quiet(s: State) {
    s.producer.Waiting? && s.consumer.Idle? && !s.signal
  }

  /** The quiet state with more masks produced and dispatched. */
  function Later(s: State, produced: seq<Mask>, dispatched: seq<Mask>): State {
    s.(event := 0, produced := s.produced + produced, dispatched := s.dispatched + dispatched)
  }

  /** From any quiet state a mask can be handed over, an empty one too. */
  lemma HandOver(base: State, s: State, m: Mask)
    requires Reaches(base, s) && Quiet(s)
    ensures Reaches(base, Later(s, [m], [m]))
  {
    var s1 := Next(s, CommEvent(m));
    var s2 := Next(s1, SetSignal);
    var s3 := Next(s2, TakeSignal);
    var s4 := Next(s3, CopyMask);
    var s5 := Next(s4, ClearMask);
    var s6 := Next(s5, Spin);
    ReachOn(base, s, CommEvent(m));
    ReachOn(base, s1, SetSignal);
    ReachOn(base, s2, TakeSignal);
    ReachOn(base, s3, CopyMask);
    ReachOn(base, s4, ClearMask);
    ReachOn(base, s5, Spin);
    ReachOn(base, s6, Dispatch);
    assert Next(s6, Dispatch) == Later(s, [m], [m]);
  }

  lemma {:induction false} HandOverAll(base: State, s: State, ms: seq<Mask>)
    requires Reaches(base, s) && Quiet(s) && s.event == 0
    ensures Reaches(base, Later(s, ms, ms))
    decreases |ms|
  {
    if ms == [] {
      assert Later(s, [], []) == s;
    } else {
      HandOver(base, s, ms[0]);
      var t := Later(s, [ms[0]], [ms[0]]);
      HandOverAll(base, t, ms[1..]);
      assert [ms[0]] + ms[1..] == ms;
      assert Later(t, ms[1..], ms[1..]) == Later(s, ms, ms);
    }
  }

  /** From any quiet state an empty mask can be overtaken by the next one and lost. */
  lemma EmptyIsLost(base: State, s: State, m: Mask)
    requires Reaches(base, s) && Quiet(s)
    ensures Reaches(base, Later(s, [0, m], [m]))
  {
    var s1 := Next(s, CommEvent(0));
    var s2 := Next(s1, SetSignal);
    var s3 := Next(s2, Spin);
    var s4 := Next(s3, CommEvent(m));
    var s5 := Next(s4, SetSignal);
    var s6 := Next(s5, TakeSignal);
    var s7 := Next(s6, CopyMask);
    var s8 := Next(s7, ClearMask);
    var s9 := Next(s8, Spin);
    ReachOn(base, s, CommEvent(0));
    ReachOn(base, s1, SetSignal);
    ReachOn(base, s2, Spin);
    ReachOn(base, s3, CommEvent(m));
    ReachOn(base, s4, SetSignal);
    ReachOn(base, s5, TakeSignal);
    ReachOn(base, s6, CopyMask);
    ReachOn(base, s7, ClearMask);
    ReachOn(base, s8, Spin);
    ReachOn(base, s9, Dispatch);
    assert Next(s9, Dispatch) == Later(s, [0, m], [m]);
  }

  /** From any quiet state an empty mask can also cost the next one its delivery: the loop
      clears the mask that the event thread has stored in the meantime, and dispatches two
      empty masks instead. */
  lemma NextIsLost(base: State, s: State, m: Mask)
    requires Reaches(base, s) && Quiet(s)
    ensures Reaches(base, Later(s, [0, m], [0, 0]))
  {
    var s1 := Next(s, CommEvent(0));
    var s2 := Next(s1, SetSignal);
    var s3 := Next(s2, Spin);
    var s4 := Next(s3, TakeSignal);
    var s5 := Next(s4, CopyMask);
    var s6 := Next(s5, CommEvent(m));
    var s7 := Next(s6, ClearMask);
    var s8 := Next(s7, Dispatch);
    ReachOn(base, s, CommEvent(0));
    ReachOn(base, s1, SetSignal);
    ReachOn(base, s2, Spin);
    ReachOn(base, s3, TakeSignal);
    ReachOn(base, s4, CopyMask);
    ReachOn(base, s5, CommEvent(m));
    ReachOn(base, s6, ClearMask);
    ReachOn(base, s7, Dispatch);
    var s9 := Next(s8, SetSignal);
    var s10 := Next(s9, Spin);
    var s11 := Next(s10, TakeSignal);
    var s12 := Next(s11, CopyMask);
    var s13 := Next(s12, ClearMask);
    ReachOn(base, s8, SetSignal);
    ReachOn(base, s9, Spin);
    ReachOn(base, s10, TakeSignal);
    ReachOn(base, s11, CopyMask);
    ReachOn(base, s12, ClearMask);
    ReachOn(base, s13, Dispatch);
    assert Next(s13, Dispatch) == Later(s, [0, m], [0, 0]);
  }

  // ---------- When every mask gets through ----------

  /** No mask but the last is empty. */
  ghost predicate EmptyAtEndOnly(ms: seq<Mask>) {
    forall i :: 0 <= i < |ms| - 1 ==> ms[i] != 0
  }

  /** Nothing but empty masks follows an empty one. */
  ghost predicate EmptyLast(ms: seq<Mask>) {
    forall i, j :: 0 <= i < j < |ms| && ms[i] == 0 ==> ms[j] == 0
  }

  function Zeros(n: nat): seq<Mask> {
    seq(n, _ => 0)
  }

  function NonEmpty(ms: seq<Mask>): seq<Mask> {
    if ms == [] then []
    else NonEmpty(ms[..|ms| - 1]) + if ms[|ms| - 1] == 0 then [] else [ms[|ms| - 1]]
  }

  function One(b: bool): nat {
    if b then 1 else 0
  }

  /** Signals on their way to the event loop. */
  function Due(s: State): nat {
    One(s.signal) + One(s.consumer.Woken?) + One(s.producer.Stored?)
  }

  /** After the first empty mask: the masks `full` before it, z empty ones since, d of them
      copied by the loop; with only one empty mask none is lost. */
  ghost predicate Winding(s: State, full: seq<Mask>, z: nat, d: nat) {
    && s.event == 0 && 0 !in full && z > 0
    && s.produced == full + Zeros(z) && s.dispatched + Carried(s) == full + Zeros(d)
    && d + Due(s) <= z && (z == 1 ==> d + Due(s) == z)
  }

  ghost predicate Good(s: State) {
    (Inv(s) && 0 !in s.produced) || exists full, z, d :: Winding(s, full, z, d)
  }

  lemma WindingStep(s: State, step: Step, full: seq<Mask>, z: nat, d: nat)
    requires Winding(s, full, z, d) && Enabled(s, step) && EmptyLast(Next(s, step).produced)
    ensures Good(Next(s, step))
  {
    var t := Next(s, step);
    match step
    case CommEvent(m) =>
      assert t.produced[|full|] == 0 && t.produced[|full| + z] == m;
      assert t.produced == full + Zeros(z + 1);
      assert Winding(t, full, z + 1, d);
    case CopyMask =>
      assert s.dispatched + Carried(s) == s.dispatched && Zeros(d + 1) == Zeros(d) + [0];
      assert t.dispatched + Carried(t) == full + Zeros(d) + [0] == full + Zeros(d + 1);
      assert Winding(t, full, z, d + 1);
    case Dispatch =>
      assert t.dispatched + Carried(t) == s.dispatched + Carried(s);
      assert Winding(t, full, z, d);
    case _ =>
      assert Winding(t, full, z, d);
  }

  lemma StepKeepsGood(s: State, step: Step)
    requires Good(s) && Enabled(s, step) && EmptyLast(Next(s, step).produced)
    ensures Good(Next(s, step))
  {
    var t := Next(s, step);
    if full, z, d :| Winding(s, full, z, d) {
      WindingStep(s, step, full, z, d);
    } else if step == CommEvent(0) {
      assert s.produced == s.dispatched + Carried(s);
      assert t.produced == s.produced + Zeros(1) && s.produced + Zeros(0) == s.produced;
      assert Winding(t, s.produced, 1, 0);
    } else {
      StepKeepsInv(s, step);
    }
  }

  lemma {:induction false} ProducedGrows(s: State, steps: seq<Step>)
    requires Possible(s, steps)
    ensures s.produced <= Exec(s, steps).produced
    decreases |steps|
  {
    if steps != [] {
      ProducedGrows(Next(s, steps[0]), steps[1..]);
    }
  }

  lemma {:induction false} RunKeepsGood(s: State, steps: seq<Step>)
    requires Good(s) && Possible(s, steps) && EmptyLast(Exec(s, steps).produced)
    ensures Good(Exec(s, steps))
    decreases |steps|
  {
    if steps != [] {
      var t := Next(s, steps[0]);
      ProducedGrows(t, steps[1..]);
      assert forall i :: 0 <= i < |t.produced| ==> t.produced[i] == Exec(s, steps).produced[i];
      StepKeepsGood(s, steps[0]);
      RunKeepsGood(t, steps[1..]);
    }
  }

  lemma StartIsGood()
    ensures Good(Start()) && Quiet(Start()) && Reaches(Start(), Start())
  {
    ReachSelf(Start());
  }

  lemma {:induction false} NonEmptyOfZeros(full: seq<Mask>, n: nat)
    requires 0 !in full
    ensures NonEmpty(full + Zeros(n)) == full
    decreases |full| + n
  {
    var ms := full + Zeros(n);
    if n > 0 {
      assert ms[..|ms| - 1] == full + Zeros(n - 1);
      NonEmptyOfZeros(full, n - 1);
    } else if full != [] {
      var front := full[..|full| - 1];
      assert ms == full && front + Zeros(0) == front && full == front + [full[|full| - 1]];
      NonEmptyOfZeros(front, 0);
    }
  }

  /** What a run that produces no full mask after an empty one has dispatched. */
  lemma GoodRun(t: State)
    requires Reaches(Start(), t) && EmptyLast(t.produced)
    ensures t.dispatched <= t.produced
    ensures Quiet(t) ==> NonEmpty(t.dispatched) == NonEmpty(t.produced)
    ensures Quiet(t) && EmptyAtEndOnly(t.produced) ==> t.dispatched == t.produced
    ensures EmptyAtEndOnly(t.produced) ==> |t.produced| <= |t.dispatched| + 2
  {
    StartIsGood();
    var steps :| Possible(Start(), steps) && Exec(Start(), steps) == t;
    RunKeepsGood(Start(), steps);
    if full, z, d :| Winding(t, full, z, d) {
      WindingDispatched(t, full, z, d);
    } else if Quiet(t) {
      assert t.produced == t.dispatched;
    }
  }

  lemma WindingDispatched(t: State, full: seq<Mask>, z: nat, d: nat)
    requires Winding(t, full, z, d)
    ensures t.dispatched <= t.produced
    ensures Quiet(t) ==> NonEmpty(t.dispatched) == NonEmpty(t.produced)
    ensures Quiet(t) && EmptyAtEndOnly(t.produced) ==> t.dispatched == t.produced
    ensures EmptyAtEndOnly(t.produced) ==> |t.produced| <= |t.dispatched| + 2
  {
    assert |full + Zeros(d)| == |full| + d && |t.produced| == |full| + z;
    assert z > 1 ==> t.produced[|full|] == 0;
    assert t.dispatched <= full + Zeros(d) <= full + Zeros(z);
    if Quiet(t) {
      assert t.dispatched == full + Zeros(d);
      NonEmptyOfZeros(full, z);
      NonEmptyOfZeros(full, d);
    }
  }

  /** A full mask right behind an empty one. */
  lemma {:induction false} FullBehindEmpty(ms: seq<Mask>, i: nat, j: nat) returns (k: nat)
    requires i < j < |ms| && ms[i] == 0 && ms[j] != 0
    ensures k + 1 < |ms| && ms[k] == 0 && ms[k + 1] != 0
    decreases j - i
  {
    if ms[i + 1] != 0 {
      k := i;
    } else {
      k := FullBehindEmpty(ms, i + 1, j);
    }
  }

  /** The masks around positions k and k + 1. */
  lemma Around(ms: seq<Mask>, k: nat)
    requires k + 1 < |ms|
    ensures ms[..k] + [ms[k], ms[k + 1]] + ms[k + 2..] == ms
  {
  }

  /** For every sequence of masks with an empty one at k there is a run that produces it,
      ends quiet and has lost that one. */
  lemma EmptyLostFrom(ms: seq<Mask>, k: nat) returns (t: State)
    requires k + 1 < |ms| && ms[k] == 0
    ensures Reaches(Start(), t) && Quiet(t) && t.produced == ms
    ensures t.dispatched == ms[..k] + [ms[k + 1]] + ms[k + 2..]
  {
    StartIsGood();
    HandOverAll(Start(), Start(), ms[..k]);
    var s := Later(Start(), ms[..k], ms[..k]);
    EmptyIsLost(Start(), s, ms[k + 1]);
    var u := Later(s, [0, ms[k + 1]], [ms[k + 1]]);
    HandOverAll(Start(), u, ms[k + 2..]);
    t := Later(u, ms[k + 2..], ms[k + 2..]);
    Around(ms, k);
  }

  /** ... and another one that has lost the mask behind it. */
  lemma NextLostFrom(ms: seq<Mask>, k: nat) returns (t: State)
    requires k + 1 < |ms| && ms[k] == 0
    ensures Reaches(Start(), t) && Quiet(t) && t.produced == ms
    ensures t.dispatched == ms[..k] + [0, 0] + ms[k + 2..]
  {
    StartIsGood();
    HandOverAll(Start(), Start(), ms[..k]);
    var s := Later(Start(), ms[..k], ms[..k]);
    NextIsLost(Start(), s, ms[k + 1]);
    var u := Later(s, [0, ms[k + 1]], [0, 0]);
    HandOverAll(Start(), u, ms[k + 2..]);
    t := Later(u, ms[k + 2..], ms[k + 2..]);
    Around(ms, k);
  }

  /** Every run that produces `ms` has dispatched a prefix of it, at any moment. */
  ghost predicate AlwaysPrefix(ms: seq<Mask>) {
    forall t :: Reaches(Start(), t) && t.produced == ms ==> t.dispatched <= ms
  }

  /** Every run that produces `ms` and comes to rest has dispatched exactly `ms`. */
  ghost predicate AlwaysAll(ms: seq<Mask>) {
    forall t :: Reaches(Start(), t) && Quiet(t) && t.produced == ms ==> t.dispatched == ms
  }

  /** Every run that produces `ms` and comes to rest has dispatched its full masks in order. */
  ghost predicate AlwaysFull(ms: seq<Mask>) {
    forall t :: Reaches(Start(), t) && Quiet(t) && t.produced == ms ==> NonEmpty(t.dispatched) == NonEmpty(ms)
  }

  /** A prefix is dispatched in every interleaving if and only if no full mask follows an
      empty one. */
  lemma PrefixIffEmptyLast(ms: seq<Mask>)
    ensures AlwaysPrefix(ms) <==> EmptyLast(ms)
  {
    if EmptyLast(ms) {
      forall t | Reaches(Start(), t) && t.produced == ms
        ensures t.dispatched <= ms
      {
        GoodRun(t);
      }
    } else {
      var i, j :| 0 <= i < j < |ms| && ms[i] == 0 && ms[j] != 0;
      var k := FullBehindEmpty(ms, i, j);
      var t := EmptyLostFrom(ms, k);
      assert t.dispatched[k] == ms[k + 1] != ms[k];
    }
  }

  /** Every mask is dispatched, once and in order, in every interleaving if and only if no
      mask but the last is empty. */
  lemma AllIffEmptyAtEndOnly(ms: seq<Mask>)
    ensures AlwaysAll(ms) <==> EmptyAtEndOnly(ms)
  {
    if EmptyAtEndOnly(ms) {
      forall t | Reaches(Start(), t) && Quiet(t) && t.produced == ms
        ensures t.dispatched == ms
      {
        GoodRun(t);
      }
    } else {
      var k :| 0 <= k < |ms| - 1 && ms[k] == 0;
      var t := EmptyLostFrom(ms, k);
      assert |t.dispatched| == |ms| - 1;
    }
  }

  lemma {:induction false} NonEmptyConcat(a: seq<Mask>, b: seq<Mask>)
    ensures NonEmpty(a + b) == NonEmpty(a) + NonEmpty(b)
    decreases |b|
  {
    if b == [] {
      assert a + b == a;
    } else {
      NonEmptyConcat(a, b[..|b| - 1]);
      assert (a + b)[..|a + b| - 1] == a + b[..|b| - 1];
    }
  }

  /** No full mask is lost in any interleaving if and only if none follows an empty one. */
  lemma FullIffEmptyLast(ms: seq<Mask>)
    ensures AlwaysFull(ms) <==> EmptyLast(ms)
  {
    if EmptyLast(ms) {
      forall t | Reaches(Start(), t) && Quiet(t) && t.produced == ms
        ensures NonEmpty(t.dispatched) == NonEmpty(ms)
      {
        GoodRun(t);
      }
    } else {
      var i, j :| 0 <= i < j < |ms| && ms[i] == 0 && ms[j] != 0;
      var k := FullBehindEmpty(ms, i, j);
      var t := NextLostFrom(ms, k);
      var a, b := ms[..k], ms[k + 2..];
      Around(ms, k);
      NonEmptyConcat(a, [0, 0]);
      NonEmptyConcat(a, [0, ms[k + 1]]);
      NonEmptyConcat(a + [0, 0], b);
      NonEmptyConcat(a + [0, ms[k + 1]], b);
      assert NonEmpty([0, 0]) == [] && NonEmpty([0, ms[k + 1]]) == [ms[k + 1]] by {
        NonEmptyConcat([0], [0]);
        NonEmptyConcat([0], [ms[k + 1]]);
      }
      assert |NonEmpty(t.dispatched)| < |NonEmpty(ms)|;
    }
  }

  /** In every interleaving with no empty mask but perhaps the last, the masks dispatched are
      a prefix of the masks produced, in order, none lost and none repeated, and at most two
      are under way. */
  lemma DispatchedIsPrefix(steps: seq<Step>)
    requires Possible(Start(), steps) && EmptyAtEndOnly(Exec(Start(), steps).produced)
    ensures var s := Exec(Start(), steps);
      s.dispatched <= s.produced && |s.produced| <= |s.dispatched| + 2
  {
    assert Reaches(Start(), Exec(Start(), steps));
    GoodRun(Exec(Start(), steps));
  }
}
