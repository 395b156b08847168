/**
  The "output buffer empty" handshake of native/src/SerialImp.c on systems without a line
  status register: `writeByte`/`writeArray` set `writing`, the drain thread turns it into
  `output_buffer_empty_flag`, the event loop turns that into an event, and any thread may
  call `nativeDrain`, which clears both.  None of it is locked, so every load and every
  store of the two fields is a step of its own.

  The two fields are 0 or 1 in the program.  Here a set field also names the write it
  stems from, so that an event can be traced back to a write.
 */
module OutputEmpty {
  import opened Sequences

  type Write = nat

  datatype Flag = Clear | Set(source: Write)

  /** The drain thread: in tcdrain, about to set the flag, about to clear `writing`. */
  datatype Drain = Draining | Seen(write: Write) | Raised

  /** The event loop: about to test the flag, about to send, about to clear the flag. */
  datatype Loop = Polling | Sending(write: Write) | Sent

  /** A `nativeDrain` call that found `writing` set: two stores to go, or one. */
  datatype Flush = ClearWriting | ClearFlag

  /** Writes are numbered from 0; `unmarked` have reached the device but have not set
      `writing` yet; `events` are the events the event loop has sent. */
  datatype State = State(
    writing: Flag, flag: Flag, drain: Drain, loop: Loop, flushes: map<nat, Flush>,
    unmarked: set<Write>, writes: nat, events: seq<Write>)

  datatype Step =
    | WriteDevice
    | MarkWriting(w: Write)
    | DrainTests
    | DrainRaises
    | DrainClears
    | FlushTests(n: nat)
    | FlushStores(n: nat)
    | LoopTests(enabled: bool)
    | LoopSends
    | LoopClears

  predicate Enabled(s: State, step: Step) {
    match step
    case WriteDevice => true
    case MarkWriting(w) => w in s.unmarked
    case DrainTests => s.drain.Draining?
    case DrainRaises => s.drain.Seen?
    case DrainClears => s.drain.Raised?
    case FlushTests(n) => n !in s.flushes
    case FlushStores(n) => n in s.flushes
    case LoopTests(_) => s.loop.Polling?
    case LoopSends => s.loop.Sending?
    case LoopClears => s.loop.Sent?
  }

  function Next(s: State, step: Step): State
    requires Enabled(s, step)
  {
    match step
    case WriteDevice => s.(unmarked := s.unmarked + {s.writes}, writes := s.writes + 1)
    case MarkWriting(w) => s.(writing := Set(w), unmarked := s.unmarked - {w})
    case DrainTests => if s.writing.Set? then s.(drain := Seen(s.writing.source)) else s
    case DrainRaises => s.(flag := Set(s.drain.write), drain := Raised)
    case DrainClears => s.(writing := Clear, drain := Draining)
    case FlushTests(n) => if s.writing.Set? then s.(flushes := s.flushes[n := ClearWriting]) else s
    case FlushStores(n) =>
      if s.flushes[n].ClearWriting? then s.(writing := Clear, flushes := s.flushes[n := ClearFlag])
      else s.(flag := Clear, flushes := s.flushes - {n})
    case LoopTests(enabled) => if s.flag.Set? && enabled then s.(loop := Sending(s.flag.source)) else s
    case LoopSends => s.(events := s.events + [s.loop.write], loop := Sent)
    case LoopClears => s.(flag := Clear, loop := Polling)
  }

  function Start(): State {
    State(Clear, Clear, Draining, Polling, map[], {}, 0, [])
  }

  ghost predicate Possible(s: State, steps: seq<Step>)
    decreases |steps|
  {
    steps == [] || (Enabled(s, steps[0]) && Possible(Next(s, steps[0]), steps[1..]))
  }

  ghost function Exec(s: State, steps: seq<Step>): State
    requires Possible(s, steps)
    decreases |steps|
  {
    if steps == [] then s else Exec(Next(s, steps[0]), steps[1..])
  }

  /** No event for `w` has been sent, is being sent, or waits in the flag. */
  ghost predicate Unreported(s: State, w: Write) {
    w < s.writes && w !in s.events && s.flag != Set(w) && s.loop != Sending(w)
  }

  ghost predicate Inv(s: State) {
    && Distinct(s.events)
    && (forall w :: w in s.events ==> w < s.writes)
    // a pending send has not been sent, and neither has a flag the loop may still test
    && (s.loop.Sending? ==> s.loop.write < s.writes && s.loop.write !in s.events)
    && (s.flag.Set? ==> s.flag.source < s.writes)
    && (s.flag.Set? && s.loop.Polling? ==> s.flag.source !in s.events)
    // what the drain thread has picked up, or may pick up, is unreported
    && (s.drain.Seen? ==> Unreported(s, s.drain.write))
    && (s.writing.Set? ==> s.writing.source < s.writes)
    && (s.writing.Set? && s.drain.Draining? ==> Unreported(s, s.writing.source))
    // a write that has not been marked has left no trace
    && (forall w :: w in s.unmarked ==>
          Unreported(s, w) && s.writing != Set(w) && s.drain != Seen(w))
  }

  lemma WriterKeepsInv(s: State, step: Step)
    requires Inv(s) && Enabled(s, step) && (step.WriteDevice? || step.MarkWriting?)
    ensures Inv(Next(s, step))
  {
  }

  lemma DrainKeepsInv(s: State, step: Step)
    requires Inv(s) && Enabled(s, step) && (step.DrainTests? || step.DrainRaises? || step.DrainClears?)
    ensures Inv(Next(s, step))
  {
  }

  lemma FlushKeepsInv(s: State, step: Step)
    requires Inv(s) && Enabled(s, step) && (step.FlushTests? || step.FlushStores?)
    ensures Inv(Next(s, step))
  {
  }

  lemma LoopKeepsInv(s: State, step: Step)
    requires Inv(s) && Enabled(s, step) && (step.LoopTests? || step.LoopSends? || step.LoopClears?)
    ensures Inv(Next(s, step))
  {
    var t := Next(s, step);
    assert step.LoopSends? ==> forall w :: w in t.events <==> w in s.events || w == s.loop.write;
  }

  lemma StepKeepsInv(s: State, step: Step)
    requires Inv(s) && Enabled(s, step)
    ensures Inv(Next(s, step))
  {
    match step
    case WriteDevice => WriterKeepsInv(s, step);
    case MarkWriting(_) => WriterKeepsInv(s, step);
    case DrainTests => DrainKeepsInv(s, step);
    case DrainRaises => DrainKeepsInv(s, step);
    case DrainClears => DrainKeepsInv(s, step);
    case FlushTests(_) => FlushKeepsInv(s, step);
    case FlushStores(_) => FlushKeepsInv(s, step);
    case LoopTests(_) => LoopKeepsInv(s, step);
    case LoopSends => LoopKeepsInv(s, step);
    case LoopClears => LoopKeepsInv(s, step);
  }

  lemma {:induction false} RunKeepsInv(s: State, steps: seq<Step>)
    requires Inv(s) && Possible(s, steps)
    ensures Inv(Exec(s, steps))
    decreases |steps|
  {
    if steps != [] {
      StepKeepsInv(s, steps[0]);
      RunKeepsInv(Next(s, steps[0]), steps[1..]);
    }
  }

  /** Distinct numbers below a bound are at most that many. */
  lemma {:induction false} PigeonHole(q: seq<Write>, bound: nat)
    requires Distinct(q) && forall w :: w in q ==> w < bound
    ensures |q| <= bound
    decreases bound
  {
    assert q == [] || q[0] in q;
    if bound == 0 {
    } else if exists i :: 0 <= i < |q| && q[i] == bound - 1 {
      var i :| 0 <= i < |q| && q[i] == bound - 1;
      var r := q[..i] + q[i + 1..];
      assert forall w :: w in r ==> w in q && w != bound - 1;
      PigeonHole(r, bound - 1);
    } else {
      PigeonHole(q, bound - 1);
    }
  }

  /** In every interleaving of writers, drain thread, `nativeDrain` calls and event loop,
      each event stems from a write that has already been made, no write yields two, and
      so at every moment there are no more events than writes. */
  lemma EventsNeverExceedWrites(steps: seq<Step>)
    requires Possible(Start(), steps)
    ensures var s := Exec(Start(), steps);
      && (forall w :: w in s.events ==> w < s.writes)
      && Distinct(s.events)
      && |s.events| <= s.writes
  {
    RunKeepsInv(Start(), steps);
    PigeonHole(Exec(Start(), steps).events, Exec(Start(), steps).writes);
  }

  // ---------- What one write brings about ----------

  /** Nothing is pending anywhere. */
  predicate Quiet(s: State) {
    s.writing.Clear? && s.flag.Clear? && s.drain.Draining? && s.loop.Polling? && s.flushes == map[] && s.unmarked == {}
  }

  lemma ExecCons(s: State, step: Step, rest: seq<Step>)
    requires Enabled(s, step) && Possible(Next(s, step), rest)
    ensures Possible(s, [step] + rest)
    ensures Exec(s, [step] + rest) == Exec(Next(s, step), rest)
  {
    assert ([step] + rest)[1..] == rest;
  }

  /** A write that is marked and drained. */
  lemma WriteRaisesFlag(s: State)
    requires Quiet(s)
    ensures var steps := [WriteDevice, MarkWriting(s.writes), DrainTests, DrainRaises, DrainClears];
      && Possible(s, steps)
      && Exec(s, steps) == s.(flag := Set(s.writes), writes := s.writes + 1)
  {
    var w := s.writes;
    var s1 := Next(s, WriteDevice);
    var s2 := Next(s1, MarkWriting(w));
    var s3 := Next(s2, DrainTests);
    var s4 := Next(s3, DrainRaises);
    var r4 := [DrainClears];
    var r3 := [DrainRaises] + r4;
    var r2 := [DrainTests] + r3;
    var r1 := [MarkWriting(w)] + r2;
    ExecCons(s4, DrainClears, []);
    ExecCons(s3, DrainRaises, r4);
    ExecCons(s2, DrainTests, r3);
    ExecCons(s1, MarkWriting(w), r2);
    ExecCons(s, WriteDevice, r1);
    assert [WriteDevice, MarkWriting(w), DrainTests, DrainRaises, DrainClears] == [WriteDevice] + r1;
  }

  /** A raised flag becomes one event when the listener wants it, and is then down again. */
  lemma FlagBecomesEvent(s: State)
    requires s.flag.Set? && s.loop.Polling?
    ensures var steps := [LoopTests(true), LoopSends, LoopClears];
      && Possible(s, steps)
      && Exec(s, steps) == s.(flag := Clear, events := s.events + [s.flag.source])
    ensures Next(s, LoopTests(false)) == s
  {
    var s1 := Next(s, LoopTests(true));
    var s2 := Next(s1, LoopSends);
    ExecCons(s2, LoopClears, []);
    ExecCons(s1, LoopSends, [LoopClears]);
    ExecCons(s, LoopTests(true), [LoopSends] + [LoopClears]);
    assert [LoopTests(true), LoopSends, LoopClears] == [LoopTests(true)] + ([LoopSends] + [LoopClears]);
  }

  lemma {:induction false} ExecConcat(s: State, a: seq<Step>, b: seq<Step>)
    requires Possible(s, a) && Possible(Exec(s, a), b)
    ensures Possible(s, a + b) && Exec(s, a + b) == Exec(Exec(s, a), b)
    decreases |a|
  {
    if a == [] {
      assert a + b == b;
    } else {
      ExecConcat(Next(s, a[0]), a[1..], b);
      assert (a + b)[1..] == a[1..] + b;
    }
  }

  /** From any quiet state a write can bring its own event about, and all is quiet again. */
  lemma WriteYieldsItsEvent(s: State)
    requires Quiet(s)
    ensures var steps := [WriteDevice, MarkWriting(s.writes), DrainTests, DrainRaises, DrainClears] +
                         [LoopTests(true), LoopSends, LoopClears];
      && Possible(s, steps)
      && Exec(s, steps) == s.(writes := s.writes + 1, events := s.events + [s.writes])
  {
    var drained := [WriteDevice, MarkWriting(s.writes), DrainTests, DrainRaises, DrainClears];
    WriteRaisesFlag(s);
    FlagBecomesEvent(Exec(s, drained));
    ExecConcat(s, drained, [LoopTests(true), LoopSends, LoopClears]);
  }

  /** A `nativeDrain` that comes first takes the event loop's event away. */
  lemma DrainCallTakesEvent(s: State, n: nat)
    requires Quiet(s)
    ensures var steps := [WriteDevice, MarkWriting(s.writes), FlushTests(n), FlushStores(n), FlushStores(n)];
      && Possible(s, steps)
      && Exec(s, steps) == s.(writes := s.writes + 1)
  {
    var w := s.writes;
    var s1 := Next(s, WriteDevice);
    var s2 := Next(s1, MarkWriting(w));
    var s3 := Next(s2, FlushTests(n));
    var s4 := Next(s3, FlushStores(n));
    var r4 := [FlushStores(n)];
    var r3 := [FlushStores(n)] + r4;
    var r2 := [FlushTests(n)] + r3;
    var r1 := [MarkWriting(w)] + r2;
    ExecCons(s4, FlushStores(n), []);
    ExecCons(s3, FlushStores(n), r4);
    ExecCons(s2, FlushTests(n), r3);
    ExecCons(s1, MarkWriting(w), r2);
    ExecCons(s, WriteDevice, r1);
    assert [WriteDevice, MarkWriting(w), FlushTests(n), FlushStores(n), FlushStores(n)] == [WriteDevice] + r1;
  }

  /** With nothing written, neither the drain thread, nor a drain call, nor the loop does
      anything. */
  lemma QuietStaysQuiet(s: State, n: nat, enabled: bool)
    requires Quiet(s)
    ensures Next(s, DrainTests) == s && Next(s, FlushTests(n)) == s && Next(s, LoopTests(enabled)) == s
  {
  }
}
