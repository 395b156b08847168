/**
  The half-duplex send of an RS-485 port, `writeArray` in native/src/RS485Imp.c: raise DTR,
  hand the bytes over, wait until the transmitter is empty, lower DTR, flush the echo.

  The answers of the system calls are functions of how often the call has been made.  The
  three loops need not end, so the method is watched for `horizon` calls; what it ensures
  for every horizon covers every run, finished or not.
 */
module HalfDuplex {
  import opened Options

  type Byte = x: int | 0 <= x < 256

  const DTR: bv32 := 0x2
  const TEMT: bv32 := 0x1

  /** A return value, and whether errno is EINTR when it reports an error. */
  datatype Answer = Answer(rc: int, eintr: bool)

  /** `dtr` is the level of the line before the call. TIOCMGET answers `None` where it fails
      and leaves its argument alone; `raises` and `lowers` tell whether TIOCMSET succeeds;
      `lsr` tells whether the system has TIOCSERGETLSR, without which nobody waits; `last` is what the last
      write then leaves in the argument of the second TIOCMGET. */
  datatype Device = Device(
    lsr: bool, dtr: bool, linesBefore: Option<bv32>, raises: bool, write: nat -> Answer, empty: nat -> bool,
    last: bv32, linesAfter: Option<bv32>, lowers: bool, flush: nat -> Answer)

  datatype Event =
    | SetLines(bits: bv32, done: bool)
    | Wrote(bytes: seq<Byte>)
    | PollEmpty(empty: bool)
    | FlushInput(ok: bool)

  datatype Outcome = Returned | Threw | Running

  // ---- The protocol on the wire -------------------------------------------------------

  /** How far a send of one message has got; `Broken` once a step comes out of turn. From the
      release on, `emptied` tells whether the transmitter was seen empty before. */
  datatype Phase =
    | Silent
    | Driving(sent: seq<Byte>)
    | Emptied
    | Released(emptied: bool)
    | Flushed(emptied: bool)
    | Broken

  predicate DtrUp(bits: bv32) {
    bits & DTR != 0
  }

  /** Bytes only after DTR was asked up; the emptiness poll, and DTR asked down, only when the
      whole message is out; the flush last. The results of the requests are not looked at. */
  function Advance(message: seq<Byte>, phase: Phase, e: Event): Phase {
    match (phase, e)
    case (Silent, SetLines(bits, _)) => if DtrUp(bits) then Driving([]) else Broken
    case (Driving(sent), Wrote(bytes)) =>
      if sent + bytes <= message then Driving(sent + bytes) else Broken
    case (Driving(sent), PollEmpty(empty)) =>
      if sent != message then Broken else if empty then Emptied else phase
    case (Driving(sent), SetLines(bits, _)) => if sent == message && !DtrUp(bits) then Released(false) else Broken
    case (Emptied, SetLines(bits, _)) => if !DtrUp(bits) then Released(true) else Broken
    case (Released(emptied), FlushInput(ok)) => if ok then Flushed(emptied) else phase
    case _ => Broken
  }

  function Progress(message: seq<Byte>, trace: seq<Event>): Phase {
    if trace == [] then Silent
    else Advance(message, Progress(message, trace[..|trace| - 1]), trace[|trace| - 1])
  }

  lemma ProgressStep(message: seq<Byte>, trace: seq<Event>, e: Event)
    ensures Progress(message, trace + [e]) == Advance(message, Progress(message, trace), e)
  {
    assert (trace + [e])[..|trace|] == trace;
  }

  function Written(trace: seq<Event>): seq<Byte> {
    if trace == [] then []
    else
      var last := trace[|trace| - 1];
      Written(trace[..|trace| - 1]) + if last.Wrote? then last.bytes else []
  }

  /** What the phases mean for the bytes on the wire: the bytes handed over are a prefix of
      the message at all times, and all of it from the moment the transmitter was seen empty or
      DTR was asked down. */
  lemma {:induction false} PhaseTellsBytes(message: seq<Byte>, trace: seq<Event>)
    requires !Progress(message, trace).Broken?
    ensures match Progress(message, trace)
      case Silent => Written(trace) == []
      case Driving(sent) => Written(trace) == sent && sent <= message
      case _ => Written(trace) == message
    decreases |trace|
  {
    if trace != [] {
      PhaseTellsBytes(message, trace[..|trace| - 1]);
    }
  }

  /** No byte is handed over before DTR was asked up or after it was asked down. */
  lemma {:induction false} DriverHoldsDtr(message: seq<Byte>, trace: seq<Event>, i: nat)
    requires !Progress(message, trace).Broken? && i < |trace| && trace[i].Wrote?
    ensures Progress(message, trace[..i]).Driving?
    decreases |trace|
  {
    var before := trace[..|trace| - 1];
    if i < |trace| - 1 {
      DriverHoldsDtr(message, before, i);
      assert before[..i] == trace[..i];
    }
  }

  /** What a release after an empty transmitter means: the poll that saw it lies between the
      last byte and the request to lower DTR. */
  lemma {:induction false} EmptiedBeforeRelease(message: seq<Byte>, trace: seq<Event>) returns (i: nat)
    requires var phase := Progress(message, trace);
      phase.Emptied? || ((phase.Released? || phase.Flushed?) && phase.emptied)
    ensures i < |trace| && trace[i] == PollEmpty(true) && Progress(message, trace[..i]) == Driving(message)
    ensures forall j :: i < j < |trace| ==> !trace[j].Wrote?
    decreases |trace|
  {
    var before := trace[..|trace| - 1];
    if Progress(message, before) == Driving(message) && trace[|trace| - 1] == PollEmpty(true) {
      i := |trace| - 1;
    } else {
      i := EmptiedBeforeRelease(message, before);
      assert before[..i] == trace[..i];
    }
  }

  // ---- What the line really does ------------------------------------------------------

  /** The requests to set the lines, in order: what was asked and whether it succeeded. */
  function Done(trace: seq<Event>): seq<(bv32, bool)> {
    if trace == [] then []
    else
      var last := trace[|trace| - 1];
      Done(trace[..|trace| - 1]) + if last.SetLines? then [(last.bits, last.done)] else []
  }

  /** The level of DTR: what the last request that succeeded asked for. */
  function LineUp(dtr: bool, trace: seq<Event>): bool {
    if trace == [] then dtr
    else
      var last := trace[|trace| - 1];
      if last.SetLines? && last.done then DtrUp(last.bits) else LineUp(dtr, trace[..|trace| - 1])
  }

  /** Every byte was handed over with DTR up. */
  predicate Held(dtr: bool, trace: seq<Event>) {
    trace == [] ||
    var before, last := trace[..|trace| - 1], trace[|trace| - 1];
    Held(dtr, before) && (last.Wrote? && last.bytes != [] ==> LineUp(dtr, before))
  }

  lemma DoneStep(trace: seq<Event>, e: Event)
    ensures Done(trace + [e]) == Done(trace) + if e.SetLines? then [(e.bits, e.done)] else []
  {
    assert (trace + [e])[..|trace|] == trace;
  }

  /** The requests made in each phase, and the level they leave. */
  lemma {:induction false} PhaseTellsLine(message: seq<Byte>, trace: seq<Event>, dtr: bool)
    requires !Progress(message, trace).Broken?
    ensures match Progress(message, trace)
      case Silent => Done(trace) == [] && LineUp(dtr, trace) == dtr
      case Driving(_) => |Done(trace)| == 1 && LineUp(dtr, trace) == (dtr || Done(trace)[0].1)
      case Emptied => |Done(trace)| == 1 && LineUp(dtr, trace) == (dtr || Done(trace)[0].1)
      case _ => |Done(trace)| == 2 && LineUp(dtr, trace) == ((dtr || Done(trace)[0].1) && !Done(trace)[1].1)
    ensures Held(dtr, trace) <==> dtr || (Done(trace) != [] && Done(trace)[0].1) || Written(trace) == []
    decreases |trace|
  {
    if trace != [] {
      PhaseTellsLine(message, trace[..|trace| - 1], dtr);
    }
  }

  /** A whole send had DTR up for every byte and left it down if and only if the line was up
      or could be raised and was then lowered, or there was nothing to send. */
  lemma SendHoldsLine(message: seq<Byte>, trace: seq<Event>, dtr: bool)
    requires Progress(message, trace).Flushed?
    ensures |Done(trace)| == 2
    ensures Held(dtr, trace) && !LineUp(dtr, trace) <==>
      if dtr || Done(trace)[0].1 then Done(trace)[1].1 else message == []
  {
    PhaseTellsLine(message, trace, dtr);
    PhaseTellsBytes(message, trace);
  }

  // ---- The send -----------------------------------------------------------------------

  /** Copies the part of the array to send. */
  method CopyOut(body: seq<Byte>, offset: nat, count: nat) returns (bytes: seq<Byte>)
    requires offset + count <= |body|
    ensures bytes == body[offset..offset + count]
  {
    bytes := [];
    for i := 0 to count
      invariant bytes == body[offset..offset + i]
    {
      bytes := bytes + [body[i + offset]];
    }
  }

  // When the loops end, by the answers of the system calls

  /** How much of a message the first k writes take. */
  function SentBy(device: Device, size: nat, k: nat): nat {
    if k == 0 then 0
    else
      var before := SentBy(device, size, k - 1);
      var rc := device.write(k - 1).rc;
      if rc <= 0 then before else if before + rc < size then before + rc else size
  }

  /** The call is interrupted and made again. */
  predicate Interrupted(a: Answer) {
    a.rc < 0 && a.eintr
  }

  /** The first answer that is not an interruption comes within the horizon, and is an error
      or not. */
  ghost predicate FirstAnswer(answers: nat -> Answer, horizon: nat, error: bool) {
    exists c :: && 0 <= c < horizon && !Interrupted(answers(c)) && (answers(c).rc < 0) == error
                && forall j :: 0 <= j < c ==> Interrupted(answers(j))
  }

  /** Everything is out; with nothing to send, one write has to come through. */
  ghost predicate Sends(device: Device, size: nat, horizon: nat) {
    if size > 0 then SentBy(device, size, horizon) == size else FirstAnswer(device.write, horizon, false)
  }

  /** Errors end the loop only when there is nothing to send. */
  ghost predicate SendFails(device: Device, size: nat, horizon: nat) {
    size == 0 && FirstAnswer(device.write, horizon, true)
  }

  ghost predicate Empties(device: Device, horizon: nat) {
    exists c :: 0 <= c < horizon && device.empty(c)
  }

  /** An error of the flush that makes it be repeated: interrupted, with few bytes sent. */
  predicate Repeats(a: Answer, size: nat) {
    a.rc != 0 && a.eintr && size < 5
  }

  /** The first flush that is not repeated comes within the horizon, and succeeds or not. */
  ghost predicate FlushEnds(device: Device, size: nat, horizon: nat, ok: bool) {
    exists c :: && 0 <= c < horizon && !Repeats(device.flush(c), size) && (device.flush(c).rc == 0) == ok
                && forall j :: 0 <= j < c ==> Repeats(device.flush(j), size)
  }

  /** The bytes are out, the wait, if there is one, has ended, and so has the flush. */
  ghost predicate Completes(device: Device, size: nat, horizon: nat, ok: bool) {
    Sends(device, size, horizon) && (device.lsr ==> Empties(device, horizon)) && FlushEnds(device, size, horizon, ok)
  }

  lemma {:induction false} SentGrows(device: Device, size: nat, k: nat, horizon: nat)
    requires k <= horizon
    ensures SentBy(device, size, k) <= SentBy(device, size, horizon) <= size
    decreases horizon
  {
    if k < horizon {
      SentGrows(device, size, k, horizon - 1);
    } else if k > 0 {
      SentGrows(device, size, k - 1, k - 1);
    }
  }

  /** The write loop has not ended after k calls. */
  ghost predicate StillSending(device: Device, size: nat, k: nat) {
    if size > 0 then SentBy(device, size, k) < size else forall j :: 0 <= j < k ==> Interrupted(device.write(j))
  }

  lemma NotEnded(device: Device, size: nat, horizon: nat)
    requires StillSending(device, size, horizon)
    ensures !Sends(device, size, horizon) && !SendFails(device, size, horizon)
  {
  }

  /** The loop ends with the call after k: with an error only when there is nothing to send. */
  lemma EndsWith(device: Device, size: nat, k: nat, horizon: nat)
    requires k < horizon && StillSending(device, size, k) && !Interrupted(device.write(k))
    requires SentBy(device, size, k + 1) == size
    ensures if device.write(k).rc < 0 then SendFails(device, size, horizon) else Sends(device, size, horizon)
    ensures device.write(k).rc < 0 ==> !Sends(device, size, horizon)
    ensures device.write(k).rc >= 0 ==> !SendFails(device, size, horizon)
  {
    SentGrows(device, size, k + 1, horizon);
  }

  lemma GoesOn(device: Device, size: nat, k: nat)
    requires StillSending(device, size, k)
    requires SentBy(device, size, k + 1) < size || Interrupted(device.write(k))
    ensures StillSending(device, size, k + 1)
  {
  }

  /** The first `total` bytes have been handed over since `trace`. */
  ghost predicate Handed(bytes: seq<Byte>, trace: seq<Event>, after: seq<Event>, total: nat) {
    && total <= |bytes| && Progress(bytes, after) == Driving(bytes[..total])
    && trace <= after && Done(after) == Done(trace)
  }

  /** One write: notes what it took. */
  method HandOver(bytes: seq<Byte>, ghost trace: seq<Event>, total: nat, rc: int, before: seq<Event>)
    returns (sent: nat, after: seq<Event>)
    requires Handed(bytes, trace, before, total)
    ensures sent == if rc <= 0 then total else if total + rc < |bytes| then total + rc else |bytes|
    ensures Handed(bytes, trace, after, sent)
  {
    sent, after := total, before;
    if rc > 0 {
      var n := if rc <= |bytes| - total then rc else |bytes| - total;
      ProgressStep(bytes, before, Wrote(bytes[total..total + n]));
      DoneStep(before, Wrote(bytes[total..total + n]));
      assert bytes[..total] + bytes[total..total + n] == bytes[..total + n];
      after := before + [Wrote(bytes[total..total + n])];
      sent := total + n;
    }
  }

  /** The loop itself. */
  method WriteLoop(device: Device, bytes: seq<Byte>, trace: seq<Event>, horizon: nat)
    returns (outcome: Outcome, after: seq<Event>, ghost total: nat)
    requires Handed(bytes, trace, trace, 0)
    ensures Handed(bytes, trace, after, total) && (outcome.Returned? ==> total == |bytes|)
    ensures outcome.Returned? <==> Sends(device, |bytes|, horizon)
    ensures outcome.Threw? <==> SendFails(device, |bytes|, horizon)
  {
    after := trace;
    var sent, calls := 0, 0;
    while calls < horizon
      invariant 0 <= calls <= horizon && sent == SentBy(device, |bytes|, calls)
      invariant StillSending(device, |bytes|, calls) && Handed(bytes, trace, after, sent)
      decreases horizon - calls
    {
      var answer := device.write(calls);
      sent, after := HandOver(bytes, trace, sent, answer.rc, after);
      calls := calls + 1;
      if !(sent < |bytes| || (answer.rc < 0 && answer.eintr)) {
        EndsWith(device, |bytes|, calls - 1, horizon);
        return if answer.rc < 0 then Threw else Returned, after, sent;
      }
      GoesOn(device, |bytes|, calls - 1);
    }
    NotEnded(device, |bytes|, horizon);
    return Running, after, sent;
  }

  /** The write loop: goes on until everything is out, whatever the errors in between. */
  method SendAll(device: Device, bytes: seq<Byte>, trace: seq<Event>, horizon: nat)
    returns (outcome: Outcome, after: seq<Event>)
    requires Progress(bytes, trace) == Driving([])
    ensures Progress(bytes, after).Driving? && trace <= after && Done(after) == Done(trace)
    ensures outcome.Returned? ==> Progress(bytes, after) == Driving(bytes)
    ensures outcome.Returned? <==> Sends(device, |bytes|, horizon)
    ensures outcome.Threw? <==> SendFails(device, |bytes|, horizon)
  {
    ghost var total;
    outcome, after, total := WriteLoop(device, bytes, trace, horizon);
    assert bytes[..|bytes|] == bytes;
  }

  /** Waits until the line status register reports an empty transmitter. */
  method AwaitEmpty(device: Device, bytes: seq<Byte>, trace: seq<Event>, horizon: nat)
    returns (outcome: Outcome, after: seq<Event>)
    requires Progress(bytes, trace) == Driving(bytes)
    ensures Progress(bytes, after) == if outcome.Returned? then Emptied else Driving(bytes)
    ensures !outcome.Threw? && trace <= after && Done(after) == Done(trace)
    ensures outcome.Returned? <==> Empties(device, horizon)
  {
    after := trace;
    for calls := 0 to horizon
      invariant Progress(bytes, after) == Driving(bytes) && trace <= after && Done(after) == Done(trace)
      invariant forall c :: 0 <= c < calls ==> !device.empty(c)
    {
      var empty := device.empty(calls);
      ProgressStep(bytes, after, PollEmpty(empty));
      DoneStep(after, PollEmpty(empty));
      after := after + [PollEmpty(empty)];
      if empty {
        return Returned, after;
      }
    }
    return Running, after;
  }

  /** Flushes the echo; the retry is bounded by the number of bytes, not of attempts. */
  method FlushEcho(device: Device, bytes: seq<Byte>, trace: seq<Event>, horizon: nat)
    returns (outcome: Outcome, after: seq<Event>)
    requires Progress(bytes, trace).Released?
    ensures var emptied := Progress(bytes, trace).emptied;
      Progress(bytes, after) == if outcome.Returned? then Flushed(emptied) else Released(emptied)
    ensures trace <= after && Done(after) == Done(trace)
    ensures outcome.Returned? <==> FlushEnds(device, |bytes|, horizon, true)
    ensures outcome.Threw? <==> FlushEnds(device, |bytes|, horizon, false)
  {
    after := trace;
    for calls := 0 to horizon
      invariant forall c :: 0 <= c < calls ==> Repeats(device.flush(c), |bytes|)
      invariant Progress(bytes, after) == Progress(bytes, trace) && trace <= after && Done(after) == Done(trace)
    {
      var answer := device.flush(calls);
      var ok := answer.rc == 0;
      ProgressStep(bytes, after, FlushInput(ok));
      DoneStep(after, FlushInput(ok));
      after := after + [FlushInput(ok)];
      if ok {
        return Returned, after;
      }
      if !(answer.eintr && |bytes| < 5) {
        return Threw, after;
      }
    }
    return Running, after;
  }

  /** DTR is set and the other lines are as they were. */
  function Raised(lines: bv32): (bits: bv32)
    ensures DtrUp(bits)
    ensures bits & !DTR == lines & !DTR
  {
    lines | DTR
  }

  function Lowered(lines: bv32): (bits: bv32)
    ensures !DtrUp(bits)
    ensures bits & !DTR == lines & !DTR
  {
    lines & !DTR
  }

  /** What TIOCMGET leaves in its argument. */
  function Queried(answer: Option<bv32>, argument: bv32): bv32 {
    if answer.Some? then answer.value else argument
  }

  /** What is asked of the lines before the bytes, and after them. */
  function Claim(device: Device): bv32 {
    Raised(Queried(device.linesBefore, 0))
  }

  function Release(device: Device): bv32 {
    Lowered(Queried(device.linesAfter, if device.lsr then TEMT else device.last))
  }

  /** The end of a send: wait, lower DTR, flush. */
  method Finish(device: Device, bytes: seq<Byte>, trace: seq<Event>, horizon: nat)
    returns (outcome: Outcome, after: seq<Event>)
    requires Progress(bytes, trace) == Driving(bytes)
    ensures !Progress(bytes, after).Broken? && trace <= after
    ensures Done(trace) <= Done(after) <= Done(trace) + [(Release(device), device.lowers)]
    ensures outcome.Returned? ==> Progress(bytes, after) == Flushed(device.lsr)
    ensures outcome.Returned? <==> (device.lsr ==> Empties(device, horizon)) && FlushEnds(device, |bytes|, horizon, true)
    ensures outcome.Threw? <==> (device.lsr ==> Empties(device, horizon)) && FlushEnds(device, |bytes|, horizon, false)
  {
    outcome, after := Returned, trace;
    if device.lsr {
      outcome, after := AwaitEmpty(device, bytes, trace, horizon);
    }
    if outcome.Returned? {
      var release := SetLines(Release(device), device.lowers);
      ProgressStep(bytes, after, release);
      DoneStep(after, release);
      after := after + [release];
      outcome, after := FlushEcho(device, bytes, after, horizon);
    }
  }

  /** In every run, finished or not, the calls made so far follow the protocol; a send that
      returns has gone through all of it, with exactly the requested bytes, has seen the
      transmitter empty before the release exactly when the system can tell, and has held and
      released the line exactly when the two requests to set it had their effect. */
  method WriteArray(device: Device, body: seq<Byte>, offset: nat, count: nat, horizon: nat)
    returns (outcome: Outcome, trace: seq<Event>)
    requires offset + count <= |body|
    ensures [SetLines(Claim(device), device.raises)] <= trace
    ensures Done(trace) <= [(Claim(device), device.raises), (Release(device), device.lowers)]
    ensures !Progress(body[offset..offset + count], trace).Broken?
    ensures outcome.Returned? ==> Progress(body[offset..offset + count], trace) == Flushed(device.lsr)
    ensures outcome.Returned? <==> Completes(device, count, horizon, true)
    ensures outcome.Threw? <==> SendFails(device, count, horizon) || Completes(device, count, horizon, false)
    ensures Held(device.dtr, trace) <==> device.dtr || device.raises || Written(trace) == []
    ensures outcome.Returned? ==>
      (Held(device.dtr, trace) && !LineUp(device.dtr, trace) <==>
        if device.dtr || device.raises then device.lowers else count == 0)
  {
    var bytes := CopyOut(body, offset, count);
    var claim := SetLines(Claim(device), device.raises);
    ProgressStep(bytes, [], claim);
    DoneStep([], claim);
    trace := [] + [claim];
    outcome, trace := SendAll(device, bytes, trace, horizon);
    if outcome.Returned? {
      outcome, trace := Finish(device, bytes, trace, horizon);
    }
    PhaseTellsLine(bytes, trace, device.dtr);
    if outcome.Returned? {
      SendHoldsLine(bytes, trace, device.dtr);
    }
  }

  /** A device that takes everything at once, is empty at once and flushes at once. */
  lemma PromptSend(device: Device, size: nat, horizon: nat)
    requires horizon >= 1 && device.write(0).rc >= size && device.empty(0) && device.flush(0).rc == 0
    ensures Completes(device, size, horizon, true)
  {
    assert SentBy(device, size, 1) == if size > 0 then size else SentBy(device, size, 1);
    SentGrows(device, size, 1, horizon);
  }

  /** From five bytes on a failed flush is not repeated, interrupted or not. */
  lemma LongSendFlushesOnce(device: Device, size: nat, horizon: nat)
    requires size >= 5 && horizon >= 1 && device.flush(0).rc != 0
    ensures FlushEnds(device, size, horizon, false)
  {
    assert !Repeats(device.flush(0), size);
  }

  /** Up to four bytes an interrupted flush is repeated. */
  lemma ShortSendFlushesAgain(device: Device, size: nat, horizon: nat)
    requires size < 5 && horizon >= 2 && device.flush(0).rc != 0 && device.flush(0).eintr && device.flush(1).rc == 0
    ensures FlushEnds(device, size, horizon, true)
  {
    assert !Repeats(device.flush(1), size) && Repeats(device.flush(0), size);
  }
}
