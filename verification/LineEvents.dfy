/**
  How the event loop of native/src/SerialImp.c turns what it samples into events:
  `check_cgi_count` compares wrapping error counters, `check_tiocmget_changes` compares
  modem lines.
 */
module LineEvents {
  import opened Options

  const WRAP: int := 0x1_0000_0000

  type Counter = n: int | 0 <= n < WRAP witness 0

  datatype Fault = Frame | Overrun | Parity | Break

  datatype Line = CTS | DSR | RI | CD

  datatype Event = Error(fault: Fault) | Change(line: Line, high: bool)

  datatype Counters = Counters(frame: Counter, overrun: Counter, parity: Counter, brk: Counter)

  /** How far a wrapping counter has moved from `a` to `b`. */
  function Moved(a: Counter, b: Counter): nat {
    if a <= b then b - a else b - a + WRAP
  }

  function Repeated(e: Event, n: nat): seq<Event> {
    seq(n, _ => e)
  }

  /** The events of one successful poll of the counters. */
  function FaultEvents(was: Counters, now: Counters): seq<Event> {
    Repeated(Error(Frame), Moved(was.frame, now.frame)) +
    Repeated(Error(Overrun), Moved(was.overrun, now.overrun)) +
    Repeated(Error(Parity), Moved(was.parity, now.parity)) +
    Repeated(Error(Break), Moved(was.brk, now.brk))
  }

  // ---- Modem lines ------------------------------------------------------------------

  function Mask(line: Line): bv32 {
    match line
    case CTS => 0x20
    case DSR => 0x100
    case RI => 0x80
    case CD => 0x40
  }

  predicate High(flags: bv32, line: Line) {
    flags & Mask(line) != 0
  }

  /** The event for a line that went from one level to another, if it did. */
  function Edge(line: Line, before: bool, after: bool): seq<Event> {
    if before == after then [] else [Change(line, after)]
  }

  /** The levels of the four lines. */
  datatype Levels = Levels(cts: bool, dsr: bool, ri: bool, cd: bool) {
    function Of(line: Line): bool {
      match line
      case CTS => cts
      case DSR => dsr
      case RI => ri
      case CD => cd
    }
  }

  function LevelsOf(flags: bv32): Levels {
    Levels(High(flags, CTS), High(flags, DSR), High(flags, RI), High(flags, CD))
  }

  /** The events of one successful poll of the lines. */
  function LineChanges(was: Levels, now: Levels): seq<Event> {
    Edge(CTS, was.cts, now.cts) + Edge(DSR, was.dsr, now.dsr) + Edge(RI, was.ri, now.ri) + Edge(CD, was.cd, now.cd)
  }

  lemma ConcatFour<T>(s: seq<T>, a: seq<T>, b: seq<T>, c: seq<T>, d: seq<T>)
    ensures s + a + b + c + d == s + (a + b + c + d)
  {
  }

  class Monitor {
    var osis: Counters
    var omflags: bv32
    var sent: seq<Event>

    constructor (counters: Counters, flags: bv32)
      ensures osis == counters && omflags == flags && sent == []
    {
      osis, omflags, sent := counters, flags, [];
    }

    /** One counting loop: an event and an increment until the counters agree.  The
        remaining distance around the circle shrinks by one each time. */
    method CountUp(from: Counter, to: Counter, fault: Fault)
      modifies this`sent
      ensures sent == old(sent) + Repeated(Error(fault), Moved(from, to))
    {
      var n: Counter := from;
      ghost var done := 0;
      while n != to
        invariant 0 <= done <= Moved(from, to)
        invariant Moved(n, to) == Moved(from, to) - done
        invariant sent == old(sent) + Repeated(Error(fault), done)
        decreases Moved(n, to)
      {
        sent := sent + [Error(fault)];
        n := (n + 1) % WRAP;
        done := done + 1;
      }
    }

    /** A poll of the counters; `None` when the ioctl fails. */
    method CheckCgiCount(sample: Option<Counters>)
      modifies this`osis, this`sent
      ensures sample.None? ==> osis == old(osis) && sent == old(sent)
      ensures sample.Some? ==> osis == sample.value && sent == old(sent) + FaultEvents(old(osis), sample.value)
    {
      if sample.None? {
        return;
      }
      var sis := sample.value;
      CountUp(osis.frame, sis.frame, Frame);
      CountUp(osis.overrun, sis.overrun, Overrun);
      CountUp(osis.parity, sis.parity, Parity);
      CountUp(osis.brk, sis.brk, Break);
      osis := sis;
    }

    /** `send_event` takes the difference of the masked flags as a signed number. */
    method SendChange(line: Line, mflags: bv32)
      modifies this`sent
      ensures sent == old(sent) + Edge(line, High(omflags, line), High(mflags, line))
    {
      var change: bv32 := (mflags & Mask(line)) - (omflags & Mask(line));
      if change != 0 {
        var positive := change < 0x8000_0000;
        sent := sent + [Change(line, positive)];
      }
    }

    /** A poll of the modem lines; `None` when the ioctl fails. */
    method CheckTiocmgetChanges(sample: Option<bv32>)
      modifies this`omflags, this`sent
      ensures sample.None? ==> omflags == old(omflags) && sent == old(sent)
      ensures sample.Some? ==> omflags == sample.value
      ensures sample.Some? ==> sent == old(sent) + LineChanges(LevelsOf(old(omflags)), LevelsOf(sample.value))
    {
      if sample.None? {
        return;
      }
      var mflags := sample.value;
      ghost var was, now := LevelsOf(omflags), LevelsOf(mflags);
      SendChange(CTS, mflags);
      SendChange(DSR, mflags);
      SendChange(RI, mflags);
      SendChange(CD, mflags);
      ConcatFour(old(sent), Edge(CTS, was.cts, now.cts), Edge(DSR, was.dsr, now.dsr),
                 Edge(RI, was.ri, now.ri), Edge(CD, was.cd, now.cd));
      omflags := mflags;
    }
  }

  // ---- Error counters over any sequence of polls ------------------------------------

  /** How many faults of each kind have really happened; the device shows them wrapped. */
  datatype Totals = Totals(frame: nat, overrun: nat, parity: nat, brk: nat) {
    function Of(f: Fault): nat {
      match f
      case Frame => frame
      case Overrun => overrun
      case Parity => parity
      case Break => brk
    }

    function Wrapped(): Counters {
      Counters(frame % WRAP, overrun % WRAP, parity % WRAP, brk % WRAP)
    }
  }

  /** The events of a run of polls, each of which may fail. */
  function PollEvents(osis: Counters, polls: seq<Option<Totals>>): seq<Event>
    decreases |polls|
  {
    if polls == [] then []
    else match polls[0]
      case None => PollEvents(osis, polls[1..])
      case Some(t) => FaultEvents(osis, t.Wrapped()) + PollEvents(t.Wrapped(), polls[1..])
  }

  /** The totals at the last poll that succeeded. */
  function LastSeen(start: Totals, polls: seq<Option<Totals>>): Totals
    decreases |polls|
  {
    if polls == [] then start
    else LastSeen(if polls[0].Some? then polls[0].value else start, polls[1..])
  }

  /** Faults never un-happen. */
  predicate Rising(start: Totals, polls: seq<Option<Totals>>)
    decreases |polls|
  {
    polls == [] ||
    match polls[0]
    case None => Rising(start, polls[1..])
    case Some(t) =>
      && start.frame <= t.frame && start.overrun <= t.overrun && start.parity <= t.parity && start.brk <= t.brk
      && Rising(t, polls[1..])
  }

  /** Between two polls that succeed, fewer than 2^32 faults of that kind happen. */
  predicate Keeps(start: Totals, polls: seq<Option<Totals>>, f: Fault)
    decreases |polls|
  {
    polls == [] ||
    match polls[0]
    case None => Keeps(start, polls[1..], f)
    case Some(t) => t.Of(f) - start.Of(f) < WRAP && Keeps(t, polls[1..], f)
  }

  lemma WrappedMove(a: nat, b: nat)
    requires a <= b
    ensures Moved(a % WRAP, b % WRAP) <= b - a
    ensures Moved(a % WRAP, b % WRAP) == b - a <==> b - a < WRAP
  {
  }

  lemma {:induction false} RepeatedCount(e: Event, n: nat)
    ensures multiset(Repeated(e, n)) == multiset{}[e := n]
  {
    if n > 0 {
      RepeatedCount(e, n - 1);
      assert Repeated(e, n) == Repeated(e, n - 1) + [e];
    }
  }

  lemma FaultEventsCount(was: Counters, now: Counters)
    ensures var m := multiset(FaultEvents(was, now));
      && m[Error(Frame)] == Moved(was.frame, now.frame)
      && m[Error(Overrun)] == Moved(was.overrun, now.overrun)
      && m[Error(Parity)] == Moved(was.parity, now.parity)
      && m[Error(Break)] == Moved(was.brk, now.brk)
  {
    RepeatedCount(Error(Frame), Moved(was.frame, now.frame));
    RepeatedCount(Error(Overrun), Moved(was.overrun, now.overrun));
    RepeatedCount(Error(Parity), Moved(was.parity, now.parity));
    RepeatedCount(Error(Break), Moved(was.brk, now.brk));
  }

  lemma CountConcat(a: seq<Event>, b: seq<Event>, e: Event)
    ensures multiset(a + b)[e] == multiset(a)[e] + multiset(b)[e]
  {
  }

  /** One successful poll reports no more than happened, and all of it unless the counter went
      once around. */
  lemma PollCount(start: Totals, t: Totals, f: Fault)
    requires start.frame <= t.frame && start.overrun <= t.overrun && start.parity <= t.parity && start.brk <= t.brk
    ensures var n := multiset(FaultEvents(start.Wrapped(), t.Wrapped()))[Error(f)];
      n <= t.Of(f) - start.Of(f) && (n == t.Of(f) - start.Of(f) <==> t.Of(f) - start.Of(f) < WRAP)
  {
    FaultEventsCount(start.Wrapped(), t.Wrapped());
    WrappedMove(start.Of(f), t.Of(f));
  }

  /** Over any sequence of polls, failed ones included, no fault is reported twice, and the
      events of a kind number exactly the faults of that kind since the start if and only
      if the counter never went once around between two polls that succeeded. */
  lemma {:induction false} EventsCountFaults(start: Totals, polls: seq<Option<Totals>>, f: Fault)
    requires Rising(start, polls)
    ensures var events := multiset(PollEvents(start.Wrapped(), polls))[Error(f)];
      var faults := LastSeen(start, polls).Of(f) - start.Of(f);
      events <= faults && (events == faults <==> Keeps(start, polls, f))
    decreases |polls|
  {
    if polls != [] {
      match polls[0]
      case None => EventsCountFaults(start, polls[1..], f);
      case Some(t) =>
        EventsCountFaults(t, polls[1..], f);
        PollCount(start, t, f);
        CountConcat(FaultEvents(start.Wrapped(), t.Wrapped()), PollEvents(t.Wrapped(), polls[1..]), Error(f));
    }
  }

  /** Which bit of the sampled flags tells which line: clear to send bit 5, carrier bit 6,
      ring bit 7, data set ready bit 8. */
  lemma LinesByBit(flags: bv32)
    ensures LevelsOf(flags).Of(CTS) <==> (flags >> 5) & 1 == 1
    ensures LevelsOf(flags).Of(CD) <==> (flags >> 6) & 1 == 1
    ensures LevelsOf(flags).Of(RI) <==> (flags >> 7) & 1 == 1
    ensures LevelsOf(flags).Of(DSR) <==> (flags >> 8) & 1 == 1
  {
    BitFive(flags);
    BitSix(flags);
    BitSeven(flags);
    BitEight(flags);
  }

  lemma BitFive(flags: bv32)
    ensures High(flags, CTS) <==> (flags >> 5) & 1 == 1
  {
  }

  lemma BitSix(flags: bv32)
    ensures High(flags, CD) <==> (flags >> 6) & 1 == 1
  {
  }

  lemma BitSeven(flags: bv32)
    ensures High(flags, RI) <==> (flags >> 7) & 1 == 1
  {
  }

  lemma BitEight(flags: bv32)
    ensures High(flags, DSR) <==> (flags >> 8) & 1 == 1
  {
  }

  // ---- Modem lines over any sequence of polls ----------------------------------------

  function LineEventsOf(omflags: bv32, polls: seq<Option<bv32>>): seq<Event>
    decreases |polls|
  {
    if polls == [] then []
    else match polls[0]
      case None => LineEventsOf(omflags, polls[1..])
      case Some(m) => LineChanges(LevelsOf(omflags), LevelsOf(m)) + LineEventsOf(m, polls[1..])
  }

  function LastFlags(omflags: bv32, polls: seq<Option<bv32>>): bv32
    decreases |polls|
  {
    if polls == [] then omflags
    else LastFlags(if polls[0].Some? then polls[0].value else omflags, polls[1..])
  }

  /** The values one line's listener receives, in order. */
  function Stream(events: seq<Event>, line: Line): seq<bool> {
    if events == [] then [] else Told(events[0], line) + Stream(events[1..], line)
  }

  /** What one event tells about a line. */
  function Told(e: Event, line: Line): seq<bool> {
    if e.Change? && e.line == line then [e.high] else []
  }

  /** Each value differs from the one before, the first from the initial one. */
  predicate Alternates(initial: bool, stream: seq<bool>)
    decreases |stream|
  {
    stream == [] || (stream[0] != initial && Alternates(stream[0], stream[1..]))
  }

  /** What a listener that replays the stream believes the line to be. */
  function Replay(initial: bool, stream: seq<bool>): bool {
    if stream == [] then initial else stream[|stream| - 1]
  }

  lemma Associates(a: seq<bool>, b: seq<bool>, c: seq<bool>)
    ensures a + (b + c) == (a + b) + c
  {
  }

  lemma {:induction false} StreamConcat(a: seq<Event>, b: seq<Event>, line: Line)
    ensures Stream(a + b, line) == Stream(a, line) + Stream(b, line)
  {
    if a == [] {
      assert a + b == b;
    } else {
      StreamConcat(a[1..], b, line);
      assert (a + b)[1..] == a[1..] + b;
      Associates(Told(a[0], line), Stream(a[1..], line), Stream(b, line));
    }
  }

  /** What the edge of one line tells about another. */
  function EdgeTells(of: Line, before: bool, after: bool, line: Line): seq<bool> {
    if of == line && before != after then [after] else []
  }

  lemma StreamOfEdge(of: Line, before: bool, after: bool, line: Line)
    ensures Stream(Edge(of, before, after), line) == EdgeTells(of, before, after, line)
  {
    assert Edge(of, before, after) != [] ==> Edge(of, before, after)[1..] == [];
  }

  lemma StreamOfPair(a: seq<Event>, b: seq<Event>, line: Line, x: seq<bool>, y: seq<bool>)
    requires Stream(a, line) == x && Stream(b, line) == y
    ensures Stream(a + b, line) == x + y
  {
    StreamConcat(a, b, line);
  }

  function AllTell(was: Levels, now: Levels, line: Line): seq<bool> {
    EdgeTells(CTS, was.cts, now.cts, line) + EdgeTells(DSR, was.dsr, now.dsr, line)
    + EdgeTells(RI, was.ri, now.ri, line) + EdgeTells(CD, was.cd, now.cd, line)
  }

  lemma StreamOfEdges(was: Levels, now: Levels, line: Line)
    ensures Stream(LineChanges(was, now), line) == AllTell(was, now, line)
  {
    StreamOfEdge(CTS, was.cts, now.cts, line);
    StreamOfEdge(DSR, was.dsr, now.dsr, line);
    StreamOfEdge(RI, was.ri, now.ri, line);
    StreamOfEdge(CD, was.cd, now.cd, line);
    var a, b := Edge(CTS, was.cts, now.cts), Edge(DSR, was.dsr, now.dsr);
    var c, d := Edge(RI, was.ri, now.ri), Edge(CD, was.cd, now.cd);
    var ta, tb := EdgeTells(CTS, was.cts, now.cts, line), EdgeTells(DSR, was.dsr, now.dsr, line);
    var tc, td := EdgeTells(RI, was.ri, now.ri, line), EdgeTells(CD, was.cd, now.cd, line);
    StreamOfPair(a, b, line, ta, tb);
    StreamOfPair(a + b, c, line, ta + tb, tc);
    StreamOfPair(a + b + c, d, line, ta + tb + tc, td);
  }

  lemma OneTells(was: Levels, now: Levels, line: Line)
    ensures AllTell(was, now, line) == if was.Of(line) == now.Of(line) then [] else [now.Of(line)]
  {
    match line
    case CTS =>
    case DSR =>
    case RI =>
    case CD =>
  }

  lemma StreamOfChanges(was: Levels, now: Levels, line: Line)
    ensures Stream(LineChanges(was, now), line) == if was.Of(line) == now.Of(line) then [] else [now.Of(line)]
  {
    StreamOfEdges(was, now, line);
    OneTells(was, now, line);
  }

  /** Putting one poll's change in front of a stream that continues from the new level. */
  lemma ConsStream(before: bool, after: bool, rest: seq<bool>)
    requires Alternates(after, rest)
    ensures var stream := (if before == after then [] else [after]) + rest;
      Alternates(before, stream) && Replay(before, stream) == Replay(after, rest)
  {
    var stream := (if before == after then [] else [after]) + rest;
    if before == after {
      assert stream == rest;
    } else {
      assert stream[1..] == rest;
    }
  }

  /** Over any sequence of polls the events of each line alternate, and replaying them from
      the initial state gives the state of the last poll that succeeded. */
  lemma {:induction false} StreamsReplay(omflags: bv32, polls: seq<Option<bv32>>, line: Line)
    ensures var stream := Stream(LineEventsOf(omflags, polls), line);
      && Alternates(LevelsOf(omflags).Of(line), stream)
      && Replay(LevelsOf(omflags).Of(line), stream) == LevelsOf(LastFlags(omflags, polls)).Of(line)
    decreases |polls|
  {
    if polls != [] {
      match polls[0]
      case None => StreamsReplay(omflags, polls[1..], line);
      case Some(m) =>
        StreamsReplay(m, polls[1..], line);
        var was, now := LevelsOf(omflags), LevelsOf(m);
        StreamOfChanges(was, now, line);
        StreamConcat(LineChanges(was, now), LineEventsOf(m, polls[1..]), line);
        ConsStream(was.Of(line), now.Of(line), Stream(LineEventsOf(m, polls[1..]), line));
    }
  }
}
