/**
  The bounded read loop `read_byte_array` of native/src/SerialImp.c.  What select, read
  and the clock answer in each round is given by a function of the round, so a contract
  holds for every sequence of answers.
 */
module ReadBytes {
  import opened Options

  type Byte = x: int | 0 <= x < 256

  const MAX_ROUNDS := 20

  datatype TimeVal = TimeVal(sec: int, usec: int)

  /** One round: the tick count, what select returns once it is not interrupted, and what
      read returns: negative for an error, otherwise how many bytes it would hand over. */
  datatype Round = Round(now: int, select: int, read: int)

  /** How many bytes the rounds before k offer. */
  function Offered(round: nat -> Round, k: nat): nat {
    if k == 0 then 0 else Offered(round, k - 1) + Gain(round(k - 1))
  }

  function Gain(r: Round): nat {
    if r.select > 0 && r.read > 0 then r.read else 0
  }

  function Least(a: int, b: int, c: int): (m: int)
    ensures m <= a && m <= b && m <= c && (m == a || m == b || m == c)
  {
    var ab := if a <= b then a else b;
    if ab <= c then ab else c
  }

  /** A port delivers the bytes of `stream` in order; `pos` of them have been read. */
  class Port {
    const stream: seq<Byte>
    var pos: nat

    ghost predicate Valid()
      reads this
    {
      pos <= |stream|
    }

    constructor (stream: seq<Byte>)
      ensures Valid() && this.stream == stream && pos == 0
    {
      this.stream, this.pos := stream, 0;
    }

    /** `read` into `buffer` from `at`: at most `left` bytes, and no more than there are. */
    method Read(buffer: array<Byte>, at: nat, left: nat, offered: nat) returns (n: nat)
      requires Valid() && at + left <= buffer.Length
      modifies this, buffer
      ensures Valid() && n == Least(left, offered, |stream| - old(pos)) && pos == old(pos) + n
      ensures buffer[..] == old(buffer[..at]) + stream[old(pos)..pos] + old(buffer[at + n..])
    {
      n := if offered < left then offered else left;
      n := if n < |stream| - pos then n else |stream| - pos;
      forall k | at <= k < at + n {
        buffer[k] := stream[pos + k - at];
      }
      pos := pos + n;
      assert buffer[..at] == old(buffer[..at]);
      assert buffer[at..at + n] == stream[old(pos)..pos];
      assert buffer[at + n..] == old(buffer[at + n..]);
      assert buffer[..] == buffer[..at] + buffer[at..at + n] + buffer[at + n..];
    }
  }

  class EventFlags {
    var dataAvailable: int
  }

  /** The round after which the call returned reported an error. */
  predicate Failed(r: Round) {
    r.select == -1 || (r.select > 0 && r.read < 0)
  }

  predicate TimeIsUp(start: int, timeout: int, r: Round) {
    timeout >= 0 && r.now - start >= timeout
  }

  /** What may be handed to select: no limit, or the remaining time, which is positive. */
  predicate WaitOk(timeout: int, elapsed: int, wait: Option<TimeVal>) {
    if timeout < 0 then wait.None? else wait.Some? && Lasts(wait.value, timeout - elapsed)
  }

  /** A well-formed time of that many milliseconds, at least one. */
  predicate Lasts(tv: TimeVal, ms: int) {
    0 < ms && 0 <= tv.sec && 0 <= tv.usec < 1000000 && 1000000 * tv.sec + tv.usec == 1000 * ms
  }

  /** The limits passed to select so far, one per round. */
  predicate WaitsOk(timeout: int, start: int, round: nat -> Round, waits: seq<Option<TimeVal>>) {
    waits == [] ||
    var last := |waits| - 1;
    WaitsOk(timeout, start, round, waits[..last]) && WaitOk(timeout, round(last).now - start, waits[last])
  }

  /** A buffer into which the `k` bytes of the stream after `from` have been read. */
  ghost function Filled(was: seq<Byte>, stream: seq<Byte>, from: nat, k: nat): seq<Byte>
    requires from + k <= |stream| && k <= |was|
  {
    stream[from..from + k] + was[k..]
  }

  /** The bytes of the stream from `from` up to `to` are in the buffer, the rest is untouched. */
  ghost predicate Delivered(was: seq<Byte>, stream: seq<Byte>, from: nat, to: nat, now: seq<Byte>) {
    from <= to <= |stream| && to - from <= |was| && now == Filled(was, stream, from, to - from)
  }

  /** A read that goes on where the last one stopped. */
  lemma Continued(was: seq<Byte>, stream: seq<Byte>, from: nat, k: nat, n: nat)
    requires from + k + n <= |stream| && k + n <= |was|
    ensures var b := Filled(was, stream, from, k);
      b[..k] + stream[from + k..from + k + n] + b[k + n..] == Filled(was, stream, from, k + n)
  {
    var b := Filled(was, stream, from, k);
    assert b[..k] == stream[from..from + k];
    assert b[k + n..] == was[k + n..];
    assert stream[from..from + k] + stream[from + k..from + k + n] == stream[from..from + k + n];
  }

  method ReadMore(port: Port, buffer: array<Byte>, bytes: nat, left: nat, offered: nat,
                  ghost was: seq<Byte>, ghost from: nat)
    returns (n: nat)
    requires port.Valid() && bytes + left <= buffer.Length == |was| && port.pos == from + bytes
    requires Delivered(was, port.stream, from, port.pos, buffer[..])
    modifies port, buffer
    ensures port.Valid() && n == Least(left, offered, |port.stream| - from - bytes) && port.pos == from + bytes + n
    ensures Delivered(was, port.stream, from, port.pos, buffer[..])
  {
    ghost var before := buffer[..];
    assert before == Filled(was, port.stream, from, bytes);
    n := port.Read(buffer, bytes, left, offered);
    assert old(buffer[..bytes]) == before[..bytes] && old(buffer[bytes + n..]) == before[bytes + n..];
    Continued(was, port.stream, from, bytes, n);
    assert buffer[..] == Filled(was, port.stream, from, bytes + n);
  }

  /** What has been taken after one more offer: as much as was asked for, is there and was
      offered in all. */
  lemma TakenInAll(length: int, there: int, offered: nat, more: nat, bytes: nat, n: nat)
    requires bytes == Least(length, there, offered)
    requires n == Least(length - bytes, more, there - bytes)
    ensures bytes + n == Least(length, there, offered + more)
  {
  }

  /** The time limit for select. */
  function Limit(timeout: int, elapsed: int): (wait: Option<TimeVal>)
    requires timeout >= 0 ==> elapsed < timeout
    ensures WaitOk(timeout, elapsed, wait)
  {
    if timeout < 0 then None
    else
      var timeLeft := timeout - elapsed;
      Some(TimeVal(timeLeft / 1000, 1000 * (timeLeft % 1000)))
  }

  lemma WaitsGrow(timeout: int, start: int, round: nat -> Round, waits: seq<Option<TimeVal>>, wait: Option<TimeVal>)
    requires WaitsOk(timeout, start, round, waits) && WaitOk(timeout, round(|waits|).now - start, wait)
    ensures WaitsOk(timeout, start, round, waits + [wait])
  {
    assert (waits + [wait])[..|waits|] == waits;
  }

  /** Each limit by itself. */
  lemma {:induction false} EachWaitOk(timeout: int, start: int, round: nat -> Round, waits: seq<Option<TimeVal>>, i: nat)
    requires WaitsOk(timeout, start, round, waits) && i < |waits|
    ensures WaitOk(timeout, round(i).now - start, waits[i])
    decreases |waits|
  {
    if i < |waits| - 1 {
      EachWaitOk(timeout, start, round, waits[..|waits| - 1], i);
    }
  }

  /** How a round ends: the time is up before select, select or read fails, or it goes on. */
  datatype Verdict = Expired | Broken | GoesOn

  function VerdictOf(timeout: int, start: int, r: Round): Verdict {
    if TimeIsUp(start, timeout, r) then Expired else if Failed(r) then Broken else GoesOn
  }

  /** The `bytes` read so far are the next ones of the port, as many as were asked for, are
      there and were offered. */
  ghost predicate Going(port: Port, buffer: array<Byte>, length: nat, bytes: nat,
                        was: seq<Byte>, from: nat, offered: nat)
    reads port, buffer
  {
    && port.Valid() && port.pos == from + bytes && length <= buffer.Length == |was|
    && Delivered(was, port.stream, from, port.pos, buffer[..])
    && bytes == Least(length, |port.stream| - from, offered)
  }

  /** One round. */
  method OneRound(port: Port, buffer: array<Byte>, length: nat, bytes: nat, left: nat, timeout: int, start: int, r: Round,
                  ghost was: seq<Byte>, ghost from: nat, ghost offered: nat)
    returns (verdict: Verdict, n: nat, wait: Option<TimeVal>)
    requires Going(port, buffer, length, bytes, was, from, offered) && left == length - bytes
    modifies port, buffer
    ensures verdict == VerdictOf(timeout, start, r) && n <= left
    ensures Going(port, buffer, length, bytes + n, was, from, if verdict.GoesOn? then offered + Gain(r) else offered)
    ensures !verdict.Expired? ==> WaitOk(timeout, r.now - start, wait)
    ensures !verdict.GoesOn? ==> n == 0
  {
    n, wait := 0, None;
    if timeout >= 0 && r.now - start >= timeout {
      return Expired, 0, None;
    }
    wait := Limit(timeout, r.now - start);
    if r.select == -1 {
      return Broken, 0, wait;
    } else if r.select > 0 {
      if r.read < 0 {
        return Broken, 0, wait;
      }
      n := ReadMore(port, buffer, bytes, left, r.read, was, from);
      TakenInAll(length, |port.stream| - from, offered, r.read, bytes, n);
    }
    verdict := GoesOn;
  }

  /** Everything but the data-available flag: the loop of rounds. */
  method ReadRounds(port: Port, buffer: array<Byte>, length: nat, timeout: int, start: int, round: nat -> Round,
                    ghost was: seq<Byte>, ghost from: nat)
    returns (result: int, waits: seq<Option<TimeVal>>, ghost taken: nat)
    requires Going(port, buffer, length, 0, was, from, 0)
    modifies port, buffer
    ensures Going(port, buffer, length, taken, was, from, Offered(round, |waits|))
    ensures Ends(result, taken, length, timeout, start, round, waits)
  {
    var bytes, left, count := 0, length, 0;
    waits := [];
    while bytes < length && count < MAX_ROUNDS
      invariant left == length - bytes && Going(port, buffer, length, bytes, was, from, Offered(round, count))
      invariant 0 <= count == |waits| <= MAX_ROUNDS && WaitsOk(timeout, start, round, waits)
      invariant waits != [] ==> !Failed(round(|waits| - 1))
    {
      var verdict, n, wait := OneRound(port, buffer, length, bytes, left, timeout, start, round(count),
                                       was, from, Offered(round, count));
      if verdict.Expired? {
        return bytes, waits, bytes;
      }
      WaitsGrow(timeout, start, round, waits, wait);
      waits := waits + [wait];
      count := count + 1;
      if verdict.Broken? {
        return -1, waits, bytes;
      }
      bytes := bytes + n;
      left := left - n;
    }
    return bytes, waits, bytes;
  }

  /** When it fails, when it stops early, and what it returns otherwise. */
  predicate Ends(result: int, taken: int, length: nat, timeout: int, start: int,
                 round: nat -> Round, waits: seq<Option<TimeVal>>) {
    && |waits| <= MAX_ROUNDS && WaitsOk(timeout, start, round, waits)
    && (result == -1 <==> waits != [] && Failed(round(|waits| - 1)))
    && (result != -1 ==> result == taken)
    && (0 <= result < length ==> |waits| == MAX_ROUNDS || TimeIsUp(start, timeout, round(|waits|)))
  }

  /** Reads up to `length` bytes; -1 on failure.  `waits` are the time limits passed to
      select, one per round that got that far. What is taken from the port is as much as was
      asked for, is there and was offered in those rounds. */
  method ReadByteArray(port: Port, eis: EventFlags, buffer: array<Byte>, length: int, timeout: int,
                       start: int, round: nat -> Round)
    returns (result: int, waits: seq<Option<TimeVal>>)
    requires port.Valid() && length <= buffer.Length
    modifies port, eis, buffer
    ensures port.Valid() && Delivered(old(buffer[..]), port.stream, old(port.pos), port.pos, buffer[..])
    ensures length >= 0 ==>
      port.pos - old(port.pos) == Least(length, |port.stream| - old(port.pos), Offered(round, |waits|))
    ensures length >= 0 ==> Ends(result, port.pos - old(port.pos), length, timeout, start, round, waits)
    ensures length < 0 ==> result == 0 && waits == [] && port.pos == old(port.pos)
    ensures eis.dataAvailable == old(eis.dataAvailable)
  {
    var flag := eis.dataAvailable;
    eis.dataAvailable := 0;
    if length < 0 {
      result, waits := 0, [];
    } else {
      ghost var taken;
      result, waits, taken := ReadRounds(port, buffer, length, timeout, start, round, buffer[..], port.pos);
    }
    eis.dataAvailable := flag;
  }
}
