/**
  The text side of the locks: the pid line in a lock file, the readers that get it back,
  the name of the lock file, and the requests the lock daemon parses
  (native/src/SerialImp.c, native/src/lfd/lockdaemon.c).
 */
module LockText {

  // ---- printf and atoi --------------------------------------------------------------

  function Digit(d: nat): char
    requires d < 10
  {
    '0' + d as char
  }

  predicate IsDigit(c: char) {
    '0' <= c <= '9'
  }

  /** Decimal digits without leading zeros. */
  function Digits(n: nat): (s: string)
    ensures s != [] && forall c :: c in s ==> IsDigit(c)
  {
    if n < 10 then [Digit(n)] else Digits(n / 10) + [Digit(n % 10)]
  }

  /** `%d` and `%i`. */
  function PrintInt(n: int): string {
    if n < 0 then "-" + Digits(-n) else Digits(n)
  }

  function Spaces(n: nat): (s: string)
    ensures |s| == n && forall c :: c in s ==> c == ' '
  {
    if n == 0 then [] else [' '] + Spaces(n - 1)
  }

  /** The line written into a lock file: `%10d\\n`. */
  function LockLine(pid: nat): string {
    var d := Digits(pid);
    (if |d| < 10 then Spaces(10 - |d|) else []) + d + ['\n']
  }

  predicate IsSpace(c: char) {
    c == ' ' || '\t' <= c <= '\r'
  }

  function SkipSpace(s: string): string {
    if s != [] && IsSpace(s[0]) then SkipSpace(s[1..]) else s
  }

  /** Folds digits onto `acc` until the first other character. */
  function Value(s: string, acc: nat): nat
    decreases |s|
  {
    if s == [] || !IsDigit(s[0]) then acc
    else Value(s[1..], 10 * acc + (s[0] - '0') as nat)
  }

  /** `atoi`, `atol` and `sscanf("%d")` on text that fits an int. */
  function Atoi(s: string): int {
    var t := SkipSpace(s);
    if t != [] && t[0] == '-' then -(Value(t[1..], 0) as int)
    else if t != [] && t[0] == '+' then Value(t[1..], 0)
    else Value(t, 0)
  }

  /** The digits of `n` fold back to `n`, and the fold goes on with what follows. */
  lemma {:induction false} ValueOfDigits(n: nat, rest: string)
    ensures Value(Digits(n) + rest, 0) == Value(rest, n)
    decreases n
  {
    if n < 10 {
      assert Value([Digit(n)] + rest, 0) == Value(rest, n);
    } else {
      var more := [Digit(n % 10)] + rest;
      ValueOfDigits(n / 10, more);
      assert Digits(n) + rest == Digits(n / 10) + more;
      assert more[1..] == rest;
    }
  }

  lemma {:induction false} SkipSpaces(k: nat, s: string)
    requires s != [] && !IsSpace(s[0])
    ensures SkipSpace(Spaces(k) + s) == s
  {
    if k == 0 {
      assert Spaces(0) + s == s;
    } else {
      SkipSpaces(k - 1, s);
      assert (Spaces(k) + s)[1..] == Spaces(k - 1) + s;
    }
  }

  lemma TextOfNat(n: nat, rest: string)
    requires rest == [] || !IsDigit(rest[0])
    ensures var s := Digits(n) + rest;
      IsDigit(s[0]) && Value(s, 0) == n
  {
    ValueOfDigits(n, rest);
    assert Digits(n)[0] in Digits(n) && (Digits(n) + rest)[0] == Digits(n)[0];
  }

  lemma TextOfPrinted(n: int, rest: string)
    requires rest == [] || !IsDigit(rest[0])
    ensures var s := PrintInt(n) + rest;
      !IsSpace(s[0]) && (s[0] == '-' <==> n < 0) && s[0] != '+' &&
      Value(if n < 0 then s[1..] else s, 0) == if n < 0 then -n else n
  {
    var d := Digits(if n < 0 then -n else n);
    TextOfNat(if n < 0 then -n else n, rest);
    assert ("-" + d + rest)[0] == '-' && ("-" + d + rest)[1..] == d + rest;
  }

  /** Padded and followed by anything but a digit, a printed number reads back. */
  lemma AtoiOfPrinted(k: nat, n: int, rest: string)
    requires rest == [] || !IsDigit(rest[0])
    ensures Atoi(Spaces(k) + PrintInt(n) + rest) == n
  {
    var s := PrintInt(n) + rest;
    assert Spaces(k) + PrintInt(n) + rest == Spaces(k) + s;
    TextOfPrinted(n, rest);
    SkipSpaces(k, s);
  }

  /** A sign in front is understood, and text without digits reads as 0. */
  lemma SignedText(n: nat)
    ensures Atoi("+" + Digits(n)) == n && Atoi("-" + Digits(n)) == -(n as int) && Atoi("") == 0
  {
    ValueOfDigits(n, []);
    assert Digits(n) + [] == Digits(n);
    assert ("+" + Digits(n))[1..] == Digits(n) && ("-" + Digits(n))[1..] == Digits(n);
  }

  // ---- The pid line -----------------------------------------------------------------

  function Pow10(k: nat): nat {
    if k == 0 then 1 else 10 * Pow10(k - 1)
  }

  lemma {:induction false} DigitCount(n: nat, k: nat)
    requires 0 < k && n < Pow10(k)
    ensures |Digits(n)| <= k
    decreases k
  {
    if n >= 10 {
      DigitCount(n / 10, k - 1);
    }
  }

  lemma PaddedLine(pad: string, d: string, i: nat)
    requires |pad| + |d| == 10 && i < 11
    ensures (pad + d + ['\n'])[i] == if i < |pad| then pad[i] else if i < 10 then d[i - |pad|] else '\n'
  {
  }

  /** Character by character: blanks, the digits of the pid, a newline. */
  lemma LockLineLooks(pid: nat, i: nat)
    requires pid < 0x8000_0000 && i < 11
    ensures |Digits(pid)| <= 10 && |LockLine(pid)| == 11
    ensures var pad := 10 - |Digits(pid)|;
      LockLine(pid)[i] == if i < pad then ' ' else if i < 10 then Digits(pid)[i - pad] else '\n'
  {
    DigitCount(pid, 10);
    var pad := Spaces(10 - |Digits(pid)|);
    PaddedLine(pad, Digits(pid), i);
    if i < |pad| {
      assert pad[i] in pad;
    }
  }

  /** Every pid of a 31-bit system prints to exactly eleven bytes, and both readers get it
      back: `check_lock_pid` ends the eleven bytes with a NUL, `is_device_locked` leaves
      whatever its buffer held behind them. */
  lemma LockLineRoundTrip(pid: nat, junk: string)
    requires pid < 0x8000_0000
    ensures |LockLine(pid)| == 11
    ensures Atoi(LockLine(pid) + junk) == pid
  {
    DigitCount(pid, 10);
    var d := Digits(pid);
    var k := 10 - |d|;
    AtoiOfPrinted(k, pid, ['\n'] + junk);
    assert LockLine(pid) + junk == Spaces(k) + PrintInt(pid) + (['\n'] + junk);
  }

  // ---- The name of the lock file -----------------------------------------------------

  /** What follows the last '/', or the whole path when there is none. */
  function Basename(path: string): string {
    if path == [] || path[|path| - 1] == '/' then []
    else Basename(path[..|path| - 1]) + [path[|path| - 1]]
  }

  lemma {:induction false} BasenameIsTail(path: string, k: nat)
    requires k <= |path| && '/' !in path[k..]
    ensures Basename(path) == Basename(path[..k]) + path[k..]
    decreases |path| - k
  {
    if k < |path| {
      var last := |path| - 1;
      var tail := path[..last][k..];
      assert path[k..] == tail + [path[last]];
      BasenameIsTail(path[..last], k);
      assert path[..last][..k] == path[..k];
      assert path[last] in path[k..];
    } else {
      assert path[..k] == path;
    }
  }

  /** The loop shared by lock, stale check and unlock: it walks back from the end to the
      character after a '/', and stops one short of the start when there is none. */
  method LockName(filename: string) returns (name: string)
    requires filename != []
    ensures name == Basename(filename) <==> '/' in filename
    ensures '/' !in filename ==> name == filename[1..] && Basename(filename) == filename
  {
    var j := |filename|;
    var p := j;
    while filename[p - 1] != '/' && j != 1
      invariant 1 <= p == j <= |filename|
      invariant '/' !in filename[p..]
      decreases j
    {
      j := j - 1;
      p := p - 1;
      assert filename[p..] == [filename[p]] + filename[p + 1..];
    }
    name := filename[p..];
    if filename[p - 1] == '/' {
      BasenameIsTail(filename, p);
    } else {
      assert filename[0..] == [filename[0]] + filename[1..];
      BasenameIsTail(filename, 0);
    }
  }
}
