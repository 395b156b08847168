/**
  The requests of the lock daemon: how `lfs_lock` and `lfs_unlock` print them
  (native/src/SerialImp.c) and how `process_requests` picks them apart in its 80-byte
  buffer (native/src/lfd/lockdaemon.c).
 */
module LockRequests {
  import opened LockText

  const SIZE := 80

  /** `Overrun`: the daemon has walked past the end of its buffer. */
  datatype Request =
    | Quit
    | Lock(file: string, pid: int)
    | Unlock(file: string, pid: int)
    | Malformed
    | Unknown
    | Overrun

  function Lower(c: char): char {
    if 'A' <= c <= 'Z' then c - 'A' + 'a' else c
  }

  /** `strncasecmp` with a word that holds no NUL. */
  predicate Begins(b: seq<char>, word: string) {
    |word| <= |b| && forall i :: 0 <= i < |word| ==> Lower(b[i]) == word[i]
  }

  /** The first position from `i` on that holds `stop` or a NUL; the length if none does. */
  function Scan(b: seq<char>, i: nat, stop: char): (r: nat)
    requires i <= |b|
    ensures i <= r <= |b|
    ensures r < |b| ==> b[r] == stop || b[r] == '\0'
    ensures forall k :: i <= k < r ==> b[k] != stop && b[k] != '\0'
    decreases |b| - i
  {
    if i == |b| || b[i] == stop || b[i] == '\0' then i else Scan(b, i + 1, stop)
  }

  /** The two arguments behind a command word. */
  function Arguments(b: seq<char>, p: nat, lock: bool): Request
    requires p <= |b|
  {
    var q := Scan(b, p, ' ');
    if q == |b| then Overrun
    else if b[q] == '\0' then Malformed
    else
      var r := Scan(b, q + 1, '\n');
      if r == |b| then Overrun
      else if lock then Lock(b[p..q], Atoi(b[q + 1..r]))
      else Unlock(b[p..q], Atoi(b[q + 1..r]))
  }

  function Parse(b: seq<char>): Request
    requires |b| == SIZE
  {
    if Begins(b, "quit") then Quit
    else if Begins(b, "lock") then Arguments(b, 5, true)
    else if Begins(b, "unlock") then Arguments(b, 7, false)
    else Unknown
  }

  /** Where the daemon puts the terminating NUL after reading `ret` bytes. */
  function Terminated(b: seq<char>, ret: int): seq<char>
    requires |b| == SIZE
  {
    if 1 < ret < SIZE then b[ret := '\0'] else b[SIZE - 1 := '\0']
  }

  method ScanBuffer(str: array<char>, from: nat, stop: char) returns (q: nat)
    requires from <= str.Length
    ensures q == Scan(str[..], from, stop)
  {
    q := from;
    while q < str.Length && str[q] != stop && str[q] != '\0'
      invariant from <= q <= str.Length
      invariant Scan(str[..], from, stop) == Scan(str[..], q, stop)
    {
      q := q + 1;
    }
  }

  /** Cuts file name and pid out of the buffer by writing NULs into it. */
  method ParseArguments(str: array<char>, p: nat, lock: bool) returns (request: Request)
    requires p <= str.Length
    modifies str
    ensures request == Arguments(old(str[..]), p, lock)
  {
    var q := ScanBuffer(str, p, ' ');
    if q == str.Length {
      return Overrun;
    }
    if str[q] == '\0' {
      return Malformed;
    }
    str[q] := '\0';
    var r := ScanBuffer(str, q + 1, '\n');
    ScanIgnoresEarlier(old(str[..]), str[..], q + 1, '\n');
    if r == str.Length {
      return Overrun;
    }
    if str[r] == '\n' {
      str[r] := '\0';
    }
    var file := str[p..q];
    var pid := Atoi(str[q + 1..r]);
    assert file == old(str[..])[p..q] && str[q + 1..r] == old(str[..])[q + 1..r];
    return if lock then Lock(file, pid) else Unlock(file, pid);
  }

  lemma {:induction false} ScanIgnoresEarlier(a: seq<char>, b: seq<char>, i: nat, stop: char)
    requires |a| == |b| && i <= |a| && a[i..] == b[i..]
    ensures Scan(a, i, stop) == Scan(b, i, stop)
    decreases |a| - i
  {
    if i < |a| {
      assert a[i] == a[i..][0] && b[i] == b[i..][0];
      assert a[i + 1..] == a[i..][1..] && b[i + 1..] == b[i..][1..];
      ScanIgnoresEarlier(a, b, i + 1, stop);
    }
  }

  method MatchesWord(str: array<char>, word: string) returns (yes: bool)
    ensures yes == Begins(str[..], word)
  {
    if str.Length < |word| {
      return false;
    }
    for i := 0 to |word|
      invariant forall k :: 0 <= k < i ==> Lower(str[k]) == word[k]
    {
      if Lower(str[i]) != word[i] {
        return false;
      }
    }
    return true;
  }

  /** One request, after `read` has put `ret` bytes into the buffer. */
  method ProcessRequest(str: array<char>, ret: int) returns (request: Request)
    requires str.Length == SIZE && ret <= SIZE
    modifies str
    ensures request == Parse(Terminated(old(str[..]), ret))
  {
    if ret < SIZE && ret > 1 {
      str[ret] := '\0';
    } else {
      str[SIZE - 1] := '\0';
    }
    assert str[..] == Terminated(old(str[..]), ret);
    var quit := MatchesWord(str, "quit");
    if quit {
      return Quit;
    }
    var lock := MatchesWord(str, "lock");
    if lock {
      request := ParseArguments(str, 5, true);
      return;
    }
    var unlock := MatchesWord(str, "unlock");
    if unlock {
      request := ParseArguments(str, 7, false);
      return;
    }
    return Unknown;
  }

  // ---- Round trip ---------------------------------------------------------------------

  function Line(lock: bool, file: string, pid: int): string {
    (if lock then "lock " else "unlock ") + file + " " + PrintInt(pid) + "\n"
  }

  /** The scan stops at the first stop character. */
  lemma {:induction false} ScanStops(b: seq<char>, i: nat, r: nat, stop: char)
    requires i <= r < |b| && (b[r] == stop || b[r] == '\0')
    requires forall k :: i <= k < r ==> b[k] != stop && b[k] != '\0'
    ensures Scan(b, i, stop) == r
    decreases r - i
  {
    if i < r {
      ScanStops(b, i + 1, r, stop);
    }
  }

  lemma PrintIntPlain(n: int)
    ensures forall c :: c in PrintInt(n) ==> c != '\n' && c != '\0'
  {
  }

  /** File name, blank, number and an end in their places parse to file and number. */
  lemma ArgumentsParse(t: seq<char>, p: nat, file: string, pid: int, lock: bool)
    requires forall c :: c in file ==> c != ' ' && c != '\0'
    requires p + |file| + 1 + |PrintInt(pid)| < |t|
    requires var q := p + |file|;
      var r := q + 1 + |PrintInt(pid)|;
      && t[p..q] == file && t[q] == ' '
      && t[q + 1..r] == PrintInt(pid) && (t[r] == '\n' || t[r] == '\0')
    ensures Arguments(t, p, lock) == if lock then Lock(file, pid) else Unlock(file, pid)
  {
    var num := PrintInt(pid);
    var q := p + |file|;
    var r := q + 1 + |num|;
    forall k | p <= k < q
      ensures t[k] != ' ' && t[k] != '\0'
    {
      assert t[k] == t[p..q][k - p];
      assert t[k] in file;
    }
    ScanStops(t, p, q, ' ');
    PrintIntPlain(pid);
    forall k | q + 1 <= k < r
      ensures t[k] != '\n' && t[k] != '\0'
    {
      assert t[k] == t[q + 1..r][k - q - 1];
      assert t[k] in num;
    }
    ScanStops(t, q + 1, r, '\n');
    AtoiOfPrinted(0, pid, []);
    assert Spaces(0) + num + [] == num;
  }

  /** What the buffer holds once the line has been terminated. */
  lemma LinePlaces(word: string, file: string, num: string, b: seq<char>)
    requires word != [] && |b| == SIZE && word + file + " " + num + "\n" <= b
    ensures var t := Terminated(b, |word + file + " " + num + "\n"|);
      var q := |word| + |file|;
      var r := q + 1 + |num|;
      && t[..|word|] == word
      && t[|word|..q] == file && t[q] == ' '
      && t[q + 1..r] == num && (t[r] == '\n' || t[r] == '\0')
  {
    var line := word + file + " " + num + "\n";
    var t := Terminated(b, |line|);
    var q := |word| + |file|;
    var r := q + 1 + |num|;
    assert t[..r] == line[..r] by {
      assert line == b[..|line|];
    }
    assert line[..r] == word + file + " " + num;
    assert t[..|word|] == line[..|word|] == word;
    assert t[|word|..q] == line[|word|..q] == file;
    assert t[q + 1..r] == line[q + 1..r] == num;
    assert t[q] == line[q];
  }

  /** Every request that fits the buffer and whose file name has no space, newline or NUL
      is parsed back to the command, the file and the pid that were sent, whatever the
      buffer held before. */
  lemma RequestRoundTrip(lock: bool, file: string, pid: int, b: seq<char>)
    requires forall c :: c in file ==> c != ' ' && c != '\n' && c != '\0'
    requires |b| == SIZE && Line(lock, file, pid) <= b
    ensures Parse(Terminated(b, |Line(lock, file, pid)|)) == if lock then Lock(file, pid) else Unlock(file, pid)
  {
    var word := if lock then "lock " else "unlock ";
    LinePlaces(word, file, PrintInt(pid), b);
    var t := Terminated(b, |Line(lock, file, pid)|);
    ArgumentsParse(t, |word|, file, pid, lock);
    WordBegins(t, lock);
  }

  /** The command words are told apart. */
  lemma WordBegins(t: seq<char>, lock: bool)
    requires |t| == SIZE && (if lock then t[..5] == "lock " else t[..7] == "unlock ")
    ensures Parse(t) == if lock then Arguments(t, 5, true) else Arguments(t, 7, false)
  {
    if lock {
      assert t[0] == t[..5][0] == 'l' && t[1] == t[..5][1] && t[2] == t[..5][2] && t[3] == t[..5][3];
    } else {
      assert t[0] == t[..7][0] == 'u' && t[1] == t[..7][1] && t[2] == t[..7][2];
      assert t[3] == t[..7][3] && t[4] == t[..7][4] && t[5] == t[..7][5];
    }
  }

  /** Commands are recognised in capitals too. */
  lemma CapitalsBegin(t: seq<char>, lock: bool)
    requires |t| == SIZE && (if lock then t[..5] == "LOCK " else t[..7] == "UNLOCK ")
    ensures Parse(t) == if lock then Arguments(t, 5, true) else Arguments(t, 7, false)
  {
    if lock {
      assert t[0] == t[..5][0] == 'L' && t[1] == t[..5][1] && t[2] == t[..5][2] && t[3] == t[..5][3];
    } else {
      assert t[0] == t[..7][0] == 'U' && t[1] == t[..7][1] && t[2] == t[..7][2];
      assert t[3] == t[..7][3] && t[4] == t[..7][4] && t[5] == t[..7][5];
    }
  }

  /** "quit" ends the daemon's session whatever follows it. */
  lemma QuitIsQuit(t: seq<char>)
    requires |t| == SIZE && (t[..4] == "quit" || t[..4] == "QUIT")
    ensures Parse(t) == Quit
  {
    assert t[0] == t[..4][0] && t[1] == t[..4][1] && t[2] == t[..4][2] && t[3] == t[..4][3];
  }

  /** A request without a blank behind its file name is refused, and neither locks nor
      unlocks anything. */
  lemma NoPidIsMalformed(t: seq<char>, p: nat, q: nat, lock: bool)
    requires p <= q < |t| && t[q] == '\0' && forall k :: p <= k < q ==> t[k] != ' ' && t[k] != '\0'
    ensures Arguments(t, p, lock) == Malformed
  {
    ScanStops(t, p, q, ' ');
  }

  /** A buffer that begins with none of the words is not a request. */
  lemma OtherTextIsUnknown(t: seq<char>)
    requires |t| == SIZE && t[0] !in {'q', 'Q', 'l', 'L', 'u', 'U'}
    ensures Parse(t) == Unknown
  {
  }

  lemma TextPlaces(word: string, file: string, num: string, t: seq<char>)
    requires word + file + " " + num <= t
    ensures var q := |word| + |file|;
      var r := q + 1 + |num|;
      r <= |t| && t[..|word|] == word && t[|word|..q] == file && t[q] == ' ' && t[q + 1..r] == num
  {
    var text := word + file + " " + num;
    var q := |word| + |file|;
    assert t[..|text|] == text;
    assert t[..|word|] == text[..|word|] == word;
    assert t[|word|..q] == text[|word|..q] == file;
    assert t[q + 1..|text|] == text[q + 1..] == num;
    assert t[q] == text[q];
  }

  /** A request without its newline ends where the bytes read end: what the buffer held behind
      them is not taken for more digits. */
  lemma UnendedRequest(lock: bool, file: string, pid: int, b: seq<char>)
    requires forall c :: c in file ==> c != ' ' && c != '\n' && c != '\0'
    requires |b| == SIZE
    requires var text := (if lock then "lock " else "unlock ") + file + " " + PrintInt(pid);
      text <= b && |text| < SIZE
    ensures var text := (if lock then "lock " else "unlock ") + file + " " + PrintInt(pid);
      Parse(Terminated(b, |text|)) == if lock then Lock(file, pid) else Unlock(file, pid)
  {
    var text := (if lock then "lock " else "unlock ") + file + " " + PrintInt(pid);
    TerminatedAt(b, |text|);
    EndedText(lock, file, pid, Terminated(b, |text|));
  }

  lemma TerminatedAt(b: seq<char>, n: nat)
    requires |b| == SIZE && 1 < n < SIZE
    ensures |Terminated(b, n)| == SIZE && Terminated(b, n)[..n] == b[..n] && Terminated(b, n)[n] == '\0'
  {
  }

  lemma EndedText(lock: bool, file: string, pid: int, t: seq<char>)
    requires forall c :: c in file ==> c != ' ' && c != '\n' && c != '\0'
    requires |t| == SIZE
    requires var text := (if lock then "lock " else "unlock ") + file + " " + PrintInt(pid);
      text <= t && |text| < SIZE && t[|text|] == '\0'
    ensures Parse(t) == if lock then Lock(file, pid) else Unlock(file, pid)
  {
    var word := if lock then "lock " else "unlock ";
    TextPlaces(word, file, PrintInt(pid), t);
    ArgumentsParse(t, |word|, file, pid, lock);
    WordBegins(t, lock);
  }
}
