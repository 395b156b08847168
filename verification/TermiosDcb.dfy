/**
  The Win32 termios emulation's translation between POSIX line settings and the Windows
  device control block: `cfsetospeed`, `termios_to_DCB`, `DCB_to_termios`, `tcsetattr` and
  `tcgetattr` (native/src/termios.c, constants from native/src/win32termios.h).

  A flag word is the set of its one-bits. Speeds are numbers below 2^32, as the two switches
  take them, and become bits only where the code combines them with `c_cflag`.
 */
module TermiosDcb {
  import opened BitSets
  import opened Speeds

  const IGNPAR: Flags := {2}
  const INPCK: Flags := {4}
  const ISTRIP: Flags := {5}
  const IXON: Flags := {10}
  const IXANY: Flags := {11}
  const IXOFF: Flags := {12}

  const B9600: Flags := {0, 2, 3}
  const B38400: Flags := {0, 1, 2, 3}
  const CBAUDEX: Flags := {12}
  const CBAUD: Flags := {0, 1, 2, 3, 12, 13}
  const CS5: Flags := {}
  const CS6: Flags := {4}
  const CS7: Flags := {5}
  const CS8: Flags := {4, 5}
  const CSIZE: Flags := {4, 5}
  const CSTOPB: Flags := {6}
  const PARENB: Flags := {8}
  const PARODD: Flags := {9}
  const CIGNORE: Flags := {17}
  const CMSPAR: Flags := {30}
  const CRTSCTS: Flags := {31}

  const ICANON: Flags := {1}

  const VEOF := 4
  const VTIME := 5
  const VMIN := 6
  const VSTART := 8
  const VSTOP := 9

  type Word = x: int | 0 <= x < 0x1_0000_0000
  type Byte = x: int | 0 <= x < 256
  type ControlChars = s: seq<Byte> | |s| == 32 witness seq(32, _ => 0)

  datatype Termios = Termios(
    iflag: Flags, oflag: Flags, cflag: Flags, lflag: Flags,
    cc: ControlChars, line: Byte, ispeed: Word, ospeed: Word)

  datatype Parity = NoParity | OddParity | EvenParity | MarkParity | SpaceParity
  datatype StopBits = OneStopBit | OneAndHalfStopBits | TwoStopBits
  datatype RtsControl = RtsDisable | RtsEnable | RtsHandshake | RtsToggle
  datatype DtrControl = DtrDisable | DtrEnable | DtrHandshake

  /** The fields of the control block that `termios_to_DCB` fills in. */
  datatype Framing = Framing(
    rate: Word, byteSize: Byte, parity: Parity, stopBits: StopBits,
    rtsControl: RtsControl, outxCtsFlow: bool)

  datatype Dcb = Dcb(
    framing: Framing,
    checksParity: bool, binary: bool, outX: bool, inX: bool, txContinueOnXoff: bool,
    dtrControl: DtrControl, outxDsrFlow: bool, dsrSensitivity: bool,
    xonChar: Byte, xoffChar: Byte, xonLim: Word, xoffLim: Word, eofChar: Byte, evtChar: Byte)

  datatype Timeouts = Timeouts(
    readInterval: Word, readMultiplier: Word, readConstant: Word,
    writeMultiplier: Word, writeConstant: Word)

  predicate Has(flags: Flags, bits: Flags) {
    flags * bits != {}
  }

  function Put(flags: Flags, bits: Flags, on: bool): Flags {
    if on then flags + bits else flags - bits
  }

  // ---------- Setting ----------

  /** `cfsetospeed`: the speed goes into the control flags if it fits there. */
  function WithSpeed(s: Termios, speed: Word): Termios {
    var bits := BitsOf(speed);
    var cleared := s.cflag - CBAUD;
    s.(cflag :=
         if bits - CBAUD != {} then cleared + B38400 + CBAUDEX
         else if bits != {} then cleared + bits
         else cleared + B9600,
       ispeed := speed, ospeed := speed)
  }

  /** The number that stands for the speed: the flags' own code, unless CBAUDEX is on. */
  function SpeedCode(s: Termios): Word {
    NumberFits(s.cflag * CBAUD);
    if Has(s.cflag, CBAUDEX) then s.ispeed else Number(s.cflag * CBAUD)
  }

  /** `termios_to_DCB` also leaves that number in the caller's settings. */
  function Settled(s: Termios): Termios {
    if Has(s.cflag, CBAUDEX) then s
    else s.(ispeed := SpeedCode(s), ospeed := SpeedCode(s))
  }

  function ByteSizeOf(cflag: Flags): Byte {
    var size := cflag * CSIZE;
    if size == CS5 then 5 else if size == CS6 then 6 else if size == CS7 then 7 else 8
  }

  function ParityOf(cflag: Flags): Parity {
    if !Has(cflag, PARENB) then NoParity
    else if Has(cflag, PARODD) then if Has(cflag, CMSPAR) then MarkParity else OddParity
    else if Has(cflag, CMSPAR) then SpaceParity else EvenParity
  }

  function StopBitsOf(cflag: Flags): StopBits {
    if !Has(cflag, CSTOPB) then OneStopBit
    else if ByteSizeOf(cflag) == 5 then OneAndHalfStopBits else TwoStopBits
  }

  /** What `termios_to_DCB` makes of the settings. */
  function Framed(s: Termios): Framing {
    Framing(CodeToRate(SpeedCode(s)), ByteSizeOf(s.cflag), ParityOf(s.cflag), StopBitsOf(s.cflag),
            if Has(s.cflag, CRTSCTS) then RtsHandshake else RtsDisable, Has(s.cflag, CRTSCTS))
  }

  /** What a successful `tcsetattr` makes of the control block. */
  function Configured(d: Dcb, s: Termios): Dcb {
    var framed := if Has(s.cflag, CIGNORE) then d else d.(framing := Framed(s), checksParity := true);
    framed.(
      binary := s.cc[VEOF] == 0,
      outX := Has(s.iflag, IXON),
      inX := Has(s.iflag, IXOFF),
      txContinueOnXoff := Has(s.iflag, IXANY),
      dtrControl := DtrDisable,
      outxDsrFlow := false,
      dsrSensitivity := false,
      xonChar := s.cc[VSTART],
      xoffChar := s.cc[VSTOP],
      xonLim := 0,
      xoffLim := 0,
      eofChar := s.cc[VEOF],
      evtChar := 10)
  }

  /** VTIME counts tenths of a second; with VMIN and VTIME both 0 reads return at once. */
  function Timed(s: Termios): Timeouts {
    var total: Word := s.cc[VTIME] as int * 100;
    Timeouts(if s.cc[VMIN] == 0 && total == 0 then 0xffff_ffff else 0, 0, total, 0, total)
  }

  // ---------- Getting ----------

  function SizeFlags(byteSize: Byte): Flags {
    if byteSize == 5 then CS5 else if byteSize == 6 then CS6 else if byteSize == 7 then CS7 else CS8
  }

  function ParityFlags(p: Parity): Flags {
    match p
    case NoParity => {}
    case OddParity => PARENB + PARODD
    case EvenParity => PARENB
    case MarkParity => PARENB + PARODD + CMSPAR
    case SpaceParity => PARENB + CMSPAR
  }

  function InputFlags(iflag: Flags, d: Dcb): Flags {
    var checked := if d.checksParity then iflag + INPCK - IGNPAR else iflag - INPCK + IGNPAR;
    Put(Put(Put(checked, IXON, d.outX), IXOFF, d.inX), IXANY, d.txContinueOnXoff)
  }

  function FramingFlags(cflag: Flags, d: Framing): Flags {
    var stopped := Put(cflag, CSTOPB, !d.stopBits.OneStopBit?);
    var checked := stopped - PARENB - PARODD - CMSPAR + ParityFlags(d.parity);
    var sized := checked + SizeFlags(d.byteSize);
    Put(sized, CRTSCTS, d.outxCtsFlow || d.rtsControl.RtsHandshake?)
  }

  /** What `tcgetattr` makes of the control block, the timeouts and the stored settings. */
  function Reported(d: Dcb, t: Timeouts, stored: Termios): Termios {
    var code := RateToCode(d.framing.rate);
    var cc := stored.cc[VTIME := t.readConstant / 100 % 256];
    stored.(
      iflag := InputFlags(stored.iflag, d),
      cflag := FramingFlags(stored.cflag, d.framing) + BitsOf(code) * CBAUD,
      cc := cc[VSTART := d.xonChar][VSTOP := d.xoffChar][VEOF := d.eofChar],
      ispeed := code,
      ospeed := code)
  }

  // ---------- Round trips ----------

  /** An open line: the device's control block and timeouts, and the stored settings. */
  datatype Line = Line(dcb: Dcb, timeouts: Timeouts, stored: Termios)

  function AfterSet(l: Line, s: Termios): Line {
    Line(Configured(l.dcb, s), Timed(s), if Has(s.cflag, CIGNORE) then s else Settled(s))
  }

  function Got(l: Line): Termios {
    Reported(l.dcb, l.timeouts, l.stored)
  }

  /** The number a `tcgetattr` gives back for the speed that was set. */
  function ReadCode(s: Termios): Word {
    RateToCode(CodeToRate(SpeedCode(s)))
  }

  /** Parity kind is dropped where parity is off. */
  function NormalFraming(cflag: Flags): Flags {
    if Has(cflag, PARENB) then cflag else cflag - PARODD - CMSPAR
  }

  /** The settings that come back: parity checking reported on, the framing in its normal
      form, the speed in its table form, and everything else as it was set. */
  function NormalForm(s: Termios): Termios {
    s.(iflag := s.iflag + INPCK - IGNPAR,
       cflag := NormalFraming(s.cflag) + BitsOf(ReadCode(s)) * CBAUD,
       ispeed := ReadCode(s),
       ospeed := ReadCode(s))
  }

  lemma KeptBit(flags: Flags, bit: nat)
    ensures Put(flags, {bit}, Has(flags, {bit})) == flags
  {
    assert bit in flags <==> bit in flags * {bit};
  }

  lemma InputComesBack(iflag: Flags, d: Dcb)
    requires d.checksParity && d.outX == Has(iflag, IXON)
    requires d.inX == Has(iflag, IXOFF) && d.txContinueOnXoff == Has(iflag, IXANY)
    ensures InputFlags(iflag, d) == iflag + INPCK - IGNPAR
  {
  }

  lemma SizeComesBack(cflag: Flags)
    ensures SizeFlags(ByteSizeOf(cflag)) == cflag * CSIZE
  {
  }

  lemma ParityComesBack(cflag: Flags)
    ensures cflag - PARENB - PARODD - CMSPAR + ParityFlags(ParityOf(cflag)) == NormalFraming(cflag)
  {
  }

  lemma FramingComesBack(cflag: Flags, d: Framing)
    requires d.byteSize == ByteSizeOf(cflag) && d.parity == ParityOf(cflag)
    requires d.stopBits == StopBitsOf(cflag) && d.outxCtsFlow == Has(cflag, CRTSCTS)
    requires d.rtsControl.RtsHandshake? == Has(cflag, CRTSCTS)
    ensures FramingFlags(cflag, d) == NormalFraming(cflag)
  {
    KeptBit(cflag, 6);
    ParityComesBack(cflag);
    SizeComesBack(cflag);
    assert NormalFraming(cflag) + cflag * CSIZE == NormalFraming(cflag);
    assert NormalFraming(cflag) * CRTSCTS == cflag * CRTSCTS;
    KeptBit(NormalFraming(cflag), 31);
  }

  lemma FlagsComeBack(l: Line, s: Termios)
    requires !Has(s.cflag, CIGNORE)
    ensures Got(AfterSet(l, s)).iflag == NormalForm(s).iflag
    ensures Got(AfterSet(l, s)).cflag == NormalForm(s).cflag
  {
    var m := AfterSet(l, s);
    InputComesBack(s.iflag, m.dcb);
    FramingComesBack(s.cflag, m.dcb.framing);
  }

  lemma CharsComeBack(l: Line, s: Termios)
    requires !Has(s.cflag, CIGNORE)
    ensures Got(AfterSet(l, s)).cc == s.cc
  {
    var m := AfterSet(l, s);
    assert m.timeouts.readConstant / 100 % 256 == s.cc[VTIME];
  }

  /** Whatever the device held before, getting after setting gives the normal form. */
  lemma GetAfterSet(l: Line, s: Termios)
    requires !Has(s.cflag, CIGNORE)
    ensures Got(AfterSet(l, s)) == NormalForm(s)
  {
    FlagsComeBack(l, s);
    CharsComeBack(l, s);
  }

  // ---------- Bit by bit ----------

  lemma HasBit(flags: Flags, b: nat)
    ensures Has(flags, {b}) <==> b in flags
  {
    assert b in flags <==> b in flags * {b};
  }

  /** Bits 4 and 5 count the data bits from 5. */
  lemma SizeByBits(cflag: Flags)
    ensures ByteSizeOf(cflag) == 5 + Field(cflag, 4, 2)
    ensures ByteSizeOf(cflag) == 5 <==> 4 !in cflag && 5 !in cflag
  {
    var size := cflag * CSIZE;
    assert 4 in size <==> 4 in cflag;
    assert 5 in size <==> 5 in cflag;
    assert size <= {4, 5};
    assert Field(cflag, 6, 0) == 0;
    assert Field(cflag, 5, 1) == if 5 in cflag then 1 else 0;
    if 4 in cflag {
      assert size == if 5 in cflag then {4, 5} else {4};
    } else {
      assert size == if 5 in cflag then {5} else {};
    }
  }

  /** What `termios_to_DCB` makes of the control flags, by their bit numbers. */
  lemma FramedByBits(s: Termios)
    ensures var f, c := Framed(s), s.cflag;
      && f.byteSize == 5 + Field(c, 4, 2)
      && (f.stopBits.OneStopBit? <==> 6 !in c)
      && (f.stopBits.OneAndHalfStopBits? <==> 6 in c && 4 !in c && 5 !in c)
      && (f.stopBits.TwoStopBits? <==> 6 in c && (4 in c || 5 in c))
      && (f.parity.NoParity? <==> 8 !in c)
      && (f.parity.EvenParity? <==> 8 in c && 9 !in c && 30 !in c)
      && (f.parity.OddParity? <==> 8 in c && 9 in c && 30 !in c)
      && (f.parity.SpaceParity? <==> 8 in c && 9 !in c && 30 in c)
      && (f.parity.MarkParity? <==> 8 in c && 9 in c && 30 in c)
      && f.rtsControl == (if 31 in c then RtsHandshake else RtsDisable)
      && f.outxCtsFlow == (31 in c)
      && f.rate == CodeToRate(if 12 in c then s.ispeed else Number(c * {0, 1, 2, 3, 12, 13}))
    ensures Settled(s) == if 12 in s.cflag then s else s.(ispeed := SpeedCode(s), ospeed := SpeedCode(s))
    ensures 12 !in s.cflag ==> SpeedCode(s) == Number(s.cflag * {0, 1, 2, 3, 12, 13})
  {
    var c := s.cflag;
    SizeByBits(c);
    HasBit(c, 6);
    HasBit(c, 8);
    HasBit(c, 9);
    HasBit(c, 12);
    HasBit(c, 30);
    HasBit(c, 31);
  }

  /** What a successful set makes of the control block and the timeouts: the framing unless
      bit 17 says to leave it, XON/XOFF by bits 10, 11 and 12 of the input flags, the control
      characters by their positions, times in tenths of a second. */
  lemma SetByBits(d: Dcb, s: Termios)
    ensures var e := Configured(d, s);
      && e.framing == (if 17 in s.cflag then d.framing else Framed(s))
      && e.checksParity == (17 in s.cflag ==> d.checksParity)
      && e.outX == (10 in s.iflag) && e.inX == (12 in s.iflag) && e.txContinueOnXoff == (11 in s.iflag)
      && e.eofChar == s.cc[4] && e.xonChar == s.cc[8] && e.xoffChar == s.cc[9] && e.evtChar == 10
      && e.binary == (s.cc[4] == 0) && e.dtrControl == DtrDisable
      && !e.outxDsrFlow && !e.dsrSensitivity && e.xonLim == 0 && e.xoffLim == 0
    ensures var t := Timed(s);
      && t.readConstant == t.writeConstant == s.cc[5] as int * 100 && t.readMultiplier == t.writeMultiplier == 0
      && t.readInterval == if s.cc[5] == 0 && s.cc[6] == 0 then 0xffff_ffff else 0
  {
    HasBit(s.cflag, 17);
    HasBit(s.iflag, 10);
    HasBit(s.iflag, 11);
    HasBit(s.iflag, 12);
  }

  /** What a get makes of the input flags, whatever was stored. */
  lemma InputByBits(stored: Flags, d: Dcb)
    ensures var i := InputFlags(stored, d);
      && (4 in i <==> d.checksParity) && (2 in i <==> !d.checksParity)
      && (10 in i <==> d.outX) && (12 in i <==> d.inX) && (11 in i <==> d.txContinueOnXoff)
      && (forall b :: b !in {2, 4, 10, 11, 12} ==> (b in i <==> b in stored))
  {
  }

  /** What a get makes of the control flags, whatever was stored: sizes are only added. */
  lemma FramingByBits(stored: Flags, d: Framing)
    ensures var c := FramingFlags(stored, d);
      && (6 in c <==> !d.stopBits.OneStopBit?)
      && (8 in c <==> !d.parity.NoParity?)
      && (9 in c <==> d.parity.OddParity? || d.parity.MarkParity?)
      && (30 in c <==> d.parity.SpaceParity? || d.parity.MarkParity?)
      && (31 in c <==> d.outxCtsFlow || d.rtsControl.RtsHandshake?)
      && (4 in c <==> 4 in stored || (d.byteSize != 5 && d.byteSize != 7))
      && (5 in c <==> 5 in stored || (d.byteSize != 5 && d.byteSize != 6))
      && (forall b :: b !in {4, 5, 6, 8, 9, 30, 31} ==> (b in c <==> b in stored))
  {
  }

  /** The rest of a get: speed, control characters, and what only the stored settings know. */
  lemma GotByBits(l: Line)
    ensures var g, code := Got(l), RateToCode(l.dcb.framing.rate);
      && g.iflag == InputFlags(l.stored.iflag, l.dcb)
      && g.cflag == FramingFlags(l.stored.cflag, l.dcb.framing) + BitsOf(code) * {0, 1, 2, 3, 12, 13}
      && g.ispeed == g.ospeed == code
      && g.oflag == l.stored.oflag && g.lflag == l.stored.lflag && g.line == l.stored.line
      && g.cc[4] == l.dcb.eofChar && g.cc[5] == l.timeouts.readConstant / 100 % 256
      && g.cc[8] == l.dcb.xonChar && g.cc[9] == l.dcb.xoffChar
      && forall i :: 0 <= i < 32 && i !in {4, 5, 8, 9} ==> g.cc[i] == l.stored.cc[i]
  {
  }

  // ---------- Speeds ----------

  /** The codes that fit the flags without CBAUDEX lie below 16 or in [8192, 8208). */
  lemma PlainField(f: Flags)
    requires f <= CBAUD - CBAUDEX
    ensures Number(f) < 16 || 8192 <= Number(f) < 8208
  {
    EmptyField(f, 14, 18);
    var top := if 13 in f then 1 else 0;
    assert Field(f, 13, 19) == top;
    ShiftedField(f, 4, 28, 9);
    PowersOfTwo();
    assert Field(f, 4, 28) == 512 * top;
    assert 1024 * top <= Field(f, 3, 29) <= 1024 * top + 1;
    assert 2048 * top <= Field(f, 2, 30) <= 2048 * top + 3;
    assert 4096 * top <= Field(f, 1, 31) <= 4096 * top + 7;
  }

  /** Such a code is read back as it was set. */
  lemma PlainCode(f: Flags)
    requires f <= CBAUD - CBAUDEX
    ensures RateToCode(CodeToRate(Number(f))) == Number(f)
  {
    PlainField(f);
    CodesAreExact(Number(f));
  }

  /** The code that `cfsetospeed` leaves in force is the one it was given, or 9600's for 0. */
  lemma SpeedIsSet(s: Termios, code: Word)
    ensures SpeedCode(WithSpeed(s, code)) == if code == 0 then 0xd else code
    ensures var t := WithSpeed(s, code);
      t == s.(cflag := t.cflag, ispeed := code, ospeed := code) &&
      forall b :: b !in {0, 1, 2, 3, 12, 13} ==> (b in t.cflag <==> b in s.cflag)
    ensures WithSpeed(s, code).cflag * {0, 1, 2, 3, 12, 13} ==
      if !(BitsOf(code) <= {0, 1, 2, 3, 12, 13}) then {0, 1, 2, 3, 12} else if code != 0 then BitsOf(code) else {0, 2, 3}
  {
    var bits := BitsOf(code);
    var t := WithSpeed(s, code);
    NumberOfBits(code);
    EmptyField({}, 0, 32);
    BitsOfNumber({});
    if bits - CBAUD != {} {
      assert 12 in t.cflag * CBAUDEX;
    } else if bits != {} {
      assert t.cflag * CBAUD == bits;
      assert 12 in bits ==> 12 in t.cflag * CBAUDEX;
    } else {
      assert t.cflag * CBAUD == B9600;
      NumberOfB9600();
    }
  }

  lemma NumberOfB9600()
    ensures Number(B9600) == 0xd
  {
    EmptyField(B9600, 4, 28);
    assert Field(B9600, 3, 29) == 1;
    assert Field(B9600, 2, 30) == 3;
  }

  /** Getting the settings back leaves the speed that is in force in force, and without
      CBAUDEX adds no speed bits to the flags. */
  lemma ReadCodeInForce(s: Termios)
    ensures SpeedCode(NormalForm(s)) == ReadCode(s)
    ensures !Has(s.cflag, CBAUDEX) ==> NormalForm(s).cflag == NormalFraming(s.cflag)
  {
    var f := s.cflag * CBAUD;
    var n := NormalForm(s);
    if Has(s.cflag, CBAUDEX) {
      assert 12 in n.cflag * CBAUDEX;
    } else {
      assert 12 !in s.cflag * CBAUDEX;
      PlainCode(f);
      BitsOfNumber(f);
      assert n.cflag * CBAUD == f;
    }
  }

  // ---------- Whole runs of sets and gets ----------

  /** The line after setting what was just got, n times over. */
  function Cycled(l: Line, n: nat): Line
    decreases n
  {
    if n == 0 then l else Cycled(Cycle(l), n - 1)
  }

  /** One get and a set of what was got. */
  function Cycle(l: Line): Line {
    AfterSet(l, Got(l))
  }

  /** Setting the normal form changes nothing in a device that holds the settings, and the
      normal form is its own normal form. */
  lemma NormalFormIsStable(l: Line, s: Termios)
    requires !Has(s.cflag, CIGNORE)
    ensures !Has(NormalForm(s).cflag, CIGNORE)
    ensures AfterSet(AfterSet(l, s), NormalForm(s)).dcb == AfterSet(l, s).dcb
    ensures AfterSet(AfterSet(l, s), NormalForm(s)).timeouts == AfterSet(l, s).timeouts
    ensures NormalForm(NormalForm(s)) == NormalForm(s)
  {
    ReadCodeInForce(s);
    RateIsStable(SpeedCode(s));
    FramingIsNormal(s);
    InputIsNormal(s.iflag);
  }

  lemma InputIsNormal(iflag: Flags)
    ensures var i := iflag + INPCK - IGNPAR;
            i + INPCK - IGNPAR == i && Has(i, IXON) == Has(iflag, IXON) &&
            Has(i, IXOFF) == Has(iflag, IXOFF) && Has(i, IXANY) == Has(iflag, IXANY)
  {
    var i := iflag + INPCK - IGNPAR;
    assert i * IXON == iflag * IXON && i * IXOFF == iflag * IXOFF && i * IXANY == iflag * IXANY;
  }

  lemma FramingIsNormal(s: Termios)
    ensures var c, n := s.cflag, NormalForm(s).cflag;
            NormalFraming(n) == n && Has(n, CIGNORE) == Has(c, CIGNORE) && Has(n, CRTSCTS) == Has(c, CRTSCTS) &&
            ByteSizeOf(n) == ByteSizeOf(c) && ParityOf(n) == ParityOf(c) && StopBitsOf(n) == StopBitsOf(c)
  {
    var c, n := s.cflag, NormalForm(s).cflag;
    assert n * CSIZE == c * CSIZE && n * CSTOPB == c * CSTOPB;
    assert n * CIGNORE == c * CIGNORE && n * CRTSCTS == c * CRTSCTS;
    assert n * PARENB == c * PARENB;
    if Has(c, PARENB) {
      assert n * PARODD == c * PARODD && n * CMSPAR == c * CMSPAR;
    } else {
      assert n - PARODD - CMSPAR == n;
    }
  }

  /** After one cycle the whole line, stored settings included, no longer changes. */
  lemma OneCycleSettles(l: Line, s: Termios)
    requires !Has(s.cflag, CIGNORE)
    ensures var m := AfterSet(l, s);
            var c := AfterSet(m, NormalForm(s));
            Got(m) == NormalForm(s) && c == m.(stored := c.stored) &&
            Got(c) == NormalForm(s) && AfterSet(c, NormalForm(s)) == c
  {
    var m, g := AfterSet(l, s), NormalForm(s);
    GetAfterSet(l, s);
    NormalFormIsStable(l, s);
    GetAfterSet(m, g);
    NormalFormIsStable(m, g);
  }

  lemma {:induction false} SettledLine(l: Line, n: nat)
    requires Cycle(l) == l
    ensures Cycled(l, n) == l
  {
    if n > 0 {
      SettledLine(l, n - 1);
    }
  }

  /** Any number of get-and-set cycles after a set leaves the device as the set left it, and
      every get in between reports the same settings. */
  lemma CyclesKeepDevice(l: Line, s: Termios, n: nat)
    requires !Has(s.cflag, CIGNORE)
    ensures var m := AfterSet(l, s);
            var c := Cycled(m, n);
            c == m.(stored := c.stored) && Got(c) == NormalForm(s)
  {
    var m := AfterSet(l, s);
    OneCycleSettles(l, s);
    if n > 0 {
      SettledLine(AfterSet(m, Got(m)), n - 1);
    }
  }

  /** The rate for a requested speed, from the code `cfsetospeed` leaves in force. */
  lemma RateForRequest(request: Word, code: Word)
    requires code == if RateToCode(request) == 0 then 0xd else RateToCode(request)
    ensures CodeToRate(code) == request <==> request != 0 && (IsTableRate(request) || !IsCode(request))
    ensures request == 0 ==> CodeToRate(code) == 9600
    ensures IsCode(request) ==> CodeToRate(code) == CodeToRate(request)
  {
    RateSurvives(request);
    if IsTableRate(request) {
      RatesAreExact(request);
    }
  }

  /** A requested speed reaches the device and stays there through any number of cycles if
      and only if it is not 0 and is in the table or is not a code itself. A request of 0
      gives 9600, and a request that is a code gives that code's rate. */
  lemma RequestReachesDevice(l: Line, s: Termios, request: Word, n: nat)
    requires !Has(s.cflag, CIGNORE)
    ensures var rate := Cycled(AfterSet(l, WithSpeed(s, RateToCode(request))), n).dcb.framing.rate;
            (rate == request <==> request != 0 && (IsTableRate(request) || !IsCode(request))) &&
            (request == 0 ==> rate == 9600) &&
            (IsCode(request) ==> rate == CodeToRate(request))
  {
    var t := WithSpeed(s, RateToCode(request));
    assert t.cflag * CIGNORE == s.cflag * CIGNORE;
    RateAfterCycles(l, t, n);
    SpeedIsSet(s, RateToCode(request));
    RateForRequest(request, SpeedCode(t));
  }

  lemma RateAfterCycles(l: Line, s: Termios, n: nat)
    requires !Has(s.cflag, CIGNORE)
    ensures Cycled(AfterSet(l, s), n).dcb.framing.rate == CodeToRate(SpeedCode(s))
  {
    CyclesKeepDevice(l, s, n);
  }

  /** When the timeouts cannot be set the device is configured but the settings are not
      stored, and the size that is then got mixes the two. It is the device's size if and
      only if the stored size bits are among the new ones. */
  lemma FailedSetMixesSizes(l: Line, s: Termios)
    requires !Has(s.cflag, CIGNORE)
    ensures var got := Got(l.(dcb := Configured(l.dcb, s)));
            got.cflag * CSIZE == (l.stored.cflag + s.cflag) * CSIZE &&
            (ByteSizeOf(got.cflag) == Configured(l.dcb, s).framing.byteSize
             <==> l.stored.cflag * CSIZE <= s.cflag)
  {
    var d := Configured(l.dcb, s);
    var got := Got(l.(dcb := d));
    SizeComesBack(s.cflag);
    assert got.cflag * CSIZE == FramingFlags(l.stored.cflag, d.framing) * CSIZE;
    assert FramingFlags(l.stored.cflag, d.framing) * CSIZE == (l.stored.cflag + s.cflag) * CSIZE;
    SizeComesBack(got.cflag);
    var kept, both := l.stored.cflag * CSIZE, (l.stored.cflag + s.cflag) * CSIZE;
    assert both == kept + s.cflag * CSIZE;
    assert kept <= s.cflag <==> kept <= s.cflag * CSIZE;
  }

  // ---------- The calls ----------

  /** Which of the operating system's calls succeed. */
  datatype Answers = Answers(getState: bool, getTimeouts: bool, setState: bool, setTimeouts: bool)

  lemma NonzeroBits(n: Word)
    ensures BitsOf(n) == {} <==> n == 0
  {
    NumberOfBits(n);
    EmptyField({}, 0, 32);
    BitsOfNumber({});
  }

  method CfSetOSpeed(s: Termios, speed: Word) returns (t: Termios)
    ensures t == WithSpeed(s, speed)
    ensures SpeedCode(t) == if speed == 0 then 0xd else speed
  {
    NonzeroBits(speed);
    t := s.(cflag := s.cflag - CBAUD);
    if BitsOf(speed) - CBAUD != {} {
      t := t.(cflag := t.cflag + B38400);
      t := t.(cflag := t.cflag + CBAUDEX);
    } else if speed != 0 {
      t := t.(cflag := t.cflag + BitsOf(speed));
    } else {
      t := t.(cflag := t.cflag + B9600);
    }
    t := t.(ispeed := speed, ospeed := speed);
    SpeedIsSet(s, speed);
  }

  method TermiosToDcb(s: Termios) returns (t: Termios, framing: Framing)
    ensures t == Settled(s)
    ensures framing == Framed(s)
  {
    t := s;
    if !Has(s.cflag, CBAUDEX) {
      NumberFits(s.cflag * CBAUD);
      t := t.(ispeed := Number(s.cflag * CBAUD), ospeed := Number(s.cflag * CBAUD));
    }
    var rate := CodeToRate(t.ispeed);
    var byteSize := ByteSizeOf(t.cflag);
    var parity := GetParity(t.cflag);
    var stopBits := OneStopBit;
    if Has(t.cflag, CSTOPB) {
      stopBits := if byteSize == 5 then OneAndHalfStopBits else TwoStopBits;
    }
    var rtsControl, outxCtsFlow := RtsDisable, false;
    if Has(t.cflag, CRTSCTS) {
      rtsControl, outxCtsFlow := RtsHandshake, true;
    }
    framing := Framing(rate, byteSize, parity, stopBits, rtsControl, outxCtsFlow);
  }

  method GetParity(cflag: Flags) returns (parity: Parity)
    ensures parity == ParityOf(cflag)
  {
    if Has(cflag, PARENB) {
      if Has(cflag, PARODD) && Has(cflag, CMSPAR) {
        parity := MarkParity;
      } else if Has(cflag, PARODD) {
        parity := OddParity;
      } else if Has(cflag, CMSPAR) {
        parity := SpaceParity;
      } else {
        parity := EvenParity;
      }
    } else {
      parity := NoParity;
    }
  }

  /** The part of `tcsetattr` that fills in the rest of the control block. */
  method SetInput(s: Termios, before: Dcb) returns (d: Dcb)
    requires !Has(s.cflag, CIGNORE) ==> before.checksParity && before.framing == Framed(s)
    ensures d == Configured(before, s)
  {
    var binary := !Has(s.iflag, ISTRIP);
    var eofChar := s.cc[VEOF];
    if eofChar != 0 {
      binary := false;
    } else {
      binary := true;
    }
    d := before.(
      binary := binary, outX := Has(s.iflag, IXON), inX := Has(s.iflag, IXOFF),
      txContinueOnXoff := Has(s.iflag, IXANY),
      dtrControl := DtrDisable, outxDsrFlow := false, dsrSensitivity := false,
      xonChar := s.cc[VSTART], xoffChar := s.cc[VSTOP], xonLim := 0, xoffLim := 0,
      eofChar := eofChar, evtChar := 10);
  }

  method SetTimeouts(s: Termios) returns (t: Timeouts)
    ensures t == Timed(s)
  {
    var vtime := s.cc[VTIME] as int * 100;
    t := Timeouts(0, 0, vtime, 0, vtime);
    if s.cc[VMIN] == 0 && vtime == 0 {
      t := t.(readInterval := 0xffff_ffff, readConstant := 0, readMultiplier := 0);
    }
  }

  method GetInput(stored: Flags, d: Dcb) returns (iflag: Flags)
    ensures iflag == InputFlags(stored, d)
  {
    iflag := stored;
    if d.checksParity {
      iflag := iflag + INPCK;
      iflag := iflag - IGNPAR;
    } else {
      iflag := iflag - INPCK;
      iflag := iflag + IGNPAR;
    }
    if d.outX { iflag := iflag + IXON; } else { iflag := iflag - IXON; }
    if d.inX { iflag := iflag + IXOFF; } else { iflag := iflag - IXOFF; }
    if d.txContinueOnXoff { iflag := iflag + IXANY; } else { iflag := iflag - IXANY; }
  }

  method GetFraming(stored: Flags, d: Framing) returns (cflag: Flags)
    ensures cflag == FramingFlags(stored, d)
  {
    cflag := stored;
    match d.stopBits {
      case TwoStopBits => cflag := cflag + CSTOPB;
      case OneAndHalfStopBits =>
        cflag := cflag + CSTOPB;
        cflag := cflag + CS5;
      case OneStopBit => cflag := cflag - CSTOPB;
    }
    cflag := cflag - (PARENB + PARODD + CMSPAR);
    cflag := cflag + PARENB;
    match d.parity {
      case MarkParity => cflag := cflag + (PARODD + CMSPAR);
      case SpaceParity => cflag := cflag + CMSPAR;
      case OddParity => cflag := cflag + PARODD;
      case EvenParity => cflag := cflag - PARODD;
      case NoParity => cflag := cflag - (PARODD + CMSPAR + PARENB);
    }
    cflag := cflag + SizeFlags(d.byteSize);
    if d.outxCtsFlow || d.rtsControl == RtsHandshake {
      cflag := cflag + CRTSCTS;
    } else {
      cflag := cflag - CRTSCTS;
    }
  }

  class Device {
    var dcb: Dcb
    var timeouts: Timeouts
    var stored: Termios

    /** Whether the call gets as far as changing the device. */
    static predicate Reaches(s: Termios, os: Answers) {
      !Has(s.lflag, ICANON) && os.getState && os.getTimeouts && os.setState
    }

    function State(): Line
      reads this
    {
      Line(dcb, timeouts, stored)
    }

    /** `tcsetattr`: returns the result and the caller's settings as the call leaves them. */
    method TcSetAttr(s: Termios, os: Answers) returns (result: int, caller: Termios)
      modifies this
      ensures result == 0 || result == -1
      ensures result == 0 <==>
        Reaches(s, os) && os.setTimeouts
      ensures 1 in s.lflag ==> result == -1
      ensures result == 0 ==> State() == AfterSet(old(State()), s) && caller == stored
      ensures caller == if Has(s.lflag, ICANON) || !os.getState || !os.getTimeouts || Has(s.cflag, CIGNORE)
                        then s else Settled(s)
      ensures result == -1 ==> timeouts == old(timeouts) && stored == old(stored)
      ensures result == -1 && !Reaches(s, os) ==> dcb == old(dcb) 
      ensures result == -1 && Reaches(s, os) ==> dcb == Configured(old(dcb), s)
    {
      result, caller := -1, s;
      HasBit(s.lflag, 1);
      if Has(s.lflag, ICANON) { return; }
      if !os.getState { return; }
      if !os.getTimeouts { return; }
      var d := dcb;
      if !Has(s.cflag, CIGNORE) {
        var framing;
        caller, framing := TermiosToDcb(s);
        d := d.(checksParity := true, framing := framing);
      }
      d := SetInput(caller, d);
      SettledConfigures(dcb, s);
      if !os.setState { return; }
      dcb := d;
      var t := SetTimeouts(caller);
      if !os.setTimeouts { return; }
      timeouts := t;
      stored := caller;
      result := 0;
    }

    /** `tcgetattr`: on success the settings are the report of the device's state. */
    method TcGetAttr(before: Termios, os: Answers) returns (result: int, s: Termios)
      ensures result == if os.getState && os.getTimeouts then 0 else -1
      ensures result == 0 ==> s == Got(State())
      ensures !os.getState ==> s == before
      ensures os.getState && !os.getTimeouts ==>
        s == stored.(iflag := InputFlags(stored.iflag, dcb), cflag := FramingFlags(stored.cflag, dcb.framing))
    {
      result, s := -1, before;
      if !os.getState { return; }
      s := stored;
      var iflag := GetInput(stored.iflag, dcb);
      var cflag := GetFraming(stored.cflag, dcb.framing);
      s := s.(iflag := iflag, cflag := cflag);
      if !os.getTimeouts { return; }
      s := s.(cc := s.cc[VTIME := timeouts.readConstant / 100 % 256]);
      s := s.(cc := s.cc[VSTART := dcb.xonChar]);
      s := s.(cc := s.cc[VSTOP := dcb.xoffChar]);
      s := s.(cc := s.cc[VEOF := dcb.eofChar]);
      s := s.(ispeed := RateToCode(dcb.framing.rate));
      s := s.(ospeed := s.ispeed);
      s := s.(cflag := s.cflag + BitsOf(s.ispeed) * CBAUD);
      result := 0;
    }
  }

  /** Configuring in two parts, with the settings that the first part leaves. */
  lemma SettledConfigures(d: Dcb, s: Termios)
    ensures Timed(Settled(s)) == Timed(s)
    ensures !Has(s.cflag, CIGNORE) ==>
      Configured(d.(checksParity := true, framing := Framed(s)), Settled(s)) == Configured(d, s)
  {
    assert SpeedCode(Settled(s)) == SpeedCode(s);
  }
}
