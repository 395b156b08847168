/**
  The baud rates of the Win32 termios emulation: the two switches between rates and
  termios speed codes, `CBR_to_B` and `B_to_CBR` (native/src/termios.c, codes from
  native/src/win32termios.h). `translate_speed` (native/src/SerialImp.c) has the same cases
  as the first on every request it accepts.
 */
module Speeds {

  /** The speed code of a rate; a rate outside the table stands for itself. */
  function RateToCode(rate: int): (code: int)
    ensures 0 <= rate < 0x1_0000_0000 ==> 0 <= code < 0x1_0000_0000
  {
    if rate == 50 then 0x1
    else if rate == 75 then 0x2
    else if rate == 110 then 0x3
    else if rate == 134 then 0x4
    else if rate == 150 then 0x5
    else if rate == 200 then 0x6
    else if rate == 300 then 0x7
    else if rate == 600 then 0x8
    else if rate == 1200 then 0x9
    else if rate == 1800 then 0xa
    else if rate == 2400 then 0xb
    else if rate == 4800 then 0xc
    else if rate == 9600 then 0xd
    else if rate == 19200 then 0xe
    else if rate == 38400 then 0xf
    else if rate == 57600 then 0x1001
    else if rate == 115200 then 0x1002
    else if rate == 230400 then 0x1003
    else if rate == 460800 then 0x1004
    else if rate == 500000 then 0x1005
    else if rate == 576000 then 0x1006
    else if rate == 921600 then 0x1007
    else if rate == 1000000 then 0x1008
    else if rate == 1152000 then 0x1009
    else if rate == 1500000 then 0x100a
    else if rate == 2000000 then 0x100b
    else if rate == 2500000 then 0x100c
    else if rate == 3000000 then 0x100d
    else if rate == 3500000 then 0x100e
    else if rate == 4000000 then 0x100f
    else if rate == 14400 then 0x2001
    else if rate == 28800 then 0x2002
    else if rate == 128000 then 0x2003
    else if rate == 256000 then 0x2004
    else rate
  }

  /** The rate of a speed code; anything else is taken for a rate. */
  function CodeToRate(code: int): (rate: int)
    ensures 0 <= code < 0x1_0000_0000 ==> 0 <= rate < 0x1_0000_0000
  {
    if code == 0x1 then 50
    else if code == 0x2 then 75
    else if code == 0x3 then 110
    else if code == 0x4 then 134
    else if code == 0x5 then 150
    else if code == 0x6 then 200
    else if code == 0x7 then 300
    else if code == 0x8 then 600
    else if code == 0x9 then 1200
    else if code == 0xa then 1800
    else if code == 0xb then 2400
    else if code == 0xc then 4800
    else if code == 0xd then 9600
    else if code == 0xe then 19200
    else if code == 0xf then 38400
    else if code == 0x1001 then 57600
    else if code == 0x1002 then 115200
    else if code == 0x1003 then 230400
    else if code == 0x1004 then 460800
    else if code == 0x1005 then 500000
    else if code == 0x1006 then 576000
    else if code == 0x1007 then 921600
    else if code == 0x1008 then 1000000
    else if code == 0x1009 then 1152000
    else if code == 0x100a then 1500000
    else if code == 0x100b then 2000000
    else if code == 0x100c then 2500000
    else if code == 0x100d then 3000000
    else if code == 0x100e then 3500000
    else if code == 0x100f then 4000000
    else if code == 0x2001 then 14400
    else if code == 0x2002 then 28800
    else if code == 0x2003 then 128000
    else if code == 0x2004 then 256000
    else code
  }

  predicate IsCode(x: int) {
    0x1 <= x <= 0xf || 0x1001 <= x <= 0x100f || 0x2001 <= x <= 0x2004
  }

  predicate IsTableRate(x: int) {
    RateToCode(x) != x
  }

  /** On codes the second switch has the first as its inverse; other numbers it keeps. */
  lemma CodesAreExact(x: int)
    ensures IsCode(x) ==> IsTableRate(CodeToRate(x)) && RateToCode(CodeToRate(x)) == x
    ensures !IsCode(x) ==> CodeToRate(x) == x
  {
  }

  /** On table rates the first switch has the second as its inverse, and no table rate is
      also a code. */
  lemma RatesAreExact(x: int)
    requires IsTableRate(x)
    ensures IsCode(RateToCode(x)) && CodeToRate(RateToCode(x)) == x && !IsCode(x)
  {
  }

  /** A rate comes through both switches unchanged if and only if it is in the table or is
      not mistaken for a code. */
  lemma RateSurvives(rate: int)
    ensures CodeToRate(RateToCode(rate)) == rate <==> IsTableRate(rate) || !IsCode(rate)
  {
    CodesAreExact(rate);
    if IsTableRate(rate) {
      RatesAreExact(rate);
    }
  }

  /** Whatever number stands for the speed, reading its rate back as a code and setting
      that code again gives the same rate. */
  lemma RateIsStable(code: int)
    ensures CodeToRate(RateToCode(CodeToRate(code))) == CodeToRate(code)
  {
    CodesAreExact(code);
    if IsTableRate(CodeToRate(code)) {
      RatesAreExact(CodeToRate(code));
    }
  }

  // The rates in the order in which the header numbers their codes.

  const CLASSIC := [50, 75, 110, 134, 150, 200, 300, 600, 1200, 1800, 2400, 4800, 9600, 19200, 38400]
  const EXTENDED := [57600, 115200, 230400, 460800, 500000, 576000, 921600, 1000000, 1152000, 1500000,
                     2000000, 2500000, 3000000, 3500000, 4000000]
  const WINDOWS := [14400, 28800, 128000, 256000]

  /** Codes are numbered through in three blocks, from 1, from octal 010001 and from octal
      020001. */
  lemma CodesInBlocks(i: nat)
    ensures i < 15 ==> CodeToRate(1 + i) == CLASSIC[i]
    ensures i < 15 ==> CodeToRate(0x1001 + i) == EXTENDED[i]
    ensures i < 4 ==> CodeToRate(0x2001 + i) == WINDOWS[i]
  {
  }
}
