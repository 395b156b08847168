/**
  Flag words as the sets of their one-bits, so that `|`, `&` and `& ~` are union,
  intersection and difference, and the passage between such a set and the number it writes.
 */
module BitSets {

  type Flags = set<nat>

  function Pow2(k: nat): nat {
    if k == 0 then 1 else 2 * Pow2(k - 1)
  }

  predicate BitOn(n: nat, i: nat) {
    if i == 0 then n % 2 == 1 else BitOn(n / 2, i - 1)
  }

  /** The one-bits of a number, as far as 32 bits hold them. */
  function BitsOf(n: nat): (f: Flags)
    ensures forall i <- f :: i < 32
  {
    set i: nat | i < 32 && BitOn(n, i)
  }

  /** The number that the bits low, low + 1, ... write, `count` of them. */
  function Field(f: Flags, low: nat, count: nat): nat
    decreases count
  {
    if count == 0 then 0
    else (if low in f then 1 else 0) + 2 * Field(f, low + 1, count - 1)
  }

  function Number(f: Flags): nat {
    Field(f, 0, 32)
  }

  lemma {:induction false} FieldOfBits(f: Flags, low: nat, count: nat, n: nat)
    requires n < Pow2(count)
    requires forall i: nat :: i < count ==> (low + i in f <==> BitOn(n, i))
    ensures Field(f, low, count) == n
    decreases count
  {
    if count > 0 {
      forall i: nat | i < count - 1
        ensures low + 1 + i in f <==> BitOn(n / 2, i)
      {
        assert low + (i + 1) in f <==> BitOn(n, i + 1);
      }
      FieldOfBits(f, low + 1, count - 1, n / 2);
      assert low + 0 in f <==> BitOn(n, 0);
    }
  }

  /** A 32-bit number is written by its own bits. */
  lemma NumberOfBits(n: nat)
    requires n < 0x1_0000_0000
    ensures Number(BitsOf(n)) == n
  {
    PowersOfTwo();
    FieldOfBits(BitsOf(n), 0, 32, n);
  }

  lemma {:induction false} BitOfField(f: Flags, low: nat, count: nat, i: nat)
    requires i < count
    ensures BitOn(Field(f, low, count), i) <==> low + i in f
    decreases count
  {
    if i > 0 {
      BitOfField(f, low + 1, count - 1, i - 1);
    }
  }

  /** A set of bits below 32 is the set of one-bits of the number it writes. */
  lemma BitsOfNumber(f: Flags)
    requires forall i <- f :: i < 32
    ensures BitsOf(Number(f)) == f
  {
    var n := Number(f);
    forall i: nat | i < 32
      ensures BitOn(n, i) <==> i in f
    {
      BitOfField(f, 0, 32, i);
    }
  }

  lemma {:induction false} FieldFits(f: Flags, low: nat, count: nat)
    ensures Field(f, low, count) < Pow2(count)
    decreases count
  {
    if count > 0 {
      FieldFits(f, low + 1, count - 1);
    }
  }

  lemma PowersOfTwo()
    ensures Pow2(9) == 512 && Pow2(32) == 0x1_0000_0000
  {
    assert Pow2(8) == 256;
    assert Pow2(16) == 0x1_0000;
    assert Pow2(24) == 0x100_0000;
  }

  lemma NumberFits(f: Flags)
    ensures Number(f) < 0x1_0000_0000
  {
    FieldFits(f, 0, 32);
    PowersOfTwo();
  }

  /** With no bits on, a field writes 0. */
  lemma {:induction false} EmptyField(f: Flags, low: nat, count: nat)
    requires forall i <- f :: i < low
    ensures Field(f, low, count) == 0
    decreases count
  {
    if count > 0 {
      EmptyField(f, low + 1, count - 1);
    }
  }

  /** Bits that are off below a field shift it. */
  lemma {:induction false} ShiftedField(f: Flags, low: nat, count: nat, zeros: nat)
    requires zeros <= count
    requires forall i <- f :: !(low <= i < low + zeros)
    ensures Field(f, low, count) == Pow2(zeros) * Field(f, low + zeros, count - zeros)
    decreases count
  {
    if zeros > 0 {
      ShiftedField(f, low + 1, count - 1, zeros - 1);
    }
  }
}
