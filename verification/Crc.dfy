/** CRC-32 (section 8 of RFC 1952) over unsigned 32-bit integers, and why it
    catches every change of a single byte: each step is injective on the state. */
module Crc {
  import opened Basics

  const POLYNOMIAL: U32 := 0xEDB8_8320

  /** Bitwise exclusive or of two naturals. */
  function Xor(a: nat, b: nat): nat
    decreases a + b
  {
    if a == 0 && b == 0 then 0
    else (if a % 2 == b % 2 then 0 else 1) + 2 * Xor(a / 2, b / 2)
  }

  lemma {:induction false} XorInvolution(a: nat, b: nat)
    ensures Xor(Xor(a, b), b) == a
    decreases a + b
  {
    if a != 0 || b != 0 {
      XorInvolution(a / 2, b / 2);
      var x := Xor(a, b);
      assert x / 2 == Xor(a / 2, b / 2);
      assert x % 2 == if a % 2 == b % 2 then 0 else 1;
    }
  }

  lemma {:induction false} XorSymmetric(a: nat, b: nat)
    ensures Xor(a, b) == Xor(b, a)
    decreases a + b
  {
    if a != 0 || b != 0 { XorSymmetric(a / 2, b / 2); }
  }

  function Pow2(n: nat): nat { if n == 0 then 1 else 2 * Pow2(n - 1) }

  lemma {:induction false} XorBound(a: nat, b: nat, n: nat)
    requires a < Pow2(n) && b < Pow2(n)
    ensures Xor(a, b) < Pow2(n)
    decreases n
  {
    if n > 0 { XorBound(a / 2, b / 2, n - 1); }
  }

  /** The top bit of an exclusive or when only the second operand has it. */
  lemma {:induction false} XorTopBit(a: nat, b: nat, n: nat)
    requires a < Pow2(n) <= b
    ensures Xor(a, b) >= Pow2(n)
    decreases n
  {
    if n == 0 {
      XorSymmetric(a, b);
      XorZero(b);
    } else {
      XorTopBit(a / 2, b / 2, n - 1);
    }
  }

  lemma Powers()
    ensures Pow2(8) == 0x100 && Pow2(31) == 0x8000_0000 && Pow2(32) == 0x1_0000_0000
  {
    assert Pow2(8) == 0x100;
    assert Pow2(16) == 0x100 * Pow2(8);
    assert Pow2(24) == 0x100 * Pow2(16);
    assert Pow2(31) == 0x80 * Pow2(24);
  }

  function Xor32(a: U32, b: U32): U32 {
    Powers();
    XorBound(a, b, 32);
    Xor(a, b)
  }

  /** One bit: shift right, and fold the polynomial in when the bit shifted out is 1. */
  function BitStep(c: U32): U32 { Xor32(c / 2, if c % 2 == 1 then POLYNOMIAL else 0) }

  function BitSteps(c: U32, n: nat): U32 { if n == 0 then c else BitStep(BitSteps(c, n - 1)) }

  function ByteStep(c: U32, b: Byte): U32 { BitSteps(Xor32(c, b), 8) }

  /** The running register after `s`, before the final complement. */
  function Register(s: seq<Byte>): U32 {
    if s == [] then U32_MAX else ByteStep(Register(s[..|s| - 1]), s[|s| - 1])
  }

  function Crc32(s: seq<Byte>): U32 { U32_MAX - Register(s) }

  lemma {:induction false} XorZero(a: nat)
    ensures Xor(a, 0) == a
  {
    if a != 0 { XorZero(a / 2); }
  }

  /** The polynomial's top bit marks which branch was taken, so a bit step loses nothing. */
  lemma BitStepInjective(a: U32, b: U32)
    requires BitStep(a) == BitStep(b)
    ensures a == b
  {
    Powers();
    XorZero(a / 2); XorZero(b / 2);
    XorTopBit(a / 2, POLYNOMIAL, 31); XorTopBit(b / 2, POLYNOMIAL, 31);
    XorInvolution(a / 2, POLYNOMIAL); XorInvolution(b / 2, POLYNOMIAL);
    assert a == 2 * (a / 2) + a % 2 && b == 2 * (b / 2) + b % 2;
  }

  lemma {:induction false} BitStepsInjective(a: U32, b: U32, n: nat)
    requires BitSteps(a, n) == BitSteps(b, n)
    ensures a == b
  {
    if n > 0 {
      BitStepInjective(BitSteps(a, n - 1), BitSteps(b, n - 1));
      BitStepsInjective(a, b, n - 1);
    }
  }

  /** A byte step is injective in the register for a fixed byte, and in the byte for a fixed register. */
  lemma ByteStepInjective(a: U32, b: U32, x: Byte, y: Byte)
    requires ByteStep(a, x) == ByteStep(b, y)
    ensures x == y ==> a == b
    ensures a == b ==> x == y
  {
    BitStepsInjective(Xor32(a, x), Xor32(b, y), 8);
    XorInvolution(a, x); XorInvolution(b, y);
    XorSymmetric(a, x); XorSymmetric(b, y);
    XorInvolution(x, a); XorInvolution(y, b);
  }

  /** Two strings of one length that differ in exactly one byte have different checksums. */
  lemma {:induction false} SingleByteChangesCrc(s: seq<Byte>, i: nat, b: Byte)
    requires i < |s| && s[i] != b
    ensures Crc32(s) != Crc32(s[i := b])
    decreases |s|
  {
    var t := s[i := b];
    var n := |s| - 1;
    if i == n {
      assert s[..n] == t[..n];
    } else {
      assert t[..n] == s[..n][i := b];
      SingleByteChangesCrc(s[..n], i, b);
    }
    if Register(s) == Register(t) {
      ByteStepInjective(Register(s[..n]), Register(t[..n]), s[n], t[n]);
    }
  }

  // ---- the standard's own values ----

  function Shifted(c: nat, n: nat): nat { if n == 0 then c else 2 * Shifted(c, n - 1) }

  lemma {:induction false} XorSplits(a: nat, c: nat, b: nat, d: nat, n: nat)
    requires a < Pow2(n) && b < Pow2(n)
    ensures Xor(Shifted(c, n) + a, Shifted(d, n) + b) == Shifted(Xor(c, d), n) + Xor(a, b)
    decreases n
  {
    if n > 0 {
      var x, y := Shifted(c, n - 1), Shifted(d, n - 1);
      XorSplits(a / 2, c, b / 2, d, n - 1);
      XorOfHalves(2 * x + a, 2 * y + b);
      XorOfHalves(a, b);
      hide Xor;
      assert (2 * x + a) / 2 == x + a / 2 && (2 * y + b) / 2 == y + b / 2;
      assert (2 * x + a) % 2 == a % 2 && (2 * y + b) % 2 == b % 2;
    }
  }

  lemma XorOfHalves(a: nat, b: nat)
    ensures Xor(a, b) == (if a % 2 == b % 2 then 0 else 1) + 2 * Xor(a / 2, b / 2)
  {
  }

  lemma XorByte(a: Byte, c: nat, b: Byte, d: nat)
    ensures Xor(0x100 * c + a, 0x100 * d + b) == 0x100 * Xor(c, d) + Xor(a, b)
  {
    Powers();
    XorSplits(a, c, b, d, 8);
    ShiftedByByte(c); ShiftedByByte(d); ShiftedByByte(Xor(c, d));
    hide Xor;
  }

  lemma ShiftedByByte(c: nat)
    ensures Shifted(c, 8) == 0x100 * c
  {
    assert Shifted(c, 1) == 2 * c;
    assert Shifted(c, 3) == 8 * c;
    assert Shifted(c, 5) == 0x20 * c;
    assert Shifted(c, 7) == 0x80 * c;
  }

  function FromBytes(a: Byte, b: Byte, c: Byte, d: Byte): U32 { 0x100 * (0x100 * (0x100 * d + c) + b) + a }

  /** The bits that differ in `n` places from the lowest. */
  function Differing(a: nat, b: nat, n: nat): nat {
    if n == 0 then 0 else (if a % 2 == b % 2 then 0 else 1) + 2 * Differing(a / 2, b / 2, n - 1)
  }

  lemma {:induction false} XorIsDiffering(a: nat, b: nat, n: nat)
    requires a < Pow2(n) && b < Pow2(n)
    ensures Xor(a, b) == Differing(a, b, n)
    decreases n
  {
    if n > 0 { XorIsDiffering(a / 2, b / 2, n - 1); }
  }

  /** A bit step that folds the polynomial in, byte by byte. */
  lemma FoldedStep(c: U32, h0: Byte, h1: Byte, h2: Byte, h3: Byte, r0: Byte, r1: Byte, r2: Byte, r3: Byte)
    requires c == 2 * FromBytes(h0, h1, h2, h3) + 1
    requires Differing(h0, 0x20, 8) == r0 && Differing(h1, 0x83, 8) == r1
    requires Differing(h2, 0xB8, 8) == r2 && Differing(h3, 0xED, 8) == r3
    ensures BitStep(c) == FromBytes(r0, r1, r2, r3)
  {
    Powers();
    hide Xor, Differing;
    XorIsDiffering(h0, 0x20, 8);
    XorIsDiffering(h1, 0x83, 8);
    XorIsDiffering(h2, 0xB8, 8);
    XorIsDiffering(h3, 0xED, 8);
    assert c / 2 == FromBytes(h0, h1, h2, h3) && POLYNOMIAL == FromBytes(0x20, 0x83, 0xB8, 0xED);
    XorByte(h0, 0x100 * (0x100 * h3 + h2) + h1, 0x20, 0xED_B883);
    XorByte(h1, 0x100 * h3 + h2, 0x83, 0xEDB8);
    XorByte(h2, h3, 0xB8, 0xED);
  }

  lemma PlainStep(c: U32, r: U32)
    requires c % 2 == 0 && r == c / 2
    ensures BitStep(c) == r
  {
    XorZero(c / 2);
  }

  /** The checksums of nothing and of the byte 0x7F, whose last bit alone folds the polynomial in, are the
      standard's. */
  lemma CheckValues()
    ensures Crc32([]) == 0 && Crc32([0x7F]) == 0x12B8_8320
  {
    SevenShifts();
    LastFold();
    assert BitSteps(0xFFFF_FF80, 8) == BitStep(BitSteps(0xFFFF_FF80, 7));
    FirstMix();
    hide BitStep, BitSteps, Xor32;
    assert [0x7F][..0] == [];
  }

  lemma FirstMix()
    ensures Xor32(U32_MAX, 0x7F) == 0xFFFF_FF80
  {
    Powers();
    XorIsDiffering(0xFF, 0x7F, 8);
    XorZero(0xFF_FFFF);
    hide Xor;
    XorByte(0xFF, 0xFF_FFFF, 0x7F, 0);
  }

  lemma SevenShifts()
    ensures BitSteps(0xFFFF_FF80, 7) == 0x01FF_FFFF
  {
    PlainStep(0xFFFF_FF80, 0x7FFF_FFC0);
    PlainStep(0x7FFF_FFC0, 0x3FFF_FFE0);
    PlainStep(0x3FFF_FFE0, 0x1FFF_FFF0);
    PlainStep(0x1FFF_FFF0, 0x0FFF_FFF8);
    PlainStep(0x0FFF_FFF8, 0x07FF_FFFC);
    PlainStep(0x07FF_FFFC, 0x03FF_FFFE);
    PlainStep(0x03FF_FFFE, 0x01FF_FFFF);
    hide BitStep;
    assert BitSteps(0xFFFF_FF80, 2) == 0x3FFF_FFE0;
    assert BitSteps(0xFFFF_FF80, 4) == 0x0FFF_FFF8;
    assert BitSteps(0xFFFF_FF80, 6) == 0x03FF_FFFE;
  }

  lemma LastFold()
    ensures BitStep(0x01FF_FFFF) == 0xED47_7CDF
  {
    hide Xor, BitStep;
    FoldedStep(0x01FF_FFFF, 0xFF, 0xFF, 0xFF, 0x00, 0xDF, 0x7C, 0x47, 0xED);
  }

  /** `crc32`: a loop over the bytes, and eight bit steps for each. */
  method ComputeCrc32(bytes: seq<Byte>) returns (r: U32)
    ensures r == Crc32(bytes)
  {
    var c := U32_MAX;
    for i := 0 to |bytes|
      invariant c == Register(bytes[..i])
    {
      c := Xor32(c, bytes[i]);
      ghost var mixed := c;
      for k := 0 to 8
        invariant c == BitSteps(mixed, k)
      {
        c := Xor32(c / 2, if c % 2 == 1 then POLYNOMIAL else 0);
      }
      assert bytes[..i + 1][..i] == bytes[..i];
    }
    assert bytes[..|bytes|] == bytes;
    r := U32_MAX - c;
  }
}
