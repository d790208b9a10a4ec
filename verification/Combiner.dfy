/** The key stream generator that src/css.c implements three times.

    A 25-bit and a 17-bit linear feedback shift register each emit the bit they shift in. The two
    bit streams, possibly complemented, are added with carry. This module defines that machine bit
    by bit, gives its meaning as integer addition, and proves the byte-at-a-time form equal to it.
    The three forms of the C code are related to this machine in Sector, Mangling and KeyCipher. */
module Combiner {
  import opened CssTables

  // ---------------------------------------------------------------------------------------
  // One bit at a time
  // ---------------------------------------------------------------------------------------

  // The bit each register shifts in, which is also the bit it emits.
  function Tap0(r: bv25): bv1 { (((r >> 24) ^ (r >> 21) ^ (r >> 20) ^ (r >> 12)) & 1) as bv1 }
  function Tap1(r: bv17): bv1 { (((r >> 16) ^ (r >> 2)) & 1) as bv1 }
  function Shift0(r: bv25): bv25 { (r << 1) | (Tap0(r) as bv25) }
  function Shift1(r: bv17): bv17 { (r << 1) | (Tap1(r) as bv17) }

  // The registers after n single-bit steps, and the n-th bit they emit.
  function Shifted0(r: bv25, n: nat): bv25
    decreases n
  {
    if n == 0 then r else Shift0(Shifted0(r, n - 1))
  }
  function Shifted1(r: bv17, n: nat): bv17
    decreases n
  {
    if n == 0 then r else Shift1(Shifted1(r, n - 1))
  }
  function Stream0(r: bv25, n: nat): bv1 { Tap0(Shifted0(r, n)) }
  function Stream1(r: bv17, n: nat): bv1 { Tap1(Shifted1(r, n)) }

  // Both registers and the carry of the adder.
  datatype Gen = Gen(r0: bv25, r1: bv17, carry: bv1)

  // The two outputs of a full adder.
  function Xor3(a: bv1, b: bv1, c: bv1): bv1 { a ^ b ^ c }
  function Majority(a: bv1, b: bv1, c: bv1): bv1 { (a & b) | (a & c) | (b & c) }

  // The n-th bits the adder is fed; c is 1 for a complemented stream.
  function Input0(r: bv25, c: bv1, n: nat): bv1 { Stream0(r, n) ^ c }
  function Input1(r: bv17, c: bv1, n: nat): bv1 { Stream1(r, n) ^ c }

  // The carry into bit n, and bit n of the sum.
  function CarryAt(g: Gen, c0: bv1, c1: bv1, n: nat): bv1
    decreases n
  {
    if n == 0 then g.carry
    else Majority(Input0(g.r0, c0, n - 1), Input1(g.r1, c1, n - 1), CarryAt(g, c0, c1, n - 1))
  }
  function SumBit(g: Gen, c0: bv1, c1: bv1, n: nat): bv1 {
    Xor3(Input0(g.r0, c0, n), Input1(g.r1, c1, n), CarryAt(g, c0, c1, n))
  }

  // The generator after n single-bit steps.
  function BitRun(g: Gen, c0: bv1, c1: bv1, n: nat): Gen {
    Gen(Shifted0(g.r0, n), Shifted1(g.r1, n), CarryAt(g, c0, c1, n))
  }

  // ---------------------------------------------------------------------------------------
  // What the sum bits mean
  // ---------------------------------------------------------------------------------------

  function Pow2(n: nat): nat { if n == 0 then 1 else 2 * Pow2(n - 1) }

  // The number whose binary digits are the first n bits of a stream, least significant first.
  function Value(bits: nat -> bv1, n: nat): nat {
    if n == 0 then 0 else Value(bits, n - 1) + if bits(n - 1) == 1 then Pow2(n - 1) else 0
  }

  // The emitted stream is the integer sum of the two (complemented) register streams.
  lemma {:induction false} SumBitsAreIntegerSum(g: Gen, c0: bv1, c1: bv1, n: nat)
    ensures Value((i: nat) => SumBit(g, c0, c1, i), n) + (if CarryAt(g, c0, c1, n) == 1 then Pow2(n) else 0)
         == Value((i: nat) => Input0(g.r0, c0, i), n) + Value((i: nat) => Input1(g.r1, c1, i), n)
          + (if g.carry == 1 then 1 else 0)
  {
    hide Input0, Input1, Xor3, Majority;
    if n > 0 {
      SumBitsAreIntegerSum(g, c0, c1, n - 1);
      FullAdder(Input0(g.r0, c0, n - 1), Input1(g.r1, c1, n - 1), CarryAt(g, c0, c1, n - 1));
    }
  }

  lemma FullAdder(a: bv1, b: bv1, c: bv1)
    ensures (if Xor3(a, b, c) == 1 then 1 else 0) + (if Majority(a, b, c) == 1 then 2 else 0)
         == (if a == 1 then 1 else 0) + (if b == 1 then 1 else 0) + (if c == 1 then 1 else 0)
  {
  }

  // ---------------------------------------------------------------------------------------
  // Both registers are reversible, so neither ever becomes all zero
  // ---------------------------------------------------------------------------------------

  function Unshift0(r: bv25): bv25 { (r >> 1) | ((r ^ (r >> 22) ^ (r >> 21) ^ (r >> 13)) << 24) }
  function Unshift1(r: bv17): bv17 { (r >> 1) | ((r ^ (r >> 3)) << 16) }

  lemma Shift0IsReversible(r: bv25)
    ensures Unshift0(Shift0(r)) == r && Shift0(Unshift0(r)) == r
  {
    hide Unshift0, Shift0;
    Shift0IsUndone(r);
    Unshift0IsUndone(r);
  }
  lemma Shift0IsUndone(r: bv25)
    ensures Unshift0(Shift0(r)) == r
  {
  }
  lemma Unshift0IsUndone(r: bv25)
    ensures Shift0(Unshift0(r)) == r
  {
  }

  lemma Shift1IsReversible(r: bv17)
    ensures Unshift1(Shift1(r)) == r && Shift1(Unshift1(r)) == r
  {
    hide Unshift1, Shift1;
    Shift1IsUndone(r);
    Unshift1IsUndone(r);
  }
  lemma Shift1IsUndone(r: bv17)
    ensures Unshift1(Shift1(r)) == r
  {
  }
  lemma Unshift1IsUndone(r: bv17)
    ensures Shift1(Unshift1(r)) == r
  {
  }

  lemma {:induction false} RegistersNeverVanish(r: bv25, s: bv17, n: nat)
    ensures Shifted0(r, n) == 0 <==> r == 0
    ensures Shifted1(s, n) == 0 <==> s == 0
  {
    if n > 0 {
      RegistersNeverVanish(r, s, n - 1);
      Shift0IsReversible(Shifted0(r, n - 1));
      Shift1IsReversible(Shifted1(s, n - 1));
      assert Unshift0(0) == 0 && Shift0(0) == 0 && Unshift1(0) == 0 && Shift1(0) == 0;
    }
  }

  // ---------------------------------------------------------------------------------------
  // One byte at a time
  // ---------------------------------------------------------------------------------------

  // The next eight bits of each register, the first one in the most significant place.
  function Byte0(r: bv25): bv8 { (((r >> 5) ^ (r >> 13) ^ (r >> 14) ^ (r >> 17)) & 0xff) as bv8 }
  function Byte1(r: bv17): bv8 {
    var x, y := (r >> 9) as bv8, (r & 7) as bv8;
    x ^ (x >> 3) ^ (x >> 6) ^ (y << 5) ^ (y << 2) ^ (y >> 1)
  }

  function Feed0(r: bv25, o: bv8): bv25 { (r << 8) | (o as bv25) }
  function Feed1(r: bv17, o: bv8): bv17 { (r << 8) | (o as bv17) }

  // Addition of two bytes and a carry, and the two halves of its result.
  function Add(a: bv8, b: bv8, carry: bv1): bv32 { (carry as bv32) + (a as bv32) + (b as bv32) }
  function Low(t: bv32): bv8 { (t & 0xff) as bv8 }
  function High(t: bv32): bv1 { ((t >> 8) & 1) as bv1 }

  // The byte that, added to a with the carry, gives y.
  function Difference(y: bv8, a: bv8, carry: bv1): bv8 { y - a - (carry as bv8) }

  lemma DifferenceAddsUp(y: bv8, a: bv8, carry: bv1)
    ensures Low(Add(Difference(y, a, carry), a, carry)) == y
  {
  }

  lemma DifferenceIsUnique(x: bv8, a: bv8, carry: bv1)
    ensures Difference(Low(Add(x, a, carry)), a, carry) == x
  {
  }

  // One step on bytes; m0 and m1 are xored onto the bytes of the two registers.
  function Total(g: Gen, m0: bv8, m1: bv8): bv32 {
    Add(Reversed(Byte0(g.r0)) ^ m0, Reversed(Byte1(g.r1)) ^ m1, g.carry)
  }
  function Step(g: Gen, m0: bv8, m1: bv8): Gen {
    Gen(Feed0(g.r0, Byte0(g.r0)), Feed1(g.r1, Byte1(g.r1)), High(Total(g, m0, m1)))
  }
  function Out(g: Gen, m0: bv8, m1: bv8): bv8 { Low(Total(g, m0, m1)) }

  function Run(g: Gen, m0: bv8, m1: bv8, n: nat): Gen
    decreases n
  {
    if n == 0 then g else Step(Run(g, m0, m1, n - 1), m0, m1)
  }

  // Byte n of the key stream.
  function At(g: Gen, m0: bv8, m1: bv8, n: nat): bv8 { Out(Run(g, m0, m1, n), m0, m1) }

  // ---------------------------------------------------------------------------------------
  // Bytes as loop counters
  // ---------------------------------------------------------------------------------------

  function ToByte(i: int): bv8
    requires 0 <= i < 256
  {
    i as bv8
  }
  function ToInt(x: bv8): int { x as int }

  lemma ByteRoundTrip(x: bv8)
    ensures 0 <= ToInt(x) < 256 && ToByte(ToInt(x)) == x
  {
  }

  lemma {:induction false} IntRoundTrip(i: int)
    requires 0 <= i < 256
    ensures ToInt(ToByte(i)) == i
    decreases i
  {
    hide ToInt, ToByte;
    if i == 0 {
      ZeroByte();
      ByteRoundTrip(0);
    } else {
      IntRoundTrip(i - 1);
      NextByte(ToByte(i - 1));
      ByteRoundTrip(ToByte(i - 1) + 1);
    }
  }

  lemma ZeroByte()
    ensures ToInt(0) == 0
  {
  }

  lemma NextByte(x: bv8)
    requires ToInt(x) < 255
    ensures ToInt(x + 1) == ToInt(x) + 1
  {
  }

  // ---------------------------------------------------------------------------------------
  // Seeding
  // ---------------------------------------------------------------------------------------

  // A dvd_key.
  datatype Key = Key(b0: bv8, b1: bv8, b2: bv8, b3: bv8, b4: bv8) {
    function Xor(k: Key): Key { Key(b0 ^ k.b0, b1 ^ k.b1, b2 ^ k.b2, b3 ^ k.b3, b4 ^ k.b4) }
    function Bytes(): seq<bv8> { [b0, b1, b2, b3, b4] }
  }

  // The key that stands for none
  const NO_KEY := Key(0, 0, 0, 0, 0)

  function KeyOf(s: seq<bv8>): Key
    requires |s| == 5
  {
    Key(s[0], s[1], s[2], s[3], s[4])
  }

  // The five bytes of s from position at on.
  function KeyAt(s: seq<bv8>, at: nat): Key
    requires at + 5 <= |s|
  {
    Key(s[at], s[at + 1], s[at + 2], s[at + 3], s[at + 4])
  }

  // The last three bytes of a key as one word, and back.
  function Word24(k: Key): bv25 { (k.b2 as bv25) | ((k.b3 as bv25) << 8) | ((k.b4 as bv25) << 16) }
  function SeedByte2(x: bv32): bv8 { (x & 0xff) as bv8 }
  function SeedByte3(x: bv32): bv8 { ((x >> 8) & 0xff) as bv8 }
  function SeedByte4(x: bv32): bv8 { ((x >> 16) & 0xff) as bv8 }

  // Each register gets a one bit in the middle of its key bytes: bit 3 of the one, bit 8 of the other.
  function Seed0(k: Key): bv25 { ((Word24(k) >> 3) << 4) | 8 | (Word24(k) & 7) }
  function Word17(b0: bv8, b1: bv8): bv17 { ((b1 as bv17) << 9) | 0x100 | (b0 as bv17) }
  function Seed1(k: Key): bv17 { Word17(k.b0, k.b1) }
  function Seeded(k: Key): Gen { Gen(Seed0(k), Seed1(k), 0) }

  // The purpose of those bits: from no key does either register ever become all zero.
  lemma SeededRegistersNeverVanish(k: Key, m0: bv8, m1: bv8, n: nat)
    ensures Run(Seeded(k), m0, m1, n).r0 != 0
    ensures Run(Seeded(k), m0, m1, n).r1 != 0
  {
    hide Shift0, Shift1, Word24;
    RegistersNeverVanish(Seed0(k), Seed1(k), 8 * n);
    RunShiftsRegisters(Seeded(k), m0, m1, n);
  }

  // ---------------------------------------------------------------------------------------
  // Eight single-bit steps of each register
  // ---------------------------------------------------------------------------------------

  function Mask(c: bv1): bv8 { if c == 1 then 0xff else 0 }

  // The byte with the given bits, least significant first.
  function Pack(b0: bv1, b1: bv1, b2: bv1, b3: bv1, b4: bv1, b5: bv1, b6: bv1, b7: bv1): bv8 {
    (b0 as bv8) | ((b1 as bv8) << 1) | ((b2 as bv8) << 2) | ((b3 as bv8) << 3) |
    ((b4 as bv8) << 4) | ((b5 as bv8) << 5) | ((b6 as bv8) << 6) | ((b7 as bv8) << 7)
  }

  // Four single-bit steps at once.
  function Nibble0(r: bv25): bv25 { Join(r, TopNibble(r)) }
  function TopNibble(r: bv25): bv25 { ((r >> 21) ^ (r >> 18) ^ (r >> 17) ^ (r >> 9)) & 15 }
  function NextNibble(r: bv25): bv25 { ((r >> 17) ^ (r >> 14) ^ (r >> 13) ^ (r >> 5)) & 15 }
  function Join(r: bv25, n: bv25): bv25 { (r << 4) | n }
  function Nibble1(r: bv17): bv17 { (r << 4) | (((r >> 13) ^ ((r & 7) << 1) ^ (((r >> 16) ^ (r >> 2)) & 1)) & 15) }

  lemma MaskedPack(x: bv8, c: bv1, b0: bv1, b1: bv1, b2: bv1, b3: bv1, b4: bv1, b5: bv1, b6: bv1, b7: bv1)
    requires x == Pack(b0, b1, b2, b3, b4, b5, b6, b7)
    ensures x ^ Mask(c)
         == Pack(b0 ^ c, b1 ^ c, b2 ^ c, b3 ^ c, b4 ^ c, b5 ^ c, b6 ^ c, b7 ^ c)
  {
  }

  lemma FourShifts0(r: bv25)
    ensures Shift0(Shift0(Shift0(Shift0(r)))) == Nibble0(r)
  {
    hide Shift0, FourIn, Nibble0;
    FourShiftsAreFourIn(r);
    FourInIsNibble(r);
  }

  function FourIn(r: bv25): bv25 { (r << 4) | (((r >> 21) ^ (r >> 18) ^ (r >> 17) ^ (r >> 9)) & 15) }

  lemma FourShiftsAreFourIn(r: bv25)
    ensures Shift0(Shift0(Shift0(Shift0(r)))) == FourIn(r)
  {
  }

  lemma FourInIsNibble(r: bv25)
    ensures FourIn(r) == Nibble0(r)
  {
  }

  lemma TwoNibbles0(r: bv25, s: bv25)
    requires s == Nibble0(r)
    ensures Nibble0(s) == Feed0(r, Byte0(r))
  {
    hide Join, TopNibble, NextNibble, Feed0, Byte0;
    TopOfJoin(r, TopNibble(r));
    TopIsNibble(r);
    FeedJoinsNibbles(r);
  }

  lemma TopIsNibble(r: bv25)
    ensures TopNibble(r) & 15 == TopNibble(r)
  {
  }

  lemma TopOfJoin(r: bv25, n: bv25)
    ensures TopNibble(Join(r, n & 15)) == NextNibble(r)
  {
  }

  lemma FeedJoinsNibbles(r: bv25)
    ensures Feed0(r, Byte0(r)) == Join(Join(r, TopNibble(r)), NextNibble(r))
  {
  }

  lemma FourSteps0(r: bv25, n: nat)
    ensures Shifted0(r, n + 4) == Nibble0(Shifted0(r, n))
  {
    hide Shift0, Nibble0;
    FourShifts0(Shifted0(r, n));
    assert Shifted0(r, n + 1) == Shift0(Shifted0(r, n));
    assert Shifted0(r, n + 2) == Shift0(Shifted0(r, n + 1));
    assert Shifted0(r, n + 3) == Shift0(Shifted0(r, n + 2));
  }

  lemma EightShifts0(r: bv25)
    ensures Shifted0(r, 8) == Feed0(r, Byte0(r))
  {
    hide Shift0, Nibble0, Feed0, Byte0;
    FourSteps0(r, 0);
    FourSteps0(r, 4);
    TwoNibbles0(r, Nibble0(r));
  }

  // Eight bits shifted in one by one end up in the low byte, the first one highest.
  lemma EightPushes0(o: bv8, s0: bv25, s1: bv25, s2: bv25, s3: bv25, s4: bv25, s5: bv25, s6: bv25, s7: bv25)
    requires s1 == Shift0(s0) && s2 == Shift0(s1) && s3 == Shift0(s2) && s4 == Shift0(s3)
    requires s5 == Shift0(s4) && s6 == Shift0(s5) && s7 == Shift0(s6) && Shift0(s7) == Feed0(s0, o)
    ensures Reversed(o) == Pack(Tap0(s0), Tap0(s1), Tap0(s2), Tap0(s3), Tap0(s4), Tap0(s5), Tap0(s6), Tap0(s7))
  {
    hide Tap0;
  }

  // The next eight bits of the register, as a byte.
  lemma Emitted0(r: bv25)
    ensures Reversed(Byte0(r)) == Pack(Stream0(r, 0), Stream0(r, 1), Stream0(r, 2), Stream0(r, 3),
                                     Stream0(r, 4), Stream0(r, 5), Stream0(r, 6), Stream0(r, 7))
  {
    hide Shift0, Tap0, Byte0, Feed0, Reversed, Pack;
    EightShifts0(r);
    assert r == Shifted0(r, 0);
    EightPushes0(Byte0(r), Shifted0(r, 0), Shifted0(r, 1), Shifted0(r, 2), Shifted0(r, 3),
                 Shifted0(r, 4), Shifted0(r, 5), Shifted0(r, 6), Shifted0(r, 7));
  }

  lemma MaskedInput0(r: bv25, c: bv1)
    ensures Reversed(Byte0(r)) ^ Mask(c)
         == Pack(Input0(r, c, 0), Input0(r, c, 1), Input0(r, c, 2), Input0(r, c, 3),
                 Input0(r, c, 4), Input0(r, c, 5), Input0(r, c, 6), Input0(r, c, 7))
  {
    hide Stream0, Byte0, Reversed, Pack, Mask;
    Emitted0(r);
    MaskedPack(Reversed(Byte0(r)), c, Stream0(r, 0), Stream0(r, 1), Stream0(r, 2), Stream0(r, 3),
               Stream0(r, 4), Stream0(r, 5), Stream0(r, 6), Stream0(r, 7));
  }

  lemma FourShifts1(r: bv17)
    ensures Shift1(Shift1(Shift1(Shift1(r)))) == Nibble1(r)
  {
  }

  lemma TwoNibbles1(r: bv17)
    ensures Nibble1(Nibble1(r)) == Feed1(r, Byte1(r))
  {
  }

  lemma FourSteps1(r: bv17, n: nat)
    ensures Shifted1(r, n + 4) == Nibble1(Shifted1(r, n))
  {
    hide Shift1, Nibble1;
    FourShifts1(Shifted1(r, n));
    assert Shifted1(r, n + 1) == Shift1(Shifted1(r, n));
    assert Shifted1(r, n + 2) == Shift1(Shifted1(r, n + 1));
    assert Shifted1(r, n + 3) == Shift1(Shifted1(r, n + 2));
  }

  lemma EightShifts1(r: bv17)
    ensures Shifted1(r, 8) == Feed1(r, Byte1(r))
  {
    hide Shift1, Nibble1, Feed1, Byte1;
    FourSteps1(r, 0);
    FourSteps1(r, 4);
    TwoNibbles1(r);
  }

  // Eight bits shifted in one by one end up in the low byte, the first one highest.
  lemma EightPushes1(o: bv8, s0: bv17, s1: bv17, s2: bv17, s3: bv17, s4: bv17, s5: bv17, s6: bv17, s7: bv17)
    requires s1 == Shift1(s0) && s2 == Shift1(s1) && s3 == Shift1(s2) && s4 == Shift1(s3)
    requires s5 == Shift1(s4) && s6 == Shift1(s5) && s7 == Shift1(s6) && Shift1(s7) == Feed1(s0, o)
    ensures Reversed(o) == Pack(Tap1(s0), Tap1(s1), Tap1(s2), Tap1(s3), Tap1(s4), Tap1(s5), Tap1(s6), Tap1(s7))
  {
    hide Tap1;
  }

  // The next eight bits of the register, as a byte.
  lemma Emitted1(r: bv17)
    ensures Reversed(Byte1(r)) == Pack(Stream1(r, 0), Stream1(r, 1), Stream1(r, 2), Stream1(r, 3),
                                     Stream1(r, 4), Stream1(r, 5), Stream1(r, 6), Stream1(r, 7))
  {
    hide Shift1, Tap1, Byte1, Feed1, Reversed, Pack;
    EightShifts1(r);
    assert r == Shifted1(r, 0);
    EightPushes1(Byte1(r), Shifted1(r, 0), Shifted1(r, 1), Shifted1(r, 2), Shifted1(r, 3),
                 Shifted1(r, 4), Shifted1(r, 5), Shifted1(r, 6), Shifted1(r, 7));
  }

  lemma MaskedInput1(r: bv17, c: bv1)
    ensures Reversed(Byte1(r)) ^ Mask(c)
         == Pack(Input1(r, c, 0), Input1(r, c, 1), Input1(r, c, 2), Input1(r, c, 3),
                 Input1(r, c, 4), Input1(r, c, 5), Input1(r, c, 6), Input1(r, c, 7))
  {
    hide Stream1, Byte1, Reversed, Pack, Mask;
    Emitted1(r);
    MaskedPack(Reversed(Byte1(r)), c, Stream1(r, 0), Stream1(r, 1), Stream1(r, 2), Stream1(r, 3),
               Stream1(r, 4), Stream1(r, 5), Stream1(r, 6), Stream1(r, 7));
  }

  // Whatever is xored onto the bytes and whatever the carries are, the registers shift all the same.
  lemma {:induction false} RunShiftsRegisters(g: Gen, m0: bv8, m1: bv8, n: nat)
    ensures Run(g, m0, m1, n).r0 == Shifted0(g.r0, 8 * n)
    ensures Run(g, m0, m1, n).r1 == Shifted1(g.r1, 8 * n)
  {
    hide Shift0, Shift1, Byte0, Byte1, Feed0, Feed1, Total, High;
    if n > 0 {
      RunShiftsRegisters(g, m0, m1, n - 1);
      EightShifts0(Shifted0(g.r0, 8 * (n - 1)));
      EightShifts1(Shifted1(g.r1, 8 * (n - 1)));
      ShiftsCompose(g.r0, g.r1, 8 * (n - 1), 8);
    }
  }

  lemma {:induction false} ShiftsCompose(r: bv25, s: bv17, m: nat, n: nat)
    ensures Shifted0(Shifted0(r, m), n) == Shifted0(r, m + n)
    ensures Shifted1(Shifted1(s, m), n) == Shifted1(s, m + n)
  {
    hide Shift0, Shift1;
    if n > 0 {
      ShiftsCompose(r, s, m, n - 1);
    }
  }

  // ---------------------------------------------------------------------------------------
  // Adding two bytes and a carry is eight full adders in a row
  // ---------------------------------------------------------------------------------------

  function NibbleCarry(a: bv8, b: bv8, c: bv1): bv1 { (((a & 15) + (b & 15) + (c as bv8)) >> 4) as bv1 }

  // The carries k1 to k4 ripple through the low half, k5 to k8 through the high half.
  lemma LowNibbleRipples(a: bv8, b: bv8, k0: bv1, k1: bv1, k2: bv1, k3: bv1, k4: bv1, a0: bv1, a1: bv1, a2: bv1,
            a3: bv1,
                         b0: bv1, b1: bv1, b2: bv1, b3: bv1)
    requires a & 15 == Pack(a0, a1, a2, a3, 0, 0, 0, 0) && b & 15 == Pack(b0, b1, b2, b3, 0, 0, 0, 0)
    requires k1 == Majority(a0, b0, k0) && k2 == Majority(a1, b1, k1)
    requires k3 == Majority(a2, b2, k2) && k4 == Majority(a3, b3, k3)
    ensures k4 == NibbleCarry(a, b, k0)
    ensures Low(Add(a, b, k0)) & 15
         == Pack(Xor3(a0, b0, k0), Xor3(a1, b1, k1), Xor3(a2, b2, k2), Xor3(a3, b3, k3), 0, 0, 0, 0)
  {
  }

  lemma HighNibbleRipples(a: bv8, b: bv8, k0: bv1, k4: bv1, k5: bv1, k6: bv1, k7: bv1, k8: bv1,
                          a4: bv1, a5: bv1, a6: bv1, a7: bv1, b4: bv1, b5: bv1, b6: bv1, b7: bv1)
    requires a & 0xf0 == Pack(0, 0, 0, 0, a4, a5, a6, a7) && b & 0xf0 == Pack(0, 0, 0, 0, b4, b5, b6, b7)
    requires k4 == NibbleCarry(a, b, k0)
    requires k5 == Majority(a4, b4, k4) && k6 == Majority(a5, b5, k5)
    requires k7 == Majority(a6, b6, k6) && k8 == Majority(a7, b7, k7)
    ensures High(Add(a, b, k0)) == k8
    ensures Low(Add(a, b, k0)) & 0xf0
         == Pack(0, 0, 0, 0, Xor3(a4, b4, k4), Xor3(a5, b5, k5), Xor3(a6, b6, k6), Xor3(a7, b7, k7))
  {
  }

  lemma PackNibbles(x: bv8, b0: bv1, b1: bv1, b2: bv1, b3: bv1, b4: bv1, b5: bv1, b6: bv1, b7: bv1)
    ensures x == Pack(b0, b1, b2, b3, b4, b5, b6, b7) <==>
            x & 15 == Pack(b0, b1, b2, b3, 0, 0, 0, 0) && x & 0xf0 == Pack(0, 0, 0, 0, b4, b5, b6, b7)
  {
  }

  lemma AddRipples(a: bv8, b: bv8, k0: bv1, k1: bv1, k2: bv1, k3: bv1, k4: bv1, k5: bv1, k6: bv1, k7: bv1, k8: bv1,
                   a0: bv1, a1: bv1, a2: bv1, a3: bv1, a4: bv1, a5: bv1, a6: bv1, a7: bv1,
                   b0: bv1, b1: bv1, b2: bv1, b3: bv1, b4: bv1, b5: bv1, b6: bv1, b7: bv1)
    requires a == Pack(a0, a1, a2, a3, a4, a5, a6, a7) && b == Pack(b0, b1, b2, b3, b4, b5, b6, b7)
    requires k1 == Majority(a0, b0, k0) && k2 == Majority(a1, b1, k1) && k3 == Majority(a2, b2, k2)
    requires k4 == Majority(a3, b3, k3) && k5 == Majority(a4, b4, k4) && k6 == Majority(a5, b5, k5)
    requires k7 == Majority(a6, b6, k6) && k8 == Majority(a7, b7, k7)
    ensures High(Add(a, b, k0)) == k8
    ensures Low(Add(a, b, k0)) == Pack(Xor3(a0, b0, k0), Xor3(a1, b1, k1), Xor3(a2, b2, k2), Xor3(a3, b3, k3),
                                       Xor3(a4, b4, k4), Xor3(a5, b5, k5), Xor3(a6, b6, k6), Xor3(a7, b7, k7))
  {
    hide Pack, Add, Low, High, Majority, Xor3, NibbleCarry;
    PackNibbles(a, a0, a1, a2, a3, a4, a5, a6, a7);
    PackNibbles(b, b0, b1, b2, b3, b4, b5, b6, b7);
    LowNibbleRipples(a, b, k0, k1, k2, k3, k4, a0, a1, a2, a3, b0, b1, b2, b3);
    HighNibbleRipples(a, b, k0, k4, k5, k6, k7, k8, a4, a5, a6, a7, b4, b5, b6, b7);
    PackNibbles(Low(Add(a, b, k0)), Xor3(a0, b0, k0), Xor3(a1, b1, k1), Xor3(a2, b2, k2), Xor3(a3, b3, k3),
                Xor3(a4, b4, k4), Xor3(a5, b5, k5), Xor3(a6, b6, k6), Xor3(a7, b7, k7));
  }

  // ---------------------------------------------------------------------------------------
  // The byte machine is the bit machine
  // ---------------------------------------------------------------------------------------

  // Bits n to n + 7 of the sum stream, as a byte.
  function SumByte(g: Gen, c0: bv1, c1: bv1, n: nat): bv8 {
    Pack(SumBit(g, c0, c1, n), SumBit(g, c0, c1, n + 1), SumBit(g, c0, c1, n + 2), SumBit(g, c0, c1, n + 3),
         SumBit(g, c0, c1, n + 4), SumBit(g, c0, c1, n + 5), SumBit(g, c0, c1, n + 6), SumBit(g, c0, c1, n + 7))
  }

  lemma CarryStep(g: Gen, c0: bv1, c1: bv1, n: nat)
    ensures CarryAt(g, c0, c1, n + 1)
         == Majority(Input0(g.r0, c0, n), Input1(g.r1, c1, n), if n == 0 then g.carry else CarryAt(g, c0, c1, n))
  {
  }

  lemma TotalRipples(g: Gen, c0: bv1, c1: bv1, a: bv8, b: bv8)
    requires a == Reversed(Byte0(g.r0)) ^ Mask(c0) && b == Reversed(Byte1(g.r1)) ^ Mask(c1)
    ensures High(Add(a, b, g.carry)) == CarryAt(g, c0, c1, 8)
    ensures Low(Add(a, b, g.carry))
         == Pack(Xor3(Input0(g.r0, c0, 0), Input1(g.r1, c1, 0), g.carry),
                 Xor3(Input0(g.r0, c0, 1), Input1(g.r1, c1, 1), CarryAt(g, c0, c1, 1)),
                 Xor3(Input0(g.r0, c0, 2), Input1(g.r1, c1, 2), CarryAt(g, c0, c1, 2)),
                 Xor3(Input0(g.r0, c0, 3), Input1(g.r1, c1, 3), CarryAt(g, c0, c1, 3)),
                 Xor3(Input0(g.r0, c0, 4), Input1(g.r1, c1, 4), CarryAt(g, c0, c1, 4)),
                 Xor3(Input0(g.r0, c0, 5), Input1(g.r1, c1, 5), CarryAt(g, c0, c1, 5)),
                 Xor3(Input0(g.r0, c0, 6), Input1(g.r1, c1, 6), CarryAt(g, c0, c1, 6)),
                 Xor3(Input0(g.r0, c0, 7), Input1(g.r1, c1, 7), CarryAt(g, c0, c1, 7)))
  {
    hide Byte0, Byte1, CarryAt, Add, Low, High, Reversed, Mask, Pack, Input0, Input1, Xor3, Majority;
    MaskedInput0(g.r0, c0);
    MaskedInput1(g.r1, c1);
    CarryStep(g, c0, c1, 0); CarryStep(g, c0, c1, 1); CarryStep(g, c0, c1, 2); CarryStep(g, c0, c1, 3);
    CarryStep(g, c0, c1, 4); CarryStep(g, c0, c1, 5); CarryStep(g, c0, c1, 6); CarryStep(g, c0, c1, 7);
    AddRipples(a, b,
               g.carry, CarryAt(g, c0, c1, 1), CarryAt(g, c0, c1, 2), CarryAt(g, c0, c1, 3),
               CarryAt(g, c0, c1, 4), CarryAt(g, c0, c1, 5), CarryAt(g, c0, c1, 6), CarryAt(g, c0, c1, 7),
               CarryAt(g, c0, c1, 8),
               Input0(g.r0, c0, 0), Input0(g.r0, c0, 1), Input0(g.r0, c0, 2), Input0(g.r0, c0, 3),
               Input0(g.r0, c0, 4), Input0(g.r0, c0, 5), Input0(g.r0, c0, 6), Input0(g.r0, c0, 7),
               Input1(g.r1, c1, 0), Input1(g.r1, c1, 1), Input1(g.r1, c1, 2), Input1(g.r1, c1, 3),
               Input1(g.r1, c1, 4), Input1(g.r1, c1, 5), Input1(g.r1, c1, 6), Input1(g.r1, c1, 7));
  }

  // One byte step is eight bit steps.
  lemma ByteStepIsEightBitSteps(g: Gen, c0: bv1, c1: bv1)
    ensures Step(g, Mask(c0), Mask(c1)) == BitRun(g, c0, c1, 8)
    ensures Out(g, Mask(c0), Mask(c1)) == SumByte(g, c0, c1, 0)
  {
    hide Feed0, Feed1, Byte0, Byte1, Reversed, Add, High, Low, Mask, Shifted0, Shifted1, Input0, Input1, Xor3,
              Majority, Pack;
    EightShifts0(g.r0);
    EightShifts1(g.r1);
    TotalRipples(g, c0, c1, Reversed(Byte0(g.r0)) ^ Mask(c0), Reversed(Byte1(g.r1)) ^ Mask(c1));
    assert CarryAt(g, c0, c1, 0) == g.carry;
  }

  lemma {:induction false} BitRunsCompose(g: Gen, c0: bv1, c1: bv1, m: nat, n: nat)
    ensures BitRun(BitRun(g, c0, c1, m), c0, c1, n) == BitRun(g, c0, c1, m + n)
    ensures SumBit(BitRun(g, c0, c1, m), c0, c1, n) == SumBit(g, c0, c1, m + n)
  {
    hide Shift0, Shift1, Tap0, Tap1, Xor3, Majority;
    if n > 0 {
      BitRunsCompose(g, c0, c1, m, n - 1);
    }
  }

  lemma SumBytesCompose(g: Gen, c0: bv1, c1: bv1, m: nat)
    ensures SumByte(BitRun(g, c0, c1, m), c0, c1, 0) == SumByte(g, c0, c1, m)
  {
    hide SumBit, Pack, BitRun;
    BitRunsCompose(g, c0, c1, m, 0);
    BitRunsCompose(g, c0, c1, m, 1);
    BitRunsCompose(g, c0, c1, m, 2);
    BitRunsCompose(g, c0, c1, m, 3);
    BitRunsCompose(g, c0, c1, m, 4);
    BitRunsCompose(g, c0, c1, m, 5);
    BitRunsCompose(g, c0, c1, m, 6);
    BitRunsCompose(g, c0, c1, m, 7);
  }

  // The byte machine emits, for streams of any length, exactly the bits of the bit machine.
  lemma {:induction false} BytesAreBits(g: Gen, c0: bv1, c1: bv1, n: nat)
    ensures Run(g, Mask(c0), Mask(c1), n) == BitRun(g, c0, c1, 8 * n)
    ensures At(g, Mask(c0), Mask(c1), n) == SumByte(g, c0, c1, 8 * n)
  {
    hide Step, Out, SumBit, Mask, Pack, Input0, Input1, Majority, Shift0, Shift1;
    if n > 0 {
      BytesAreBits(g, c0, c1, n - 1);
      ByteStepIsEightBitSteps(BitRun(g, c0, c1, 8 * (n - 1)), c0, c1);
      BitRunsCompose(g, c0, c1, 8 * (n - 1), 8);
    }
    ByteStepIsEightBitSteps(BitRun(g, c0, c1, 8 * n), c0, c1);
    SumBytesCompose(g, c0, c1, 8 * n);
  }

  // The three forms of the C code emit the sum of the same two bit streams; they differ in which of
  // the two is complemented. Descrambling complements the second, DecryptKey none or, for title keys,
  // the first, CryptKey both.
  lemma ThreeFormsAreOneSum(g: Gen, n: nat)
    ensures At(g, 0, 0xff, n) == SumByte(g, 0, 1, 8 * n)
    ensures At(g, 0, 0, n) == SumByte(g, 0, 0, 8 * n) && At(g, 0xff, 0, n) == SumByte(g, 1, 0, 8 * n)
    ensures At(g, 0xff, 0xff, n) == SumByte(g, 1, 1, 8 * n)
  {
    hide At, SumByte, Run, BitRun;
    BytesAreBits(g, 0, 1, n);
    BytesAreBits(g, 0, 0, n);
    BytesAreBits(g, 1, 0, n);
    BytesAreBits(g, 1, 1, n);
  }
}
