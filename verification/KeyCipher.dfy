/** CryptKey (src/css.c): the cipher of the authentication protocol.

    The challenge is permuted. One half of it seeds the key stream generator, which here runs one
    bit at a time with both streams complemented; the other half goes through six chained
    substitution rounds. Two of the rounds end in a table that merges every byte with its
    complement, so the cipher is not a bijection: this module says exactly which inputs collide and
    exactly which keys can come out. */
module KeyCipher {
  import opened CssTables
  import opened Combiner
  import opened Sector

  // ---------------------------------------------------------------------------------------
  // The registers as 32-bit words that are never truncated
  // ---------------------------------------------------------------------------------------

  function Word0Tap(l: bv32): bv8 { (((l >> 24) ^ (l >> 21) ^ (l >> 20) ^ (l >> 12)) & 1) as bv8 }
  function Word1Tap(l: bv32): bv8 { (((l >> 16) ^ (l >> 2)) & 1) as bv8 }
  function Pushed(l: bv32, o: bv8): bv32 { (l << 1) | (o as bv32) }

  // What the second word holds below the bits that have been shifted out of the register
  function Trunc17(l: bv32): bv17 { (l & 0x1ffff) as bv17 }
  function Bit(b: bv1): bv8 { b as bv8 }

  lemma Word0TapIsTap(l: bv32)
    ensures Word0Tap(l) == Bit(Tap0(Lfsr25(l)))
  {
  }
  lemma Word1TapIsTap(l: bv32)
    ensures Word1Tap(l) == Bit(Tap1(Trunc17(l)))
  {
  }
  // The registers with a bit shifted in
  function In25(r: bv25, o: bv1): bv25 { (r << 1) | (o as bv25) }
  function In17(r: bv17, o: bv1): bv17 { (r << 1) | (o as bv17) }

  lemma PushIsShift0(l: bv32)
    ensures Lfsr25(Pushed(l, Bit(Tap0(Lfsr25(l))))) == Shift0(Lfsr25(l))
  {
    hide Tap0, Lfsr25, Pushed, Bit, In25, Shift0;
    Push0Truncates(l, Tap0(Lfsr25(l)));
    ShiftIsIn(Lfsr25(l), Trunc17(l));
  }
  lemma PushIsShift1(l: bv32)
    ensures Trunc17(Pushed(l, Bit(Tap1(Trunc17(l))))) == Shift1(Trunc17(l))
  {
    hide Tap1, Trunc17, Pushed, Bit, In17, Shift1;
    Push1Truncates(l, Tap1(Trunc17(l)));
    ShiftIsIn(Lfsr25(l), Trunc17(l));
  }
  lemma Push0Truncates(l: bv32, o: bv1)
    ensures Lfsr25(Pushed(l, Bit(o))) == In25(Lfsr25(l), o)
  {
    Push0TruncatesUnfolds(l, o);
  }
  lemma Push0TruncatesUnfolds(l: bv32, o: bv1)
    ensures Lfsr25((l << 1) | ((o as bv8) as bv32)) == In25(Lfsr25(l), o)
  {
  }
  lemma Push1Truncates(l: bv32, o: bv1)
    ensures Trunc17(Pushed(l, Bit(o))) == In17(Trunc17(l), o)
  {
    Push1TruncatesUnfolds(l, o);
  }
  lemma Push1TruncatesUnfolds(l: bv32, o: bv1)
    ensures Trunc17((l << 1) | ((o as bv8) as bv32)) == In17(Trunc17(l), o)
  {
  }
  lemma ShiftIsIn(r: bv25, s: bv17)
    ensures Shift0(r) == In25(r, Tap0(r)) && Shift1(s) == In17(s, Tap1(s))
  {
    hide Tap0, Tap1;
  }

  // The negation operator of C on a single bit, the sum of the two negated bits and the carry,
  // and its two halves
  function Not(o: bv8): bv8 { if o == 0 then 1 else 0 }
  function Sum(o1: bv8, carry: bv8, o0: bv8): bv8 { o1 + carry + o0 }
  function LowBit(combined: bv8): bv8 { combined & 1 }
  function CarryBit(combined: bv8): bv8 { (combined >> 1) & 1 }

  lemma SumIsFullAdder(o0: bv1, o1: bv1, carry: bv1)
    ensures LowBit(Sum(Not(Bit(o1)), Bit(carry), Not(Bit(o0)))) == Bit(Xor3(o0 ^ 1, o1 ^ 1, carry))
    ensures CarryBit(Sum(Not(Bit(o1)), Bit(carry), Not(Bit(o0)))) == Bit(Majority(o0 ^ 1, o1 ^ 1, carry))
  {
  }

  // The byte whose bits below j are bits n, n + 1 and so on of the sum stream
  function Partial(g: Gen, n: nat, j: nat): bv8
    requires j <= 8
    decreases j
  {
    if j == 0 then 0 else WithBit(Partial(g, n, j - 1), Bit(SumBit(g, 1, 1, n + j - 1)), j - 1)
  }
  function WithBit(val: bv8, b: bv8, j: nat): bv8
    requires j < 8
  {
    val | (b << j)
  }

  lemma PartialIsSumByte(g: Gen, n: nat)
    ensures Partial(g, n, 8) == SumByte(g, 1, 1, n)
  {
    hide SumBit, WithBit, Bit, Pack;
    PackByBits(SumBit(g, 1, 1, n), SumBit(g, 1, 1, n + 1), SumBit(g, 1, 1, n + 2), SumBit(g, 1, 1, n + 3),
               SumBit(g, 1, 1, n + 4), SumBit(g, 1, 1, n + 5), SumBit(g, 1, 1, n + 6), SumBit(g, 1, 1, n + 7));
    assert Partial(g, n, 4) == WithBit(Partial(g, n, 3), Bit(SumBit(g, 1, 1, n + 3)), 3);
  }

  lemma PackByBits(b0: bv1, b1: bv1, b2: bv1, b3: bv1, b4: bv1, b5: bv1, b6: bv1, b7: bv1)
    ensures Pack(b0, b1, b2, b3, b4, b5, b6, b7)
         == WithBit(WithBit(WithBit(WithBit(WithBit(WithBit(WithBit(WithBit(0, Bit(b0), 0), Bit(b1), 1), Bit(b2), 2),
                    Bit(b3), 3), Bit(b4), 4), Bit(b5), 5), Bit(b6), 6), Bit(b7), 7)
  {
  }

  // One pass of the inner loop is one step of the bit machine.
  lemma BitStep(g: Gen, n: nat, l0: bv32, l1: bv32, carry: bv8, o0: bv8, o1: bv8, combined: bv8)
    requires Lfsr25(l0) == Shifted0(g.r0, n) && Trunc17(l1) == Shifted1(g.r1, n) && carry == Bit(CarryAt(g, 1, 1, n))
    requires o0 == Word0Tap(l0) && o1 == Word1Tap(l1) && combined == Sum(Not(o1), carry, Not(o0))
    ensures Lfsr25(Pushed(l0, o0)) == Shifted0(g.r0, n + 1) && Trunc17(Pushed(l1, o1)) == Shifted1(g.r1, n + 1)
    ensures CarryBit(combined) == Bit(CarryAt(g, 1, 1, n + 1)) && LowBit(combined) == Bit(SumBit(g, 1, 1, n))
  {
    hide Lfsr25, Trunc17, Word0Tap, Word1Tap, Pushed, Sum, Not, Bit, LowBit, CarryBit, Tap0, Tap1, Shift0, Shift1,
         Xor3, Majority;
    Word0TapIsTap(l0);
    Word1TapIsTap(l1);
    PushIsShift0(l0);
    PushIsShift1(l1);
    SumIsFullAdder(Stream0(g.r0, n), Stream1(g.r1, n), CarryAt(g, 1, 1, n));
  }

  // The thirty bytes of the stream, the first one last. They are the bytes of the same machine that
  // the other two forms refine.
  method FillBits(lfsr0: bv32, lfsr1: bv32, bitBuffer: array<bv8>, ghost g: Gen)
    requires bitBuffer.Length == 30 && Lfsr25(lfsr0) == g.r0 && Trunc17(lfsr1) == g.r1 && g.carry == 0
    modifies bitBuffer
    ensures forall j :: 0 <= j < 30 ==> bitBuffer[j] == At(g, 0xff, 0xff, 29 - j)
  {
    hide Lfsr25, Trunc17, Word0Tap, Word1Tap, Pushed, Sum, Not, Bit, LowBit, CarryBit, SumBit, SumByte, Shift0, Shift1,
         Majority, WithBit, At;
    var word0, word1 := lfsr0, lfsr1;
    var index := 30;
    var carry: bv8 := 0;
    assert 0 == Bit(0) by { NoBit(); }
    ghost var n := 0;
    while index > 0
      invariant 0 <= index <= 30 && n == 8 * (30 - index)
      invariant Lfsr25(word0) == Shifted0(g.r0, n) && Trunc17(word1) == Shifted1(g.r1, n)
      invariant carry == Bit(CarryAt(g, 1, 1, n))
      invariant forall j :: index <= j < 30 ==> bitBuffer[j] == At(g, 0xff, 0xff, 29 - j)
    {
      var val: bv8 := 0;
      for bit := 0 to 8
        invariant Lfsr25(word0) == Shifted0(g.r0, n + bit) && Trunc17(word1) == Shifted1(g.r1, n + bit)
        invariant carry == Bit(CarryAt(g, 1, 1, n + bit)) && val == Partial(g, n, bit)
        modifies {}
      {
        var o0 := Word0Tap(word0);
        var o1 := Word1Tap(word1);
        var combined := Sum(Not(o1), carry, Not(o0));
        BitStep(g, n + bit, word0, word1, carry, o0, o1, combined);
        word0 := Pushed(word0, o0);
        word1 := Pushed(word1, o1);
        carry := CarryBit(combined);
        val := WithBit(val, LowBit(combined), bit);
      }
      StreamByteIsAt(g, n, 30 - index);
      n := n + 8;
      index := index - 1;
      bitBuffer[index] := val;
    }
  }

  lemma NoBit()
    ensures Bit(0) == 0
  {
  }

  lemma StreamByteIsAt(g: Gen, n: nat, k: nat)
    requires n == 8 * k
    ensures Partial(g, n, 8) == At(g, 0xff, 0xff, k)
  {
    hide Partial, SumByte, At;
    PartialIsSumByte(g, n);
    BytesAreBits(g, 1, 1, k);
  }

  // ---------------------------------------------------------------------------------------
  // Tables
  // ---------------------------------------------------------------------------------------

  type Position = i: int | 0 <= i < 10
  type KeyType = t: int | 0 <= t < 3
  type Variant = v: int | 0 <= v < 32
  type Challenge = s: seq<bv8> | |s| == 10 witness [0, 0, 0, 0, 0, 0, 0, 0, 0, 0]

  // pp_perm_challenge, and for each of its rows the place every entry came from
  const PERM_CHALLENGE: seq<seq<Position>> :=
    [[1, 3, 0, 7, 5, 2, 9, 6, 4, 8],
     [6, 1, 9, 3, 8, 5, 7, 4, 0, 2],
     [4, 0, 3, 5, 7, 2, 8, 6, 1, 9]]
  const PLACE_CHALLENGE: seq<seq<Position>> :=
    [[2, 0, 5, 1, 8, 4, 7, 3, 9, 6],
     [8, 1, 9, 3, 7, 5, 0, 6, 4, 2],
     [1, 8, 5, 2, 0, 3, 7, 4, 6, 9]]

  // The two rows of pp_perm_variant
  function PermVariant0(v: bv8): bv8 {
    if v < 16 then
      Pick16(v & 15, 0x0a, 0x08, 0x0e, 0x0c, 0x0b, 0x09, 0x0f, 0x0d, 0x1a, 0x18, 0x1e, 0x1c, 0x1b, 0x19, 0x1f, 0x1d)
    else
      Pick16(v & 15, 0x02, 0x00, 0x06, 0x04, 0x03, 0x01, 0x07, 0x05, 0x12, 0x10, 0x16, 0x14, 0x13, 0x11, 0x17, 0x15)
  }

  function PermVariant1(v: bv8): bv8 {
    if v < 16 then
      Pick16(v & 15, 0x12, 0x1a, 0x16, 0x1e, 0x02, 0x0a, 0x06, 0x0e, 0x10, 0x18, 0x14, 0x1c, 0x00, 0x08, 0x04, 0x0c)
    else
      Pick16(v & 15, 0x13, 0x1b, 0x17, 0x1f, 0x03, 0x0b, 0x07, 0x0f, 0x11, 0x19, 0x15, 0x1d, 0x01, 0x09, 0x05, 0x0d)
  }

  // p_variants
  function Variants(v: bv8): bv8 {
    if v < 16 then
      Pick16(v & 15, 0xb7, 0x74, 0x85, 0xd0, 0xcc, 0xdb, 0xca, 0x73, 0x03, 0xfe, 0x31, 0x03, 0x52, 0xe0, 0xb7, 0x42)
    else
      Pick16(v & 15, 0x63, 0x16, 0xf2, 0x2a, 0x79, 0x52, 0xff, 0x1b, 0x7a, 0x11, 0xca, 0x1a, 0x9b, 0x40, 0xad, 0x01)
  }

  // The variant that the tables of one key type put in the place of a variant
  function VariantOf(t: KeyType, variant: Variant): bv8 {
    var v := ToByte(variant);
    if t == 0 then v else if t == 1 then PermVariant0(v) else PermVariant1(v)
  }

  function VariantMask(v: bv8): bv8 { Variants(v) ^ CryptTab2(v) }

  // Five bits, spread over a byte
  function SpreadMask(v: bv8): bv8 { (v & 1) | ((v & 2) << 1) | ((v & 4) << 2) | ((v & 8) << 2) | ((v & 16) << 3) }

  // That is what the seemingly random p_variants hides: no two variants share a mask.
  lemma VariantMaskIsSpread(v: bv8)
    requires v < 32
    ensures VariantMask(v) == SpreadMask(v)
  {
  }

  // Both rows of pp_perm_variant move the five bits of a variant around, so they are permutations.
  function FirstRow(v: bv8): bv8 {
    0x0a ^ ((v & 1) << 1) ^ ((v & 2) << 1) ^ ((v & 4) >> 2) ^ ((v & 8) << 1) ^ ((v & 16) >> 1)
  }
  function SecondRow(v: bv8): bv8 {
    0x12 ^ ((v & 1) << 3) ^ ((v & 2) << 1) ^ ((v & 4) << 2) ^ ((v & 8) >> 2) ^ ((v & 16) >> 4)
  }
  lemma FirstRowMovesBits(v: bv8)
    requires v < 32
    ensures PermVariant0(v) == FirstRow(v)
  {
  }
  lemma SecondRowMovesBits(v: bv8)
    requires v < 32
    ensures PermVariant1(v) == SecondRow(v)
  {
  }
  lemma VariantsArePermuted(v: bv8, w: bv8)
    requires v < 32 && w < 32
    ensures PermVariant0(v) == PermVariant0(w) ==> v == w
    ensures PermVariant1(v) == PermVariant1(w) ==> v == w
  {
    hide PermVariant0, PermVariant1;
    FirstRowMovesBits(v);
    FirstRowMovesBits(w);
    SecondRowMovesBits(v);
    SecondRowMovesBits(w);
  }

  function Permuted(t: KeyType, challenge: Challenge): Challenge {
    seq(10, i requires 0 <= i < 10 => challenge[PERM_CHALLENGE[t][i]])
  }

  // The half that is encrypted and the half that seeds the registers
  function Input(t: KeyType, challenge: Challenge): Key { KeyAt(Permuted(t, challenge), 0) }
  function Seed(t: KeyType, challenge: Challenge): Key { KeyAt(Permuted(t, challenge), 5) }

  // The challenge with these halves
  function ChallengeOf(t: KeyType, input: Key, seed: Key): Challenge {
    var s := input.Bytes() + seed.Bytes();
    seq(10, i requires 0 <= i < 10 => s[PLACE_CHALLENGE[t][i]])
  }

  lemma HalvesMakeTheChallenge(t: KeyType, input: Key, seed: Key, challenge: Challenge)
    ensures Input(t, ChallengeOf(t, input, seed)) == input && Seed(t, ChallengeOf(t, input, seed)) == seed
    ensures ChallengeOf(t, Input(t, challenge), Seed(t, challenge)) == challenge
  {
    PlacesArePermuted(t);
    assert forall i :: 0 <= i < 10 ==> Permuted(t, ChallengeOf(t, input, seed))[i] == (input.Bytes() + seed.Bytes())[i];
    assert Permuted(t, challenge) == Input(t, challenge).Bytes() + Seed(t, challenge).Bytes();
    assert ChallengeOf(t, Input(t, challenge), Seed(t, challenge)) == challenge;
  }

  lemma PlacesArePermuted(t: KeyType)
    ensures forall i :: 0 <= i < 10 ==> PLACE_CHALLENGE[t][PERM_CHALLENGE[t][i]] == i
    ensures forall i :: 0 <= i < 10 ==> PERM_CHALLENGE[t][PLACE_CHALLENGE[t][i]] == i
  {
  }

  // ---------------------------------------------------------------------------------------
  // The rounds
  // ---------------------------------------------------------------------------------------

  function Masked(x: bv8, mask: bv8): bv8 { x ^ mask }
  function Substitute(x: bv8, mask: bv8): bv8 { Combined23(Masked(Combined12(x), mask)) }
  function SubstituteBack(y: bv8, mask: bv8): bv8 { Combined12Inverse(Masked(Combined23Inverse(y), mask)) }

  lemma SubstituteIsPermutation(x: bv8, mask: bv8)
    ensures SubstituteBack(Substitute(x, mask), mask) == x
    ensures Substitute(SubstituteBack(x, mask), mask) == x
  {
    hide Combined12, Combined23, Combined12Inverse, Combined23Inverse, Masked;
    var u, v := Masked(Combined12(x), mask), Masked(Combined23Inverse(x), mask);
    Combined23IsPermutation(u);
    Combined12IsPermutation(x);
    MaskedTwice(Combined12(x), mask);
    Combined12IsPermutation(v);
    Combined23IsPermutation(x);
    MaskedTwice(Combined23Inverse(x), mask);
  }

  lemma MaskedTwice(x: bv8, mask: bv8)
    ensures Masked(Masked(x, mask), mask) == x
  {
  }

  // One byte of a round, chained to the byte after it
  function Chained(x: bv8, bits: bv8, mask: bv8, term: bv8): bv8 { Masked(Substitute(Masked(bits, x), mask), term) }
  function Unchained(y: bv8, bits: bv8, mask: bv8, term: bv8): bv8 {
    Masked(SubstituteBack(Masked(y, term), mask), bits)
  }

  lemma ChainIsReversible(x: bv8, bits: bv8, mask: bv8, term: bv8)
    ensures Unchained(Chained(x, bits, mask, term), bits, mask, term) == x
    ensures Chained(Unchained(x, bits, mask, term), bits, mask, term) == x
  {
    hide Substitute, SubstituteBack, Masked;
    MaskedSwaps(bits, x);
    MaskedTwice(x, bits);
    MaskedTwice(Substitute(Masked(bits, x), mask), term);
    SubstituteIsPermutation(Masked(bits, x), mask);
    var y := SubstituteBack(Masked(x, term), mask);
    MaskedSwaps(bits, Masked(y, bits));
    MaskedTwice(y, bits);
    SubstituteIsPermutation(Masked(x, term), mask);
    MaskedTwice(x, term);
  }

  lemma MaskedSwaps(x: bv8, y: bv8)
    ensures Masked(x, y) == Masked(y, x)
  {
  }

  function Round(bits: Key, mask: bv8, k: Key): Key {
    Key(Chained(k.b0, bits.b0, mask, k.b1), Chained(k.b1, bits.b1, mask, k.b2), Chained(k.b2, bits.b2, mask, k.b3),
        Chained(k.b3, bits.b3, mask, k.b4), Chained(k.b4, bits.b4, mask, 0))
  }
  function RoundBack(bits: Key, mask: bv8, k: Key): Key {
    var b4 := Unchained(k.b4, bits.b4, mask, 0);
    var b3 := Unchained(k.b3, bits.b3, mask, b4);
    var b2 := Unchained(k.b2, bits.b2, mask, b3);
    var b1 := Unchained(k.b1, bits.b1, mask, b2);
    Key(Unchained(k.b0, bits.b0, mask, b1), b1, b2, b3, b4)
  }

  lemma RoundIsReversible(bits: Key, mask: bv8, k: Key)
    ensures RoundBack(bits, mask, Round(bits, mask, k)) == k
    ensures Round(bits, mask, RoundBack(bits, mask, k)) == k
  {
    hide Chained, Unchained;
    forall x, b, m, t
      ensures Unchained(Chained(x, b, m, t), b, m, t) == x && Chained(Unchained(x, b, m, t), b, m, t) == x
    {
      ChainIsReversible(x, b, m, t);
    }
  }

  // The last byte of the block absorbs the first.
  function Folded(k: Key): Key { k.(b4 := Masked(k.b4, k.b0)) }

  lemma FoldedTwice(k: Key)
    ensures Folded(Folded(k)) == k
  {
    hide Masked;
    MaskedTwice(k.b4, k.b0);
  }

  // The table that ends the third and the fourth round
  function Merged(k: Key): Key {
    Key(Combined02(k.b0), Combined02(k.b1), Combined02(k.b2), Combined02(k.b3), Combined02(k.b4))
  }

  // Equal or complementary, and the same byte by byte
  predicate AlikeBytes(x: bv8, y: bv8) { y == x || y == !x }
  predicate Alike(j: Key, k: Key) {
    AlikeBytes(j.b0, k.b0) && AlikeBytes(j.b1, k.b1) && AlikeBytes(j.b2, k.b2) && AlikeBytes(j.b3, k.b3)
    && AlikeBytes(j.b4, k.b4)
  }

  lemma MergedAlike(j: Key, k: Key)
    ensures Merged(j) == Merged(k) <==> Alike(j, k)
  {
    hide Combined02, AlikeBytes;
    MergedBytesAlike(j.b0, k.b0);
    MergedBytesAlike(j.b1, k.b1);
    MergedBytesAlike(j.b2, k.b2);
    MergedBytesAlike(j.b3, k.b3);
    MergedBytesAlike(j.b4, k.b4);
  }

  lemma MergedBytesAlike(x: bv8, y: bv8)
    ensures Combined02(x) == Combined02(y) <==> AlikeBytes(x, y)
  {
    hide Combined02;
    Combined02MergesComplements(x, y);
  }

  // ---------------------------------------------------------------------------------------
  // The cipher
  // ---------------------------------------------------------------------------------------

  // The register seeds: the seed half masked with p_secret and the start of p_crypt_tab2, last byte first
  function RegisterSeed(seed: Key): Key {
    Key(seed.b4 ^ 0x28 ^ CryptTab2(4), seed.b3 ^ 0xc5 ^ CryptTab2(3), seed.b2 ^ 0xc4 ^ CryptTab2(2),
        seed.b1 ^ 0xd6 ^ CryptTab2(1), seed.b0 ^ 0x55 ^ CryptTab2(0))
  }

  // Five bytes of the stream, the first of them number n, in the order in which they are stored
  function Bits(seed: Key, n: nat): Key {
    var g := Seeded(RegisterSeed(seed));
    Key(At(g, 0xff, 0xff, n + 4), At(g, 0xff, 0xff, n + 3), At(g, 0xff, 0xff, n + 2), At(g, 0xff, 0xff, n + 1),
        At(g, 0xff, 0xff, n))
  }

  // What is merged in the third round
  function Front(seed: Key, mask: bv8, x: Key): Key {
    Round(Bits(seed, 10), mask, Folded(Round(Bits(seed, 5), mask, Folded(Round(Bits(seed, 0), mask, x)))))
  }
  function FrontBack(seed: Key, mask: bv8, v: Key): Key {
    RoundBack(Bits(seed, 0), mask, Folded(RoundBack(Bits(seed, 5), mask, Folded(RoundBack(Bits(seed, 10), mask, v)))))
  }

  // What is merged in the fourth round, from what was merged in the third
  function Middle(seed: Key, mask: bv8, v: Key): Key { Round(Bits(seed, 15), mask, Folded(Merged(v))) }

  // The key, from the result of the second merging
  function Back(seed: Key, mask: bv8, u: Key): Key {
    Round(Bits(seed, 25), mask, Folded(Round(Bits(seed, 20), mask, Folded(u))))
  }
  function BackBack(seed: Key, mask: bv8, k: Key): Key {
    Folded(RoundBack(Bits(seed, 20), mask, Folded(RoundBack(Bits(seed, 25), mask, k))))
  }

  function Crypted(seed: Key, mask: bv8, input: Key): Key {
    Back(seed, mask, Merged(Middle(seed, mask, Front(seed, mask, input))))
  }

  lemma FrontIsReversible(seed: Key, mask: bv8, x: Key)
    ensures FrontBack(seed, mask, Front(seed, mask, x)) == x
    ensures Front(seed, mask, FrontBack(seed, mask, x)) == x
  {
    hide Bits, Round, RoundBack, Folded;
    forall b, k ensures RoundBack(b, mask, Round(b, mask, k)) == k && Round(b, mask, RoundBack(b, mask, k)) == k {
      RoundIsReversible(b, mask, k);
    }
    forall k ensures Folded(Folded(k)) == k { FoldedTwice(k); }
  }

  lemma BackIsReversible(seed: Key, mask: bv8, u: Key)
    ensures BackBack(seed, mask, Back(seed, mask, u)) == u
    ensures Back(seed, mask, BackBack(seed, mask, u)) == u
  {
    hide Bits, Round, RoundBack, Folded;
    forall b, k ensures RoundBack(b, mask, Round(b, mask, k)) == k && Round(b, mask, RoundBack(b, mask, k)) == k {
      RoundIsReversible(b, mask, k);
    }
    forall k ensures Folded(Folded(k)) == k { FoldedTwice(k); }
  }

  // Two inputs give the same key exactly when the blocks that the fourth round merges are alike.
  lemma KeysCollideExactly(seed: Key, mask: bv8, x: Key, y: Key)
    ensures Crypted(seed, mask, x) == Crypted(seed, mask, y) <==>
            Alike(Middle(seed, mask, Front(seed, mask, x)), Middle(seed, mask, Front(seed, mask, y)))
  {
    hide Front, Middle, Back, BackBack, Merged, Alike;
    var v, w := Middle(seed, mask, Front(seed, mask, x)), Middle(seed, mask, Front(seed, mask, y));
    BackIsReversible(seed, mask, Merged(v));
    BackIsReversible(seed, mask, Merged(w));
    MergedAlike(v, w);
  }

  // The bytes of a block to complement
  datatype Choice = Choice(c0: bool, c1: bool, c2: bool, c3: bool, c4: bool)

  function Flip(x: bv8, c: bool): bv8 { if c then !x else x }
  function Flipped(k: Key, c: Choice): Key {
    Key(Flip(k.b0, c.c0), Flip(k.b1, c.c1), Flip(k.b2, c.c2), Flip(k.b3, c.c3), Flip(k.b4, c.c4))
  }

  lemma FlipIsAlike(x: bv8, y: bv8, c: bool, d: bool)
    ensures AlikeBytes(x, Flip(x, c))
    ensures AlikeBytes(x, y) ==> y == Flip(x, y != x)
    ensures Flip(x, c) == Flip(x, d) <==> c == d
  {
  }

  // Another input with the same key, one for each choice of bytes to complement before the third merging
  function Twin(seed: Key, mask: bv8, c: Choice, x: Key): Key {
    FrontBack(seed, mask, Flipped(Front(seed, mask, x), c))
  }

  // Every key that comes out comes from at least 32 inputs.
  lemma NoKeyHasOneInput(seed: Key, mask: bv8, x: Key, c: Choice, d: Choice)
    ensures Crypted(seed, mask, Twin(seed, mask, c, x)) == Crypted(seed, mask, x)
    ensures Twin(seed, mask, c, x) == Twin(seed, mask, d, x) <==> c == d
  {
    hide Front, FrontBack, Back, Merged, Folded, Round, Alike, Flipped;
    var v := Front(seed, mask, x);
    FrontIsReversible(seed, mask, Flipped(v, c));
    FrontIsReversible(seed, mask, Flipped(v, d));
    FlippedIsAlike(v, v, c, d);
    MergedAlike(v, Flipped(v, c));
  }

  lemma FlippedIsAlike(v: Key, w: Key, c: Choice, d: Choice)
    ensures Alike(v, Flipped(v, c))
    ensures Alike(v, w) ==> w == Flipped(v, Flips(v, w))
    ensures Flipped(v, c) == Flipped(v, d) <==> c == d
  {
    hide AlikeBytes, Flip;
    FlipIsAlike(v.b0, w.b0, c.c0, d.c0);
    FlipIsAlike(v.b1, w.b1, c.c1, d.c1);
    FlipIsAlike(v.b2, w.b2, c.c2, d.c2);
    FlipIsAlike(v.b3, w.b3, c.c3, d.c3);
    FlipIsAlike(v.b4, w.b4, c.c4, d.c4);
  }

  // The bytes in which two blocks differ
  function Flips(v: Key, w: Key): Choice {
    Choice(w.b0 != v.b0, w.b1 != v.b1, w.b2 != v.b2, w.b3 != v.b3, w.b4 != v.b4)
  }

  // ---------------------------------------------------------------------------------------
  // Which keys can come out
  // ---------------------------------------------------------------------------------------

  // An even number of one bits
  predicate IsEven(x: bv8) {
    (x ^ (x >> 1) ^ (x >> 2) ^ (x >> 3) ^ (x >> 4) ^ (x >> 5) ^ (x >> 6) ^ (x >> 7)) & 1 == 0
  }
  predicate AllEven(k: Key) { IsEven(k.b0) && IsEven(k.b1) && IsEven(k.b2) && IsEven(k.b3) && IsEven(k.b4) }

  // A byte that Combined02 takes to x, if x is even: each bit is the xor of the bits of x below it.
  function Unmerged(x: bv8): bv8 { (x << 1) ^ (x << 2) ^ (x << 3) ^ (x << 4) ^ (x << 5) ^ (x << 6) ^ (x << 7) }

  lemma MergedIsEven(y: bv8)
    ensures IsEven(Combined02(y))
  {
    hide Combined02;
    Combined02IsXorWithRotation(y);
  }

  lemma EvenIsMerged(x: bv8)
    requires IsEven(x)
    ensures Combined02(Unmerged(x)) == x
  {
    hide Combined02;
    Combined02IsXorWithRotation(Unmerged(x));
  }

  function UnmergedKey(u: Key): Key {
    Key(Unmerged(u.b0), Unmerged(u.b1), Unmerged(u.b2), Unmerged(u.b3), Unmerged(u.b4))
  }

  lemma EvenBlocksAreMerged(u: Key, v: Key)
    ensures AllEven(u) ==> Merged(UnmergedKey(u)) == u
    ensures AllEven(Merged(v))
  {
    hide IsEven, Unmerged, Combined02;
    forall x | IsEven(x) ensures Combined02(Unmerged(x)) == x { EvenIsMerged(x); }
    forall y ensures IsEven(Combined02(y)) { MergedIsEven(y); }
  }

  // What the third merging must have given for the block of the fourth merging to be w
  function MiddleBack(seed: Key, mask: bv8, w: Key): Key { Folded(RoundBack(Bits(seed, 15), mask, w)) }

  // A key comes out exactly if its last two rounds undone leave five even bytes, and one of the 32
  // blocks that merge into those bytes, with its round undone, leaves five even bytes again.
  lemma KeyComesOutExactly(seed: Key, mask: bv8, k: Key)
    ensures (exists x :: Crypted(seed, mask, x) == k) <==>
            (var u := BackBack(seed, mask, k);
             AllEven(u) && exists c: Choice :: AllEven(MiddleBack(seed, mask, Flipped(UnmergedKey(u), c))))
  {
    hide Front, FrontBack, Middle, MiddleBack, Back, BackBack, Merged, AllEven, UnmergedKey, Alike, Flipped, Flips;
    var u := BackBack(seed, mask, k);
    forall x | Crypted(seed, mask, x) == k
      ensures AllEven(u) && exists c: Choice :: AllEven(MiddleBack(seed, mask, Flipped(UnmergedKey(u), c)))
    {
      var v := Front(seed, mask, x);
      var w := Middle(seed, mask, v);
      BackIsReversible(seed, mask, Merged(w));
      EvenBlocksAreMerged(u, w);
      MergedAlike(UnmergedKey(u), w);
      FlippedIsAlike(UnmergedKey(u), w, Flips(UnmergedKey(u), w), Flips(UnmergedKey(u), w));
      MiddleUndone(seed, mask, v);
      EvenBlocksAreMerged(u, v);
    }
    forall c: Choice | AllEven(u) && AllEven(MiddleBack(seed, mask, Flipped(UnmergedKey(u), c)))
      ensures exists x :: Crypted(seed, mask, x) == k
    {
      var w := Flipped(UnmergedKey(u), c);
      var v := UnmergedKey(MiddleBack(seed, mask, w));
      EvenBlocksAreMerged(u, w);
      EvenBlocksAreMerged(MiddleBack(seed, mask, w), w);
      FlippedIsAlike(UnmergedKey(u), w, c, c);
      MergedAlike(UnmergedKey(u), w);
      MiddleRedone(seed, mask, v, w);
      FrontIsReversible(seed, mask, v);
      BackIsReversible(seed, mask, k);
      assert Crypted(seed, mask, FrontBack(seed, mask, v)) == k;
    }
  }

  lemma MiddleUndone(seed: Key, mask: bv8, v: Key)
    ensures MiddleBack(seed, mask, Middle(seed, mask, v)) == Merged(v)
  {
    hide Bits, Round, RoundBack, Folded, Merged;
    RoundIsReversible(Bits(seed, 15), mask, Folded(Merged(v)));
    FoldedTwice(Merged(v));
  }

  lemma MiddleRedone(seed: Key, mask: bv8, v: Key, w: Key)
    requires Merged(v) == MiddleBack(seed, mask, w)
    ensures Middle(seed, mask, v) == w
  {
    hide Bits, Round, RoundBack, Folded, Merged;
    RoundIsReversible(Bits(seed, 15), mask, w);
    FoldedTwice(RoundBack(Bits(seed, 15), mask, w));
  }

  // ---------------------------------------------------------------------------------------
  // CryptKey itself
  // ---------------------------------------------------------------------------------------

  function CryptedKey(t: KeyType, variant: Variant, challenge: Challenge): Key {
    Crypted(Seed(t, challenge), VariantMask(VariantOf(t, variant)), Input(t, challenge))
  }

  // The mask of each key type: the five bits of the variant, moved by no row, the first or the second,
  // and spread over a byte
  lemma FirstTypeUsesNoRow(v: Variant, c: Challenge)
    ensures CryptedKey(0, v, c) == Crypted(Seed(0, c), SpreadMask(ToByte(v)), Input(0, c))
  {
    hide Crypted, Input, Seed, VariantMask, SpreadMask, ToByte;
    VariantFits(v);
    VariantMaskIsSpread(ToByte(v));
  }
  lemma SecondTypeUsesFirstRow(v: Variant, c: Challenge)
    ensures CryptedKey(1, v, c) == Crypted(Seed(1, c), SpreadMask(FirstRow(ToByte(v))), Input(1, c))
  {
    hide Crypted, Input, Seed, VariantMask, SpreadMask, PermVariant0, PermVariant1, ToByte, FirstRow;
    VariantFits(v);
    RowsFit(ToByte(v));
    FirstRowMovesBits(ToByte(v));
    VariantMaskIsSpread(FirstRow(ToByte(v)));
  }
  lemma ThirdTypeUsesSecondRow(v: Variant, c: Challenge)
    ensures CryptedKey(2, v, c) == Crypted(Seed(2, c), SpreadMask(SecondRow(ToByte(v))), Input(2, c))
  {
    hide Crypted, Input, Seed, VariantMask, SpreadMask, PermVariant0, PermVariant1, ToByte, SecondRow;
    VariantFits(v);
    RowsFit(ToByte(v));
    SecondRowMovesBits(ToByte(v));
    VariantMaskIsSpread(SecondRow(ToByte(v)));
  }

  lemma VariantFits(v: Variant)
    ensures ToByte(v) < 32
  {
  }

  lemma RowsFit(v: bv8)
    requires v < 32
    ensures FirstRow(v) < 32 && SecondRow(v) < 32
  {
  }

  // No challenge has its key for itself: one with the same seed half can be found for every choice.
  lemma NoChallengeHasItsOwnKey(t: KeyType, variant: Variant, challenge: Challenge, c: Choice)
    returns (other: Challenge)
    requires c != Choice(false, false, false, false, false)
    ensures other != challenge && Seed(t, other) == Seed(t, challenge)
    ensures CryptedKey(t, variant, other) == CryptedKey(t, variant, challenge)
  {
    hide Crypted, Twin, ChallengeOf, Input, Seed, VariantMask, VariantOf, Front, FrontBack;
    var seed, mask, x := Seed(t, challenge), VariantMask(VariantOf(t, variant)), Input(t, challenge);
    var none := Choice(false, false, false, false, false);
    NoKeyHasOneInput(seed, mask, x, c, none);
    TwinOfNone(seed, mask, x);
    other := ChallengeOf(t, Twin(seed, mask, c, x), seed);
    HalvesMakeTheChallenge(t, Twin(seed, mask, c, x), seed, challenge);
  }

  lemma TwinOfNone(seed: Key, mask: bv8, x: Key)
    ensures Twin(seed, mask, Choice(false, false, false, false, false), x) == x
  {
    hide Front, FrontBack;
    FrontIsReversible(seed, mask, x);
  }

  // The seed words of the two registers
  function SeedWord0(p0: bv8, p1: bv8, p2: bv8): bv32 {
    ((p0 as bv32) << 17) | ((p1 as bv32) << 9) | (((p2 as bv32) & 0xfffffff8) << 1) | 8 | ((p2 as bv32) & 7)
  }
  function SeedWord1(p3: bv8, p4: bv8): bv32 { ((p3 as bv32) << 9) | 0x100 | (p4 as bv32) }

  lemma SeedWordsAreSeeds(k: Key)
    ensures Lfsr25(SeedWord0(k.b4, k.b3, k.b2)) == Seed0(k)
    ensures Trunc17(SeedWord1(k.b1, k.b0)) == Seed1(k)
  {
    hide Lfsr25, Trunc17, SeedWord0, SeedWord1, Seed0, Word17;
    SeedWord0Is(k, k.b4, k.b3, k.b2);
    SeedWord1Is(k.b1, k.b0);
  }
  lemma SeedWord0Is(k: Key, p0: bv8, p1: bv8, p2: bv8)
    requires k.b4 == p0 && k.b3 == p1 && k.b2 == p2
    ensures Lfsr25(SeedWord0(p0, p1, p2)) == Seed0(k)
  {
    hide Lfsr25, SeedWord0;
    SeedWord0Truncates(p0, p1, p2);
    InsertedInto(k, p0, p1, p2);
  }
  function Spread(w: bv25): bv25 { ((w >> 3) << 4) | 8 | (w & 7) }
  lemma SeedWord0Truncates(p0: bv8, p1: bv8, p2: bv8)
    ensures Lfsr25(SeedWord0(p0, p1, p2)) == Spread((p2 as bv25) | ((p1 as bv25) << 8) | ((p0 as bv25) << 16))
  {
  }
  lemma InsertedInto(k: Key, p0: bv8, p1: bv8, p2: bv8)
    requires k.b4 == p0 && k.b3 == p1 && k.b2 == p2
    ensures Seed0(k) == Spread((p2 as bv25) | ((p1 as bv25) << 8) | ((p0 as bv25) << 16))
  {
  }
  lemma SeedWord1Is(p3: bv8, p4: bv8)
    ensures Trunc17(SeedWord1(p3, p4)) == Word17(p4, p3)
  {
  }

  // The masks of the seed half, p_secret
  function Secret(i: Position): bv8 {
    if i == 0 then 0x55 else if i == 1 then 0xd6 else if i == 2 then 0xc4 else if i == 3 then 0xc5 else 0x28
  }

  // The thirty bytes hold what the six rounds use.
  ghost predicate HoldsBits(bitBuffer: seq<bv8>, seed: Key) {
    |bitBuffer| == 30 && forall n :: 0 <= n <= 25 ==> KeyAt(bitBuffer, 25 - n) == Bits(seed, n)
  }

  method Permute(keyType: KeyType, challengeBytes: array<bv8>) returns (scratch: array<bv8>)
    requires challengeBytes.Length == 10
    ensures fresh(scratch) && scratch.Length == 10 && scratch[..] == Permuted(keyType, challengeBytes[..])
  {
    scratch := new bv8[10];
    var i := 9;
    while i >= 0
      invariant -1 <= i < 10
      invariant forall j :: i < j < 10 ==> scratch[j] == challengeBytes[PERM_CHALLENGE[keyType][j]]
    {
      scratch[i] := challengeBytes[PERM_CHALLENGE[keyType][i]];
      i := i - 1;
    }
  }

  // One byte of the register seed, from the seed half
  function SeedByte(x: bv8, i: nat): bv8
    requires i < 5
  {
    x ^ Secret(i) ^ CryptTab2(ToByte(i))
  }

  lemma SeedBytesAreRegisterSeed(seed: Key)
    ensures RegisterSeed(seed) == Key(SeedByte(seed.b4, 4), SeedByte(seed.b3, 3), SeedByte(seed.b2, 2),
                                      SeedByte(seed.b1, 1), SeedByte(seed.b0, 0))
  {
    hide CryptTab2;
  }

  // Seeds the registers from the second half of scratch and fills the buffer of stream bytes.
  method Generate(scratch: array<bv8>) returns (bitBuffer: array<bv8>)
    requires scratch.Length == 10
    ensures fresh(bitBuffer) && HoldsBits(bitBuffer[..], KeyAt(scratch[..], 5))
  {
    hide SeedByte, SeedWord0, SeedWord1, Lfsr25, Trunc17, HoldsBits, RegisterSeed, Seed0, Seed1, At;
    ghost var seed := KeyAt(scratch[..], 5);
    var tmp1 := new bv8[5];
    var i := 5;
    while i > 0
      invariant 0 <= i <= 5
      invariant forall j :: i <= j < 5 ==> tmp1[j] == SeedByte(scratch[5 + j], j)
    {
      i := i - 1;
      tmp1[i] := SeedByte(scratch[5 + i], i);
    }
    ghost var k := RegisterSeed(seed);
    SeedBytesAreRegisterSeed(seed);
    SeedWordsAreSeeds(k);
    bitBuffer := new bv8[30];
    FillBits(SeedWord0(tmp1[0], tmp1[1], tmp1[2]), SeedWord1(tmp1[3], tmp1[4]), bitBuffer, Seeded(k));
    StreamIsHeld(bitBuffer[..], seed);
  }

  lemma StreamIsHeld(bitBuffer: seq<bv8>, seed: Key)
    requires |bitBuffer| == 30
    requires forall j :: 0 <= j < 30 ==> bitBuffer[j] == At(Seeded(RegisterSeed(seed)), 0xff, 0xff, 29 - j)
    ensures HoldsBits(bitBuffer, seed)
  {
    hide At, RegisterSeed, Seeded;
  }

  // One round over the buffer; dst[4] still lacks the byte that it absorbs.
  method EncryptRound(bitBuffer: array<bv8>, at: nat, mask: bv8, src: array<bv8>, dst: array<bv8>, merging: bool)
    requires at + 5 <= bitBuffer.Length && 5 <= src.Length && dst.Length == 5 && dst != src && dst != bitBuffer
    modifies dst
    ensures KeyOf(dst[..]) == Encrypted(KeyAt(bitBuffer[..], at), mask, KeyAt(src[..], 0), merging)
  {
    hide Combined02, Combined12, Combined23, Masked, EncryptedByte;
    var i := 5;
    var term: bv8 := 0;
    while i > 0
      invariant 0 <= i <= 5 && term == if i == 5 then 0 else src[i]
      invariant forall j :: i <= j < 5 ==>
                  dst[j] == EncryptedByte(src[j], bitBuffer[at + j], mask, TermOf(src[..], j), merging)
    {
      i := i - 1;
      var index := Masked(bitBuffer[at + i], src[i]);
      index := Masked(Combined12(index), mask);
      index := Masked(Combined23(index), term);
      dst[i] := if merging then Combined02(index) else index;
      EncryptedByteUnfolds(src[i], bitBuffer[at + i], mask, term, merging);
      term := src[i];
    }
    RoundIsBytes(bitBuffer[..], at, mask, src[..], dst[..], merging);
  }

  lemma EncryptedByteUnfolds(x: bv8, bits: bv8, mask: bv8, term: bv8, merging: bool)
    ensures var y := Masked(Combined23(Masked(Combined12(Masked(bits, x)), mask)), term);
            EncryptedByte(x, bits, mask, term, merging) == if merging then Combined02(y) else y
  {
    hide Combined02, Combined12, Combined23, Masked;
  }

  // The byte that the previous step of the loop has passed on
  function TermOf(src: seq<bv8>, j: nat): bv8
    requires j < 5 <= |src|
  {
    if j == 4 then 0 else src[j + 1]
  }

  function EncryptedByte(x: bv8, bits: bv8, mask: bv8, term: bv8, merging: bool): bv8 {
    if merging then Combined02(Chained(x, bits, mask, term)) else Chained(x, bits, mask, term)
  }
  function Encrypted(bits: Key, mask: bv8, k: Key, merging: bool): Key {
    if merging then Merged(Round(bits, mask, k)) else Round(bits, mask, k)
  }

  lemma EncryptedBytesMakeRound(bits: Key, mask: bv8, k: Key, merging: bool)
    ensures Encrypted(bits, mask, k, merging) ==
            Key(EncryptedByte(k.b0, bits.b0, mask, k.b1, merging), EncryptedByte(k.b1, bits.b1, mask, k.b2, merging),
                EncryptedByte(k.b2, bits.b2, mask, k.b3, merging), EncryptedByte(k.b3, bits.b3, mask, k.b4, merging),
                EncryptedByte(k.b4, bits.b4, mask, 0, merging))
  {
    hide Chained, Combined02;
  }

  lemma RoundIsBytes(bits: seq<bv8>, at: nat, mask: bv8, src: seq<bv8>, dst: seq<bv8>, merging: bool)
    requires at + 5 <= |bits| && 5 <= |src| && |dst| == 5
    requires forall j :: 0 <= j < 5 ==>
               dst[j] == EncryptedByte(src[j], bits[at + j], mask, TermOf(src, j), merging)
    ensures KeyOf(dst) == Encrypted(KeyAt(bits, at), mask, KeyAt(src, 0), merging)
  {
    hide EncryptedByte;
    EncryptedBytesMakeRound(KeyAt(bits, at), mask, KeyAt(src, 0), merging);
  }

  // A round, after which the last byte absorbs the first
  method EncryptAndFold(bitBuffer: array<bv8>, at: nat, mask: bv8, src: array<bv8>, dst: array<bv8>, merging: bool)
    requires at + 5 <= bitBuffer.Length && 5 <= src.Length && dst.Length == 5 && dst != src && dst != bitBuffer
    modifies dst
    ensures KeyOf(dst[..]) == Folded(Encrypted(KeyAt(bitBuffer[..], at), mask, KeyAt(src[..], 0), merging))
  {
    hide Masked, Encrypted;
    EncryptRound(bitBuffer, at, mask, src, dst, merging);
    dst[4] := Masked(dst[4], dst[0]);
  }

  // The six rounds
  method Rounds(bitBuffer: array<bv8>, mask: bv8, scratch: array<bv8>, keyBytes: array<bv8>, ghost seed: Key)
    requires HoldsBits(bitBuffer[..], seed) && scratch.Length == 10 && keyBytes.Length == 5
    requires keyBytes != bitBuffer && keyBytes != scratch
    modifies keyBytes
    ensures KeyOf(keyBytes[..]) == Crypted(seed, mask, KeyAt(old(scratch[..]), 0))
  {
    hide Round, Folded, Merged, Bits, HoldsBits;
    ghost var x, bits := KeyAt(scratch[..], 0), bitBuffer[..];
    BitsAreHeld(bits, seed);
    assert bitBuffer.Length == |bits|;
    var tmp1, tmp2 := new bv8[5], new bv8[5];
    EncryptAndFold(bitBuffer, 25, mask, scratch, tmp1, false);
    EncryptAndFold(bitBuffer, 20, mask, tmp1, tmp2, false);
    EncryptAndFold(bitBuffer, 15, mask, tmp2, tmp1, true);
    EncryptAndFold(bitBuffer, 10, mask, tmp1, tmp2, true);
    EncryptAndFold(bitBuffer, 5, mask, tmp2, tmp1, false);
    EncryptRound(bitBuffer, 0, mask, tmp1, keyBytes, false);
  }

  // Permutes the challenge, fills the buffer of stream bytes and encrypts in six rounds.
  method CryptKey(keyType: KeyType, variant: Variant, challengeBytes: array<bv8>, keyBytes: array<bv8>)
    requires challengeBytes.Length == 10 && keyBytes.Length == 5
    modifies keyBytes
    ensures KeyOf(keyBytes[..]) == CryptedKey(keyType, variant, old(challengeBytes[..]))
  {
    hide VariantOf, VariantMask, Crypted, Permuted, HoldsBits;
    var scratch := Permute(keyType, challengeBytes);
    var bitBuffer := Generate(scratch);
    var cssVariant := VariantOf(keyType, variant);
    var mask := VariantMask(cssVariant);
    Rounds(bitBuffer, mask, scratch, keyBytes, Seed(keyType, challengeBytes[..]));
  }

  lemma BitsAreHeld(bitBuffer: seq<bv8>, seed: Key)
    requires HoldsBits(bitBuffer, seed)
    ensures |bitBuffer| == 30
    ensures KeyAt(bitBuffer, 25) == Bits(seed, 0) && KeyAt(bitBuffer, 20) == Bits(seed, 5)
    ensures KeyAt(bitBuffer, 15) == Bits(seed, 10) && KeyAt(bitBuffer, 10) == Bits(seed, 15)
    ensures KeyAt(bitBuffer, 5) == Bits(seed, 20) && KeyAt(bitBuffer, 0) == Bits(seed, 25)
  {
    hide Bits;
  }
}
