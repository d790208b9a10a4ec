/** Why the host of GetBusKey (src/css.c) finds the variant of the drive: CryptKey answers its challenge,
    the bytes 0 to 9, with a different key for each of the 32 variants. */
module HostAnswers {
  import opened CssTables
  import opened Combiner
  import opened KeyCipher
  import opened Handshake

  // ---------------------------------------------------------------------------------------
  // The key stream of the challenge
  // ---------------------------------------------------------------------------------------

  // The two halves of the challenge
  const HOST_INPUT := Key(0x01, 0x03, 0x00, 0x07, 0x05)
  const HOST_SEED := Key(0x02, 0x09, 0x06, 0x04, 0x08)

  lemma HostHalves()
    ensures Input(0, HOST_CHALLENGE) == HOST_INPUT && Seed(0, HOST_CHALLENGE) == HOST_SEED
  {
  }

  function SeedGen(seed: Key, n: nat): Gen { Run(Seeded(RegisterSeed(seed)), 0xff, 0xff, n) }

  // Five bytes from a state on, last byte first, and the state after them
  function Five(g: Gen): (Key, Gen) {
    var g1 := Step(g, 0xff, 0xff);
    var g2 := Step(g1, 0xff, 0xff);
    var g3 := Step(g2, 0xff, 0xff);
    var g4 := Step(g3, 0xff, 0xff);
    (Key(Out(g4, 0xff, 0xff), Out(g3, 0xff, 0xff), Out(g2, 0xff, 0xff), Out(g1, 0xff, 0xff), Out(g, 0xff, 0xff)),
     Step(g4, 0xff, 0xff))
  }

  lemma SeedBits(seed: Key, n: nat)
    ensures Five(SeedGen(seed, n)) == (Bits(seed, n), SeedGen(seed, n + 5))
  {
    hide Step, Out, Seeded, RegisterSeed;
    assert SeedGen(seed, n + 2) == Step(SeedGen(seed, n + 1), 0xff, 0xff);
    assert SeedGen(seed, n + 4) == Step(SeedGen(seed, n + 3), 0xff, 0xff);
  }

  lemma HostStart()
    ensures SeedGen(HOST_SEED, 0) == Gen(0x1c1548b, 0x029fc, 0)
  {
  }

  lemma HostBits0()
    ensures Bits(HOST_SEED, 0) == Key(0x6a, 0x6d, 0xd7, 0x91, 0x0b)
    ensures SeedGen(HOST_SEED, 5) == Gen(0x06ae2fe, 0x15268, 1)
  {
    hide SeedGen, Bits;
    HostStart();
    SeedBits(HOST_SEED, 0);
    assert Five(Gen(0x1c1548b, 0x029fc, 0)) == (Key(0x6a, 0x6d, 0xd7, 0x91, 0x0b), Gen(0x06ae2fe, 0x15268, 1));
  }
  lemma HostBits5()
    requires SeedGen(HOST_SEED, 5) == Gen(0x06ae2fe, 0x15268, 1)
    ensures Bits(HOST_SEED, 5) == Key(0x3f, 0x29, 0x2f, 0x90, 0x07)
    ensures SeedGen(HOST_SEED, 10) == Gen(0x1823bae, 0x15f52, 1)
  {
    hide SeedGen, Bits;
    SeedBits(HOST_SEED, 5);
    assert Five(Gen(0x06ae2fe, 0x15268, 1)) == (Key(0x3f, 0x29, 0x2f, 0x90, 0x07), Gen(0x1823bae, 0x15f52, 1));
  }
  lemma HostBits10()
    requires SeedGen(HOST_SEED, 10) == Gen(0x1823bae, 0x15f52, 1)
    ensures Bits(HOST_SEED, 10) == Key(0xb6, 0xb7, 0x57, 0x2b, 0xd0)
    ensures SeedGen(HOST_SEED, 15) == Gen(0x035cc88, 0x1281c, 1)
  {
    hide SeedGen, Bits;
    SeedBits(HOST_SEED, 10);
    assert Five(Gen(0x1823bae, 0x15f52, 1)) == (Key(0xb6, 0xb7, 0x57, 0x2b, 0xd0), Gen(0x035cc88, 0x1281c, 1));
  }
  lemma HostBits15()
    requires SeedGen(HOST_SEED, 15) == Gen(0x035cc88, 0x1281c, 1)
    ensures Bits(HOST_SEED, 15) == Key(0x5f, 0xd4, 0x0e, 0xc4, 0xb7)
    ensures SeedGen(HOST_SEED, 20) == Gen(0x01ba365, 0x0669f, 0)
  {
    hide SeedGen, Bits;
    SeedBits(HOST_SEED, 15);
    assert Five(Gen(0x035cc88, 0x1281c, 1)) == (Key(0x5f, 0xd4, 0x0e, 0xc4, 0xb7), Gen(0x01ba365, 0x0669f, 0));
  }
  lemma HostBits20()
    requires SeedGen(HOST_SEED, 20) == Gen(0x01ba365, 0x0669f, 0)
    ensures Bits(HOST_SEED, 20) == Key(0x46, 0x7f, 0x37, 0x39, 0x06)
    ensures SeedGen(HOST_SEED, 25) == Gen(0x0223d5d, 0x1237f, 0)
  {
    hide SeedGen, Bits;
    SeedBits(HOST_SEED, 20);
    assert Five(Gen(0x01ba365, 0x0669f, 0)) == (Key(0x46, 0x7f, 0x37, 0x39, 0x06), Gen(0x0223d5d, 0x1237f, 0));
  }
  lemma HostBits25()
    requires SeedGen(HOST_SEED, 25) == Gen(0x0223d5d, 0x1237f, 0)
    ensures Bits(HOST_SEED, 25) == Key(0xa0, 0x99, 0xaa, 0x1a, 0x3a)
    ensures SeedGen(HOST_SEED, 30) == Gen(0x0277cb7, 0x0e44e, 0)
  {
    hide SeedGen, Bits;
    SeedBits(HOST_SEED, 25);
    assert Five(Gen(0x0223d5d, 0x1237f, 0)) == (Key(0xa0, 0x99, 0xaa, 0x1a, 0x3a), Gen(0x0277cb7, 0x0e44e, 0));
  }

  // ---------------------------------------------------------------------------------------
  // The rounds without tables and branches
  // ---------------------------------------------------------------------------------------

  function Circuit12(x: bv8): bv8 {
    x ^ 0x44 ^ ((x & (x >> 1) & 1) << 2) ^ (((x | (x >> 1) | (x >> 2)) & 1) << 3) ^ ((((x >> 4) | (x >> 5)) & 1) << 6)
      ^ ((((x >> 6) ^ ((x >> 4) | (x >> 5)) ^ 1) & 1) << 7)
  }
  function Circuit23(x: bv8): bv8 {
    var t, u := ((x >> 5) ^ (x | (x >> 1)) ^ 1) & 1, (((x >> 2) & (x >> 3)) ^ (x >> 7) ^ 1) & 1;
    ((x >> 3) & 1) | (((x >> 2) & 1) << 1) | (u << 2) | (((((x >> 2) | (x >> 3) | (x >> 7)) ^ (x >> 6)) & 1) << 3)
      | (((x >> 1) & 1) << 4) | ((x & 1) << 5) | (t << 6) | (((t ^ (x >> 4)) & 1) << 7)
  }

  lemma Circuit12IsGates(x: bv8)
    ensures Circuit12(x) == Combined12Gates(x)
  {
  }
  lemma Circuit23IsGates(x: bv8)
    ensures Circuit23(x) == Combined23Gates(x)
  {
  }

  // One byte of a round, and one byte of the merging
  function Linked(x: bv8, bits: bv8, m: bv8, term: bv8): bv8 {
    Masked(Circuit23(Masked(Circuit12(Masked(bits, x)), m)), term)
  }
  function Turned(x: bv8): bv8 { x ^ ((x >> 1) | (x << 7)) }

  lemma LinkedIsChained(x: bv8, bits: bv8, m: bv8, term: bv8)
    ensures Chained(x, bits, m, term) == Linked(x, bits, m, term)
  {
    hide Combined12, Combined23, Circuit12, Circuit23, Combined12Gates, Combined23Gates, Masked;
    var u := Masked(bits, x);
    Combined12IsGates(u);
    Circuit12IsGates(u);
    Combined23IsGates(Masked(Circuit12(u), m));
    Circuit23IsGates(Masked(Circuit12(u), m));
  }

  lemma TurnedIsCombined02(x: bv8)
    ensures Combined02(x) == Turned(x)
  {
    hide Combined02;
    Combined02IsXorWithRotation(x);
  }

  // The answer to the challenge, for any mask
  function HostAnswer(m: bv8): Key {
    var a0, a1, a2, a3, a4 := Linked(0x01, 0x6a, m, 0x03), Linked(0x03, 0x6d, m, 0x00), Linked(0x00, 0xd7, m, 0x07),
      Linked(0x07, 0x91, m, 0x05), Linked(0x05, 0x0b, m, 0);
    var a5 := Masked(a4, a0);
    var b0, b1, b2, b3, b4 := Linked(a0, 0x3f, m, a1), Linked(a1, 0x29, m, a2), Linked(a2, 0x2f, m, a3),
      Linked(a3, 0x90, m, a5), Linked(a5, 0x07, m, 0);
    var b5 := Masked(b4, b0);
    var c0, c1, c2, c3, c4 := Turned(Linked(b0, 0xb6, m, b1)), Turned(Linked(b1, 0xb7, m, b2)),
      Turned(Linked(b2, 0x57, m, b3)), Turned(Linked(b3, 0x2b, m, b5)), Turned(Linked(b5, 0xd0, m, 0));
    var c5 := Masked(c4, c0);
    var d0, d1, d2, d3, d4 := Turned(Linked(c0, 0x5f, m, c1)), Turned(Linked(c1, 0xd4, m, c2)),
      Turned(Linked(c2, 0x0e, m, c3)), Turned(Linked(c3, 0xc4, m, c5)), Turned(Linked(c5, 0xb7, m, 0));
    var d5 := Masked(d4, d0);
    var e0, e1, e2, e3, e4 := Linked(d0, 0x46, m, d1), Linked(d1, 0x7f, m, d2), Linked(d2, 0x37, m, d3),
      Linked(d3, 0x39, m, d5), Linked(d5, 0x06, m, 0);
    var e5 := Masked(e4, e0);
    var f0, f1, f2, f3, f4 := Linked(e0, 0xa0, m, e1), Linked(e1, 0x99, m, e2), Linked(e2, 0xaa, m, e3),
      Linked(e3, 0x1a, m, e5), Linked(e5, 0x3a, m, 0);
    Key(f0, f1, f2, f3, f4)
  }

  lemma AnswerIsCrypted(m: bv8)
    ensures Crypted(HOST_SEED, m, HOST_INPUT) == HostAnswer(m)
  {
    hide Chained, Linked, Turned, Combined02, Masked, Bits, SeedGen;
    HostBits0();
    HostBits5();
    HostBits10();
    HostBits15();
    HostBits20();
    HostBits25();
    forall x, b, term ensures Chained(x, b, m, term) == Linked(x, b, m, term) { LinkedIsChained(x, b, m, term); }
    forall x ensures Combined02(x) == Turned(x) { TurnedIsCombined02(x); }
  }

  // ---------------------------------------------------------------------------------------
  // 32 different answers
  // ---------------------------------------------------------------------------------------

  // The first two bytes of the answer of a variant, added up
  function AnswerSum(v: bv8): bv8 {
    if v < 16 then
      Pick16(v & 15, 0x11, 0x41, 0xc5, 0xc3, 0x71, 0x44, 0x43, 0xd4, 0xe9, 0x01, 0xd7, 0x4b, 0x1d, 0xe8, 0x30, 0x67)
    else
      Pick16(v & 15, 0xaa, 0xb5, 0xee, 0xd3, 0xa3, 0x5f, 0xdc, 0xe3, 0x21, 0xc4, 0xc8, 0xbb, 0x4e, 0xa6, 0x32, 0xa9)
  }

  function ByteSum(k: Key): bv8 { k.b0 + k.b1 }

  lemma SumOfAnswer(v: bv8)
    requires v < 32
    ensures ByteSum(HostAnswer(SpreadMask(v))) == AnswerSum(v)
  {
    hide ByteSum, HostAnswer, SpreadMask, AnswerSum;
    if v < 16 {
      SumOfLowAnswer(v);
    } else {
      SumOfHighAnswer(v);
    }
  }
  lemma SumOfLowAnswer(v: bv8)
    requires v < 16
    ensures ByteSum(HostAnswer(SpreadMask(v))) == AnswerSum(v)
  {
  }
  lemma SumOfHighAnswer(v: bv8)
    requires 16 <= v < 32
    ensures ByteSum(HostAnswer(SpreadMask(v))) == AnswerSum(v)
  {
  }

  lemma SumsDiffer(v: bv8, w: bv8)
    requires v < 32 && w < 32
    ensures AnswerSum(v) == AnswerSum(w) ==> v == w
  {
  }

  // No two variants answer the host's challenge with the same key.
  lemma AnswersDiffer(v: Variant, w: Variant)
    ensures CryptedKey(0, v, HOST_CHALLENGE) == CryptedKey(0, w, HOST_CHALLENGE) <==> v == w
  {
    hide Crypted, Input, Seed, VariantMask, SpreadMask, HostAnswer, AnswerSum, ByteSum, ToByte;
    HostHalves();
    SumOfVariant(v);
    SumOfVariant(w);
    if CryptedKey(0, v, HOST_CHALLENGE) == CryptedKey(0, w, HOST_CHALLENGE) {
      SumsDiffer(ToByte(v), ToByte(w));
      IntRoundTrip(v);
      IntRoundTrip(w);
    }
  }

  lemma SumOfVariant(v: Variant)
    ensures ToByte(v) < 32
    ensures ByteSum(CryptedKey(0, v, HOST_CHALLENGE)) == AnswerSum(ToByte(v))
  {
    hide Crypted, Input, Seed, VariantMask, SpreadMask, HostAnswer, AnswerSum, ByteSum, ToByte;
    HostHalves();
    VariantFits(v);
    FirstTypeUsesNoRow(v, HOST_CHALLENGE);
    AnswerIsCrypted(SpreadMask(ToByte(v)));
    SumOfAnswer(ToByte(v));
  }

  // ---------------------------------------------------------------------------------------
  // The host and the drive
  // ---------------------------------------------------------------------------------------

  // A drive with the cipher of the library is told from all others by its answer.
  lemma VariantIsDistinct(u: Unit)
    requires u.cipher == CryptedKey
    ensures IsLeast(u)
  {
    hide CryptedKey;
    forall w: Variant | w < u.variant ensures u.cipher(0, w, HOST_CHALLENGE) != u.Key1(HOST_CHALLENGE) {
      AnswersDiffer(w, u.variant);
    }
  }

  // The host has found the very variant of the drive, sent the second key that the drive expects, and
  // holds its key of the bus.
  ghost predicate IsAgreed(u: Unit, t: seq<Event>)
    requires IsCompleted(u.cipher, t)
  {
    && FirstMatch(u.cipher, KeyOf(Reverse(t[2].buffer)), 0) == u.variant
    && Reverse(t[4].buffer) == u.Key2().Bytes()
    && HostBusKey(u.cipher, t[2].buffer, t[3].buffer) == u.BusKey(HOST_CHALLENGE)
  }

  lemma LeastIsAgreed(u: Unit, t: seq<Event>)
    requires IsHonest(u, t) && IsCompleted(u.cipher, t) && IsLeast(u)
    ensures IsAgreed(u, t)
  {
    hide FirstMatch, Reverse, IsLeast;
    BothSidesAgree(u, t);
    Key1Arrives(u, t);
    KeyOfBytes(u.Key1(HOST_CHALLENGE));
    VariantIsFound(u, u.Key1(HOST_CHALLENGE));
  }

  // Whatever the variant is and whatever challenge the drive makes up, they agree.
  lemma LibraryAndDriveAgree(u: Unit, t: seq<Event>)
    requires IsHonest(u, t) && IsCompleted(u.cipher, t) && u.cipher == CryptedKey
    ensures IsAgreed(u, t)
  {
    hide CryptedKey, IsAgreed, IsHonest, IsCompleted, IsLeast;
    VariantIsDistinct(u);
    LeastIsAgreed(u, t);
  }
}
