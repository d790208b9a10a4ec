/** dvdcss_unscramble (src/css.c): the in-place descrambling of one 2048-byte sector. */
module Sector {
  import opened CssTables
  import opened Combiner

  // DVDCSS_BLOCK_SIZE
  const BLOCK_SIZE: nat := 2048

  // ---------------------------------------------------------------------------------------
  // The registers of the C function
  // ---------------------------------------------------------------------------------------

  // i_t1 never exceeds nine bits and i_t2 and i_t4 never exceed eight, so they have that width here.
  // i_t3 is the 25-bit register in the low bits of a 32-bit word whose high bits are left-overs.
  function Feedback(t3: bv32): bv8 {
    ((((((((t3 >> 3) ^ t3) >> 1) ^ t3) >> 8) ^ t3) >> 5) & 0xff) as bv8
  }

  // i_t3 with o shifted in
  function Fed(t3: bv32, o: bv8): bv32 { (t3 << 8) | (o as bv32) }

  function Lfsr17(t1: bv9, t2: bv8): bv17 { ((t2 as bv17) << 9) | (t1 as bv17) }
  function Lfsr25(t3: bv32): bv25 { (t3 & 0x1ffffff) as bv25 }
  function Carry(t5: bv32): bv1 { (t5 & 1) as bv1 }
  function Registers(t1: bv9, t2: bv8, t3: bv32, t5: bv32): Gen { Gen(Lfsr25(t3), Lfsr17(t1, t2), Carry(t5)) }

  // The byte the 17-bit register shifts in, and its next value.
  function Next4(t1: bv9, t2: bv8): bv8 { CssTab2(t2) ^ CssTab3(t1) }
  function Next2(t1: bv9): bv8 { (t1 >> 1) as bv8 }
  function Next1(t1: bv9, t4: bv8): bv9 { ((t1 & 1) << 8) ^ (t4 as bv9) }

  lemma Lfsr17Step(t1: bv9, t2: bv8)
    ensures Next4(t1, t2) == Byte1(Lfsr17(t1, t2))
    ensures Lfsr17(Next1(t1, Next4(t1, t2)), Next2(t1)) == Feed1(Lfsr17(t1, t2), Byte1(Lfsr17(t1, t2)))
  {
    hide CssTab2, CssTab3;
    CssTab2IsXorOfShifts(t2);
    CssTab3IsXorOfShifts(t1);
  }

  function Xor4(a: bv8, b: bv8, c: bv8, d: bv8): bv8 { a ^ b ^ c ^ d }

  // The nested form of the feedback is the plain xor of four shifts, and only sees the low 25 bits.
  lemma FeedbackUnnests(t3: bv32)
    ensures Feedback(t3) == Xor4(((t3 >> 5) & 0xff) as bv8, ((t3 >> 13) & 0xff) as bv8,
                                 ((t3 >> 14) & 0xff) as bv8, ((t3 >> 17) & 0xff) as bv8)
  {
    assert ((((((((t3 >> 3) ^ t3) >> 1) ^ t3) >> 8) ^ t3) >> 5) & 0xff) as bv8
        == ((t3 >> 5) & 0xff) as bv8 ^ ((t3 >> 13) & 0xff) as bv8 ^
           ((t3 >> 14) & 0xff) as bv8 ^ ((t3 >> 17) & 0xff) as bv8;
  }

  lemma Byte0Unnests(r: bv25)
    ensures Byte0(r) == Xor4(((r >> 5) & 0xff) as bv8, ((r >> 13) & 0xff) as bv8,
                             ((r >> 14) & 0xff) as bv8, ((r >> 17) & 0xff) as bv8)
  {
    assert (((r >> 5) ^ (r >> 13) ^ (r >> 14) ^ (r >> 17)) & 0xff) as bv8
        == ((r >> 5) & 0xff) as bv8 ^ ((r >> 13) & 0xff) as bv8 ^
           ((r >> 14) & 0xff) as bv8 ^ ((r >> 17) & 0xff) as bv8;
  }

  lemma SlicesAgree(t3: bv32, r: bv25)
    requires r == Lfsr25(t3)
    ensures ((r >> 5) & 0xff) as bv8 == ((t3 >> 5) & 0xff) as bv8
    ensures ((r >> 13) & 0xff) as bv8 == ((t3 >> 13) & 0xff) as bv8
    ensures ((r >> 14) & 0xff) as bv8 == ((t3 >> 14) & 0xff) as bv8
    ensures ((r >> 17) & 0xff) as bv8 == ((t3 >> 17) & 0xff) as bv8
  {
  }

  lemma Lfsr25Step(t3: bv32, r: bv25)
    requires r == Lfsr25(t3)
    ensures Feedback(t3) == Byte0(r)
  {
    hide Feedback, Byte0, Lfsr25, Xor4;
    FeedbackUnnests(t3);
    Byte0Unnests(r);
    SlicesAgree(t3, r);
  }

  lemma Lfsr25Feed(t3: bv32, o: bv8)
    ensures Lfsr25(Fed(t3, o)) == Feed0(Lfsr25(t3), o)
  {
    hide Lfsr25, Feed0;
    Lfsr25FeedUnfolds(t3, o);
  }

  lemma Lfsr25FeedUnfolds(t3: bv32, o: bv8)
    ensures Lfsr25((t3 << 8) | (o as bv32)) == Feed0(Lfsr25(t3), o)
  {
  }

  // i_t5 += i_t6 + i_t4
  function Plus(t5: bv32, t6: bv32, t4: bv32): bv32 { t5 + t6 + t4 }

  // What the accumulator i_t5 holds after both bytes are added to it.
  lemma Accumulate(t5: bv32, a: bv8, b: bv8)
    requires t5 <= 1
    ensures Plus(t5, a as bv32, b as bv32) == Add(a, b, Carry(t5))
  {
    CarryIsBit(t5);
  }

  lemma CarryIsBit(t5: bv32)
    requires t5 <= 1
    ensures (Carry(t5) as bv32) == t5
  {
  }

  lemma AccumulatorFits(a: bv8, b: bv8, carry: bv1)
    ensures Add(a, b, carry) >> 8 <= 1
  {
  }

  lemma TotalIsAdd(g: Gen, a: bv8, b: bv8)
    requires a == Reversed(Byte0(g.r0)) && b == Reversed(Byte1(g.r1)) ^ 0xff
    ensures Total(g, 0, 0xff) == Add(a, b, g.carry)
  {
    hide Reversed, Byte0, Byte1, Add;
    assert a ^ 0 == a;
  }

  lemma ComplementedByte1(t4: bv8)
    ensures CssTab5(t4) == Reversed(t4) ^ 0xff
  {
    hide CssTab4, CssTab5, Reversed;
    CssTab4IsBitReversal(t4);
    CssTab5IsComplementOfCssTab4(t4);
  }

  lemma CarryIsHigh(sum: bv32)
    ensures Carry(sum >> 8) == High(sum)
  {
  }

  lemma AccumulateIsTotal(g: Gen, t5: bv32, a: bv8, b: bv8, sum: bv32)
    requires t5 <= 1 && g.carry == Carry(t5)
    requires a == CssTab4(Byte0(g.r0)) && b == CssTab5(Byte1(g.r1))
    requires sum == Plus(t5, a as bv32, b as bv32)
    ensures Low(sum) == Out(g, 0, 0xff)
    ensures Carry(sum >> 8) == High(Total(g, 0, 0xff)) && sum >> 8 <= 1
  {
    hide CssTab4, CssTab5, Byte0, Byte1, Low, High, Add, Total, Reversed, Carry, Plus;
    CssTab4IsBitReversal(Byte0(g.r0));
    ComplementedByte1(Byte1(g.r1));
    Accumulate(t5, a, b);
    AccumulatorFits(a, b, Carry(t5));
    TotalIsAdd(g, a, b);
    CarryIsHigh(sum);
  }

  // One iteration of the loop of dvdcss_unscramble is one byte step of the generator.
  lemma IterationIsStep(g: Gen, t1: bv9, t2: bv8, t3: bv32, t5: bv32, t4: bv8, t6: bv8, a: bv8, b: bv8, sum: bv32)
    requires t5 <= 1 && g == Registers(t1, t2, t3, t5)
    requires t4 == Next4(t1, t2) && t6 == Feedback(t3) && a == CssTab4(t6) && b == CssTab5(t4)
    requires sum == Plus(t5, a as bv32, b as bv32)
    ensures Registers(Next1(t1, t4), Next2(t1), Fed(t3, t6), sum >> 8) == Step(g, 0, 0xff)
    ensures Low(sum) == Out(g, 0, 0xff)
    ensures sum >> 8 <= 1
  {
    hide CssTab4, CssTab5, Next4, Feedback, Next1, Next2, Lfsr17, Lfsr25, Byte0, Byte1, Feed0, Feed1, Out, Total, High,
         Low, Carry, Plus, Fed;
    Lfsr17Step(t1, t2);
    Lfsr25Step(t3, g.r0);
    Lfsr25Feed(t3, t6);
    AccumulateIsTotal(g, t5, a, b, sum);
  }

  // ---------------------------------------------------------------------------------------
  // Seeding
  // ---------------------------------------------------------------------------------------

  function Word32(k2: bv8, k3: bv8, k4: bv8): bv32 { (k2 as bv32) | ((k3 as bv32) << 8) | ((k4 as bv32) << 16) }
  function Initial1(x: bv8): bv9 { (x as bv9) | 0x100 }
  function Inserted(x: bv32): bv32 { ((x >> 3) << 4) | 8 | (x & 7) }
  function Initial3(x: bv32): bv32 { x * 2 + 8 - (x & 7) }

  lemma InitialRegisters(k: Key, x: bv32)
    requires x == Word32(k.b2, k.b3, k.b4)
    ensures Registers(Initial1(k.b0), k.b1, Initial3(x), 0) == Seeded(k)
  {
    hide Word32, Initial1, Initial3, Lfsr25, Lfsr17, Carry, Seed0, Seed1;
    InitialWordIsSeed0(k, x);
    InitialT1IsSeed1(k);
    NoCarry();
  }

  lemma NoCarry()
    ensures Carry(0) == 0
  {
  }

  lemma InitialT1IsSeed1(k: Key)
    ensures Lfsr17(Initial1(k.b0), k.b1) == Seed1(k)
  {
    hide Lfsr17, Initial1, Word17;
    InitialT1IsWord17(k.b0, k.b1);
  }

  lemma InitialT1IsWord17(a: bv8, b: bv8)
    ensures Lfsr17(Initial1(a), b) == Word17(a, b)
  {
    InitialT1Unfolds(a, b);
  }

  lemma InitialT1Unfolds(a: bv8, b: bv8)
    ensures Lfsr17(Initial1(a), b) == ((b as bv17) << 9) | 0x100 | (a as bv17)
  {
  }

  lemma InitialWordIsSeed0(k: Key, x: bv32)
    requires x == Word32(k.b2, k.b3, k.b4)
    ensures Lfsr25(Initial3(x)) == Seed0(k)
  {
    hide Initial3, Lfsr25, Seed0, Inserted, Word32;
    WordFits(k.b2, k.b3, k.b4);
    Initial3InsertsBit(x);
    InsertedBitIsSeed0(k, x);
  }

  lemma WordFits(a: bv8, b: bv8, c: bv8)
    ensures Word32(a, b, c) < 0x1000000
  {
  }

  lemma InsertedBitIsSeed0(k: Key, x: bv32)
    requires x == Word32(k.b2, k.b3, k.b4)
    ensures Lfsr25(Inserted(x)) == Seed0(k)
  {
    hide Lfsr25, Seed0, Word32;
    InsertedBitUnfolds(k, x);
  }

  lemma InsertedBitUnfolds(k: Key, x: bv32)
    requires x == Word32(k.b2, k.b3, k.b4)
    ensures Lfsr25(((x >> 3) << 4) | 8 | (x & 7)) == Seed0(k)
  {
  }

  // Doubling, adding 8 and subtracting the low three bits inserts a one bit above them.
  lemma Initial3InsertsBit(x: bv32)
    requires x < 0x1000000
    ensures Initial3(x) == Inserted(x)
  {
  }

  // The C code xors the three-byte words, the specification the keys.
  lemma WordsXor(k: Key, s: Key)
    ensures Word32(k.b2, k.b3, k.b4) ^ Word32(s.b2, s.b3, s.b4) == Word32(k.Xor(s).b2, k.Xor(s).b3, k.Xor(s).b4)
  {
  }

  // The registers before the first iteration, from a title key and the seed bytes of a sector.
  lemma SeedingIsSeeded(k: Key, s: Key)
    ensures Registers(Initial1(k.b0 ^ s.b0), k.b1 ^ s.b1,
                      Initial3(Word32(k.b2, k.b3, k.b4) ^ Word32(s.b2, s.b3, s.b4)), 0) == Seeded(k.Xor(s))
  {
    hide Initial1, Initial3, Word32, Registers, Seeded;
    WordsXor(k, s);
    InitialRegisters(k.Xor(s), Word32(k.Xor(s).b2, k.Xor(s).b3, k.Xor(s).b4));
  }

  // ---------------------------------------------------------------------------------------
  // What descrambling a sector means
  // ---------------------------------------------------------------------------------------

  type SectorBytes = s: seq<bv8> | |s| == BLOCK_SIZE witness seq(BLOCK_SIZE, i => 0)

  // PES_scrambling_control
  predicate IsScrambled(sector: SectorBytes) { sector[0x14] & 0x30 != 0 }

  // Bytes 0x54 to 0x58 of a sector are its seed.
  function SeedOf(sector: SectorBytes): Key {
    Key(sector[0x54], sector[0x55], sector[0x56], sector[0x57], sector[0x58])
  }

  // The byte that is xored onto byte i of the sector.
  function Pad(key: Key, sector: SectorBytes, i: nat): bv8
    requires 0x80 <= i
  {
    At(Seeded(key.Xor(SeedOf(sector))), 0, 0xff, i - 0x80)
  }

  // One scrambled byte, substituted and padded, and back.
  function Decode(x: bv8, pad: bv8): bv8 { CssTab1(x) ^ pad }
  function Encode(x: bv8, pad: bv8): bv8 { CssTab1Inverse(x ^ pad) }

  function UnscrambledByte(key: Key, sector: SectorBytes, i: nat): bv8
    requires i < BLOCK_SIZE
  {
    if i < 0x80 then sector[i] else Decode(sector[i], Pad(key, sector, i))
  }

  function Unscrambled(key: Key, sector: SectorBytes): SectorBytes {
    if !IsScrambled(sector) then sector
    else seq(BLOCK_SIZE, i requires 0 <= i < BLOCK_SIZE => UnscrambledByte(key, sector, i))
  }

  lemma StepOfPad(key: Key, sector: SectorBytes, p: nat)
    requires 0x80 <= p < BLOCK_SIZE
    ensures var g, n := Seeded(key.Xor(SeedOf(sector))), p - 0x80;
            && UnscrambledByte(key, sector, p) == Decode(sector[p], Out(Run(g, 0, 0xff, n), 0, 0xff))
            && Run(g, 0, 0xff, n + 1) == Step(Run(g, 0, 0xff, n), 0, 0xff)
  {
    hide Decode, Out, Step, Seeded;
  }

  // A buffer that differs from was only in the sector at p, where it holds s.
  lemma SectorReplaced(now: seq<bv8>, was: seq<bv8>, p: nat, s: SectorBytes)
    requires |now| == |was| && p + BLOCK_SIZE <= |was|
    requires forall j :: 0 <= j < p || p + BLOCK_SIZE <= j < |was| ==> now[j] == was[j]
    requires forall j :: p <= j < p + BLOCK_SIZE ==> now[j] == s[j - p]
    ensures now == was[..p] + s + was[p + BLOCK_SIZE..]
  {
  }

  // dvdcss_unscramble, on the sector that starts at start in a larger buffer.
  method Unscramble(key: Key, buffer: array<bv8>, start: nat)
    requires start + BLOCK_SIZE <= buffer.Length
    modifies buffer
    ensures buffer[..] == old(buffer[..start]) + Unscrambled(key, old(buffer[start..start + BLOCK_SIZE]))
                          + old(buffer[start + BLOCK_SIZE..])
  {
    hide CssTab4, CssTab5, Step, Word32, Initial1, Initial3, Lfsr17, Lfsr25, Carry, Seeded,
         Low, Next1, Next2, Next4, Feedback, Out, Registers, Run, UnscrambledByte, Decode, Plus, Fed;
    ghost var was := buffer[..];
    ghost var sector: SectorBytes := was[start..start + BLOCK_SIZE];
    if buffer[start + 0x14] & 0x30 == 0 {
      SectorReplaced(was, was, start, sector);
      return;
    }
    ghost var g := Seeded(key.Xor(SeedOf(sector)));
    var t1 := Initial1(key.b0 ^ buffer[start + 0x54]);
    var t2 := key.b1 ^ buffer[start + 0x55];
    var t3 := Word32(key.b2, key.b3, key.b4) ^
              Word32(buffer[start + 0x56], buffer[start + 0x57], buffer[start + 0x58]);
    t3 := Initial3(t3);
    SeedingIsSeeded(key, SeedOf(sector));
    var p := 0x80;
    var t5: bv32 := 0;
    assert Run(g, 0, 0xff, 0) == g by { RunFromStart(g); }
    while p != BLOCK_SIZE
      invariant 0x80 <= p <= BLOCK_SIZE
      invariant t5 <= 1 && Registers(t1, t2, t3, t5) == Run(g, 0, 0xff, p - 0x80)
      invariant forall j :: 0 <= j < start + 0x80 || start + p <= j < buffer.Length ==> buffer[j] == was[j]
      invariant forall j :: start + 0x80 <= j < start + p ==> buffer[j] == UnscrambledByte(key, sector, j - start)
    {
      ghost var r1, r2, r3, r5 := t1, t2, t3, t5;
      var t4 := Next4(t1, t2);
      t2 := Next2(t1);
      t1 := Next1(t1, t4);
      var complemented := CssTab5(t4);
      var t6 := Feedback(t3);
      t3 := Fed(t3, t6);
      var reversed := CssTab4(t6);
      t5 := Plus(t5, reversed as bv32, complemented as bv32);
      IterationIsStep(Registers(r1, r2, r3, r5), r1, r2, r3, r5, t4, t6, reversed, complemented, t5);
      StepOfPad(key, sector, p);
      buffer[start + p] := Decode(buffer[start + p], Low(t5));
      p := p + 1;
      t5 := t5 >> 8;
    }
    UnscrambledBytes(key, sector);
    SectorReplaced(buffer[..], was, start, Unscrambled(key, sector));
  }

  lemma RunFromStart(g: Gen)
    ensures Run(g, 0, 0xff, 0) == g
  {
  }

  lemma UnscrambledBytes(key: Key, sector: SectorBytes)
    requires IsScrambled(sector)
    ensures forall i :: 0 <= i < BLOCK_SIZE ==> Unscrambled(key, sector)[i] == UnscrambledByte(key, sector, i)
    ensures forall i :: 0 <= i < 0x80 ==> UnscrambledByte(key, sector, i) == sector[i]
  {
    hide Decode, Pad;
  }

  // ---------------------------------------------------------------------------------------
  // Round trips
  // ---------------------------------------------------------------------------------------

  // The inverse of descrambling. The library has no such function.
  function ScrambledByte(key: Key, sector: SectorBytes, i: nat): bv8
    requires i < BLOCK_SIZE
  {
    if i < 0x80 then sector[i] else Encode(sector[i], Pad(key, sector, i))
  }

  function Scrambled(key: Key, sector: SectorBytes): SectorBytes {
    if !IsScrambled(sector) then sector
    else seq(BLOCK_SIZE, i requires 0 <= i < BLOCK_SIZE => ScrambledByte(key, sector, i))
  }

  lemma XorTwice(x: bv8, y: bv8)
    ensures (x ^ y) ^ y == x
  {
  }

  lemma ByteRoundTrips(x: bv8, pad: bv8)
    ensures Decode(Encode(x, pad), pad) == x
    ensures Encode(Decode(x, pad), pad) == x
  {
    hide CssTab1, CssTab1Inverse;
    XorTwice(x, pad);
    XorTwice(CssTab1(x), pad);
    CssTab1IsPermutation(x ^ pad);
    CssTab1IsPermutation(x);
  }

  // Whatever the key and the sector, descrambling and scrambling undo each other, and both leave
  // the first 0x80 bytes alone.
  lemma UnscrambleScrambles(key: Key, sector: SectorBytes)
    ensures Unscrambled(key, Scrambled(key, sector)) == sector
    ensures Scrambled(key, sector)[..0x80] == sector[..0x80]
  {
    hide Decode, Encode, At, Seeded;
    var s := Scrambled(key, sector);
    assert IsScrambled(s) <==> IsScrambled(sector);
    if IsScrambled(sector) {
      assert SeedOf(s) == SeedOf(sector);
      forall i | 0 <= i < BLOCK_SIZE ensures UnscrambledByte(key, s, i) == sector[i] {
        if 0x80 <= i { ByteRoundTrips(sector[i], Pad(key, sector, i)); }
      }
    }
  }

  lemma ScrambleUnscrambles(key: Key, sector: SectorBytes)
    ensures Scrambled(key, Unscrambled(key, sector)) == sector
    ensures Unscrambled(key, sector)[..0x80] == sector[..0x80]
  {
    hide Decode, Encode, At, Seeded;
    var u := Unscrambled(key, sector);
    assert IsScrambled(u) <==> IsScrambled(sector);
    if IsScrambled(sector) {
      assert SeedOf(u) == SeedOf(sector);
      forall i | 0 <= i < BLOCK_SIZE ensures ScrambledByte(key, u, i) == sector[i] {
        if 0x80 <= i { ByteRoundTrips(sector[i], Pad(key, sector, i)); }
      }
    }
  }

  // ---------------------------------------------------------------------------------------
  // What descrambling depends on
  // ---------------------------------------------------------------------------------------

  // The sector with its five seed bytes xored
  function Reseeded(sector: SectorBytes, d: Key): SectorBytes {
    sector[0x54 := sector[0x54] ^ d.b0][0x55 := sector[0x55] ^ d.b1][0x56 := sector[0x56] ^ d.b2]
          [0x57 := sector[0x57] ^ d.b3][0x58 := sector[0x58] ^ d.b4]
  }

  // Xoring byte i of the key and byte 0x54 + i of the sector with the same value changes nothing.
  lemma KeyAndSeedAreXored(key: Key, sector: SectorBytes, d: Key)
    ensures Unscrambled(key.Xor(d), Reseeded(sector, d))[0x80..] == Unscrambled(key, sector)[0x80..]
  {
    hide Decode, At, Seeded, Key.Xor, Reseeded, SeedOf, IsScrambled, Unscrambled;
    var k, s := key.Xor(d), Reseeded(sector, d);
    ReseededSector(sector, d);
    KeyXorsCancel(key, SeedOf(sector), d);
    if IsScrambled(sector) {
      UnscrambledBytes(k, s);
      UnscrambledBytes(key, sector);
      forall i | 0x80 <= i < BLOCK_SIZE ensures Unscrambled(k, s)[i] == Unscrambled(key, sector)[i] {
        assert s[i] == s[0x80..][i - 0x80] && sector[i] == sector[0x80..][i - 0x80];
      }
    } else {
      ClearIsUnscrambled(k, s);
      ClearIsUnscrambled(key, sector);
    }
  }

  lemma ReseededSector(sector: SectorBytes, d: Key)
    ensures SeedOf(Reseeded(sector, d)) == SeedOf(sector).Xor(d)
    ensures Reseeded(sector, d)[0x80..] == sector[0x80..]
    ensures IsScrambled(Reseeded(sector, d)) <==> IsScrambled(sector)
  {
  }

  lemma KeyXorsCancel(k: Key, l: Key, d: Key)
    ensures k.Xor(d).Xor(l.Xor(d)) == k.Xor(l)
  {
    XorsCancel(k.b0, l.b0, d.b0);
    XorsCancel(k.b1, l.b1, d.b1);
    XorsCancel(k.b2, l.b2, d.b2);
    XorsCancel(k.b3, l.b3, d.b3);
    XorsCancel(k.b4, l.b4, d.b4);
  }

  lemma XorsCancel(x: bv8, y: bv8, d: bv8)
    ensures (x ^ d) ^ (y ^ d) == x ^ y
  {
  }

  // Under two keys, byte n of the scrambled part differs by what byte n of their streams does.
  lemma KeysDifferByStreams(key: Key, other: Key, sector: SectorBytes, n: nat)
    requires IsScrambled(sector) && n < 0x780
    ensures Unscrambled(key, sector)[0x80 + n] ^ Unscrambled(other, sector)[0x80 + n]
         == At(Seeded(key.Xor(SeedOf(sector))), 0, 0xff, n) ^ At(Seeded(other.Xor(SeedOf(sector))), 0, 0xff, n)
  {
    hide At, Seeded, CssTab1, IsScrambled, SeedOf, Unscrambled, Key.Xor;
    UnscrambledBytes(key, sector);
    UnscrambledBytes(other, sector);
    XorsOfSame(CssTab1(sector[0x80 + n]), At(Seeded(key.Xor(SeedOf(sector))), 0, 0xff, n),
               At(Seeded(other.Xor(SeedOf(sector))), 0, 0xff, n));
  }

  lemma XorsOfSame(x: bv8, y: bv8, z: bv8)
    ensures (x ^ y) ^ (x ^ z) == y ^ z
  {
  }

  // A sector stays as it is under every key if and only if its PES_scrambling_control is zero.
  lemma StaysExactly(sector: SectorBytes)
    ensures (forall key :: Unscrambled(key, sector) == sector) <==> (sector[0x14] >> 4) & 3 == 0
  {
    hide Unscrambled;
    ScramblingControl(sector[0x14]);
    if IsScrambled(sector) {
      SomeKeyDescrambles(sector);
    } else {
      forall key ensures Unscrambled(key, sector) == sector { ClearIsUnscrambled(key, sector); }
    }
  }

  lemma ScramblingControl(x: bv8)
    ensures x & 0x30 == 0 <==> (x >> 4) & 3 == 0
  {
  }

  lemma ClearIsUnscrambled(key: Key, sector: SectorBytes)
    requires !IsScrambled(sector)
    ensures Unscrambled(key, sector) == sector
  {
  }

  // The streams of two keys differ in the first byte, so one of them changes byte 0x80.
  lemma SomeKeyDescrambles(sector: SectorBytes)
    requires IsScrambled(sector)
    ensures exists key :: Unscrambled(key, sector) != sector
  {
    hide Unscrambled, At, Seeded, Decode;
    var one, other := NO_KEY.Xor(SeedOf(sector)), LOW_BIT_KEY.Xor(SeedOf(sector));
    FirstByteDescrambled(sector, NO_KEY);
    FirstByteDescrambled(sector, LOW_BIT_KEY);
    FirstBytesDiffer(sector[0x80]);
    if Unscrambled(one, sector) == sector { assert Unscrambled(other, sector) != sector; }
  }

  const LOW_BIT_KEY := Key(1, 0, 0, 0, 0)

  lemma FirstByteDescrambled(sector: SectorBytes, k: Key)
    requires IsScrambled(sector)
    ensures Unscrambled(k.Xor(SeedOf(sector)), sector)[0x80] == Decode(sector[0x80], At(Seeded(k), 0, 0xff, 0))
  {
    hide At, Seeded, Decode;
    KeyXorTwice(k, SeedOf(sector));
  }

  lemma KeyXorTwice(k: Key, s: Key)
    ensures k.Xor(s).Xor(s) == k
  {
    XorTwice(k.b0, s.b0);
    XorTwice(k.b1, s.b1);
    XorTwice(k.b2, s.b2);
    XorTwice(k.b3, s.b3);
    XorTwice(k.b4, s.b4);
  }

  lemma FirstBytesDiffer(x: bv8)
    ensures Decode(x, At(Seeded(NO_KEY), 0, 0xff, 0)) != Decode(x, At(Seeded(LOW_BIT_KEY), 0, 0xff, 0))
  {
    hide CssTab1;
    assert Seeded(NO_KEY) == Gen(8, 0x100, 0) && Seeded(LOW_BIT_KEY) == Gen(8, 0x101, 0);
    assert Out(Gen(8, 0x100, 0), 0, 0xff) != Out(Gen(8, 0x101, 0), 0, 0xff);
    XorDiffers(CssTab1(x), Out(Gen(8, 0x100, 0), 0, 0xff), Out(Gen(8, 0x101, 0), 0, 0xff));
  }

  lemma XorDiffers(x: bv8, y: bv8, z: bv8)
    requires y != z
    ensures x ^ y != x ^ z
  {
  }

  // dvdcss_read and dvdcss_readv clear the PES_scrambling_control bits of each block they descramble.
  function Cleared(sector: SectorBytes): SectorBytes { sector[0x14 := sector[0x14] & 0x8f] }
  function Descrambled(key: Key, sector: SectorBytes): SectorBytes { Cleared(Unscrambled(key, sector)) }

  // A second pass, even with another key, finds nothing left to do.
  lemma DescrambledOnce(key: Key, other: Key, sector: SectorBytes)
    ensures Descrambled(other, Descrambled(key, sector)) == Descrambled(key, sector)
  {
    hide Unscrambled;
    var u := Unscrambled(key, sector);
    ClearedBits(u[0x14]);
    ClearedIsNotScrambled(other, Cleared(u));
  }

  lemma ClearedBits(b: bv8)
    ensures (b & 0x8f) & 0x30 == 0 && (b & 0x8f) & 0x8f == b & 0x8f
  {
  }

  lemma ClearedIsNotScrambled(key: Key, sector: SectorBytes)
    requires !IsScrambled(sector)
    ensures Unscrambled(key, sector) == sector
  {
  }
}
