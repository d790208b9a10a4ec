/** DecryptKey (src/css.c): the key stream generator on a bit-reversed register, and the two-pass
    mangling cipher that it feeds. */
module Mangling {
  import opened CssTables
  import opened Combiner
  import opened Sector

  // ---------------------------------------------------------------------------------------
  // The 25-bit register, mirrored
  // ---------------------------------------------------------------------------------------

  // A 32-bit word with its bits in the opposite order; DecryptKey keeps the register like this and
  // shifts it to the right.
  function Mirrored(l: bv32): bv32 {
    ((Reversed((l & 0xff) as bv8) as bv32) << 24) | ((Reversed(((l >> 8) & 0xff) as bv8) as bv32) << 16) |
    ((Reversed(((l >> 16) & 0xff) as bv8) as bv32) << 8) | (Reversed(((l >> 24) & 0xff) as bv8) as bv32)
  }

  function MirroredFeedback(l: bv32): bv8 {
    ((((((((l >> 8) ^ l) >> 1) ^ l) >> 3) ^ l) >> 7) & 0xff) as bv8
  }

  lemma MirroredIsInvolution(l: bv32)
    ensures Mirrored(Mirrored(l)) == l
  {
  }

  // The mirrored register with o shifted in
  function MirroredFed(l: bv32, o: bv8): bv32 { (l >> 8) | ((o as bv32) << 24) }

  lemma MirroredFeed(l: bv32, o: bv8)
    ensures Mirrored(MirroredFed(l, o)) == Fed(Mirrored(l), Reversed(o))
  {
    hide Mirrored, Reversed;
    MirroredFeedUnfolds(l, o);
  }

  lemma MirroredFeedUnfolds(l: bv32, o: bv8)
    ensures Mirrored((l >> 8) | ((o as bv32) << 24)) == (Mirrored(l) << 8) | (Reversed(o) as bv32)
  {
  }

  lemma MirroredFeedbackUnnests(l: bv32)
    ensures MirroredFeedback(l) == Xor4(((l >> 7) & 0xff) as bv8, ((l >> 10) & 0xff) as bv8,
                                        ((l >> 11) & 0xff) as bv8, ((l >> 19) & 0xff) as bv8)
  {
  }

  lemma ReversedXor4(a: bv8, b: bv8, c: bv8, d: bv8)
    ensures Reversed(Xor4(a, b, c, d)) == Xor4(Reversed(d), Reversed(c), Reversed(b), Reversed(a))
  {
  }

  lemma SlicesMirror5(l: bv32, m: bv32)
    requires m == Mirrored(l)
    ensures Reversed(((m >> 5) & 0xff) as bv8) == ((l >> 19) & 0xff) as bv8
  {
  }
  lemma SlicesMirror13(l: bv32, m: bv32)
    requires m == Mirrored(l)
    ensures Reversed(((m >> 13) & 0xff) as bv8) == ((l >> 11) & 0xff) as bv8
  {
  }
  lemma SlicesMirror14(l: bv32, m: bv32)
    requires m == Mirrored(l)
    ensures Reversed(((m >> 14) & 0xff) as bv8) == ((l >> 10) & 0xff) as bv8
  {
  }
  lemma SlicesMirror17(l: bv32, m: bv32)
    requires m == Mirrored(l)
    ensures Reversed(((m >> 17) & 0xff) as bv8) == ((l >> 7) & 0xff) as bv8
  {
  }

  // The mirrored feedback is the mirrored byte of the register.
  lemma MirroredStep(l: bv32, m: bv32)
    requires m == Mirrored(l)
    ensures MirroredFeedback(l) == Reversed(Feedback(m))
  {
    hide Mirrored, MirroredFeedback, Feedback, Xor4, Reversed;
    MirroredFeedbackUnnests(l);
    FeedbackUnnests(m);
    ReversedXor4(((m >> 5) & 0xff) as bv8, ((m >> 13) & 0xff) as bv8, ((m >> 14) & 0xff) as bv8,
              ((m >> 17) & 0xff) as bv8);
    SlicesMirror5(l, m);
    SlicesMirror13(l, m);
    SlicesMirror14(l, m);
    SlicesMirror17(l, m);
  }

  // ---------------------------------------------------------------------------------------
  // The key stream
  // ---------------------------------------------------------------------------------------

  // The generator that the four registers of DecryptKey stand for.
  function MirroredRegisters(lo: bv9, hi: bv8, lfsr0: bv32, combined: bv32): Gen {
    Gen(Lfsr25(Mirrored(lfsr0)), Lfsr17(lo, hi), Carry(combined))
  }

  lemma TotalIsMaskedAdd(g: Gen, o0: bv8, a: bv8, b: bv8, invert: bv8)
    requires o0 == Reversed(Byte0(g.r0)) && a == o0 ^ invert && b == Reversed(Byte1(g.r1))
    ensures Total(g, invert, 0) == Add(a, b, g.carry)
  {
    hide Reversed, Byte0, Byte1, Add;
    assert b ^ 0 == b;
  }

  lemma CombinedIsTotal(g: Gen, invert: bv8, combined: bv32, o0: bv8, a: bv8, b: bv8, sum: bv32)
    requires combined <= 1 && g.carry == Carry(combined)
    requires o0 == Reversed(Byte0(g.r0)) && a == o0 ^ invert && b == CssTab4(Byte1(g.r1))
    requires sum == Plus(combined, a as bv32, b as bv32)
    ensures Low(sum) == Out(g, invert, 0)
    ensures Carry(sum >> 8) == High(Total(g, invert, 0)) && sum >> 8 <= 1
  {
    hide CssTab4, Byte0, Byte1, Low, High, Add, Total, Reversed, Carry, Plus;
    CssTab4IsBitReversal(Byte1(g.r1));
    Accumulate(combined, a, b);
    AccumulatorFits(a, b, Carry(combined));
    TotalIsMaskedAdd(g, o0, a, b, invert);
    CarryIsHigh(sum);
  }

  // One iteration of the loop of DecryptKey is one byte step of the generator.
  lemma MirroredIterationIsStep(g: Gen, invert: bv8, lo: bv9, hi: bv8, lfsr0: bv32, combined: bv32,
                                o1: bv8, o0: bv8, a: bv8, b: bv8, sum: bv32)
    requires combined <= 1 && g == MirroredRegisters(lo, hi, lfsr0, combined)
    requires o1 == Next4(lo, hi) && b == CssTab4(o1) && o0 == MirroredFeedback(lfsr0) && a == o0 ^ invert
    requires sum == Plus(combined, a as bv32, b as bv32)
    ensures MirroredRegisters(Next1(lo, o1), Next2(lo), MirroredFed(lfsr0, o0), sum >> 8) == Step(g, invert, 0)
    ensures Low(sum) == Out(g, invert, 0)
    ensures sum >> 8 <= 1
  {
    hide CssTab4, Next4, MirroredFeedback, Feedback, Next1, Next2, Lfsr17, Lfsr25, Byte0, Byte1, Feed0, Feed1, Out,
         Total, High, Low, Carry, Plus, Mirrored, Reversed, Fed, MirroredFed;
    var m := Mirrored(lfsr0);
    Lfsr17Step(lo, hi);
    MirroredStep(lfsr0, m);
    Lfsr25Step(m, g.r0);
    MirroredFeed(lfsr0, o0);
    CssTab4IsBitReversal(Feedback(m));
    Lfsr25Feed(m, Reversed(o0));
    CombinedIsTotal(g, invert, combined, o0, a, b, sum);
  }

  // The word that is mirrored to seed the register.
  function Doubled(a: bv8, b: bv8, c: bv8): bv32 { ((c as bv32) << 17) | ((b as bv32) << 9) | ((a as bv32) << 1) }
  function LowThree(a: bv8): bv32 { (a & 7) as bv32 }
  function Finish(doubled: bv32, low: bv32): bv32 { doubled + 8 - low }
  function Initial0(k: Key): bv32 { Finish(Doubled(k.b2, k.b3, k.b4), LowThree(k.b2)) }

  lemma Initial0IsInitial3(k: Key, x: bv32)
    requires x == Word32(k.b2, k.b3, k.b4)
    ensures Initial0(k) == Initial3(x)
  {
    hide Word32, Finish, Initial3, Doubled, LowThree;
    DoubledIsDouble(k.b2, k.b3, k.b4, x);
    LowIsLow(k.b2, k.b3, k.b4, x);
    Initial3Finishes(x);
  }

  lemma DoubledIsDouble(a: bv8, b: bv8, c: bv8, x: bv32)
    requires x == Word32(a, b, c)
    ensures Doubled(a, b, c) == x * 2
  {
  }

  lemma LowIsLow(a: bv8, b: bv8, c: bv8, x: bv32)
    requires x == Word32(a, b, c)
    ensures LowThree(a) == x & 7
  {
  }

  lemma Initial3Finishes(x: bv32)
    ensures Initial3(x) == Finish(x * 2, x & 7)
  {
  }

  lemma MirroredSeeding(k: Key)
    ensures MirroredRegisters(Initial1(k.b0), k.b1, Mirrored(Initial0(k)), 0) == Seeded(k)
  {
    hide Initial0, Initial1, Initial3, Word32, Lfsr25, Lfsr17, Carry, Mirrored, Seeded;
    MirroredIsInvolution(Initial0(k));
    Initial0IsInitial3(k, Word32(k.b2, k.b3, k.b4));
    InitialRegisters(k, Word32(k.b2, k.b3, k.b4));
  }

  // The five bytes that mangle a key under key.
  function Stream(invert: bv8, key: Key): Key {
    var g := Seeded(key);
    Key(At(g, invert, 0, 0), At(g, invert, 0, 1), At(g, invert, 0, 2), At(g, invert, 0, 3), At(g, invert, 0, 4))
  }

  // The stream, worked out step by step
  function FiveBytes(g: Gen, m0: bv8, m1: bv8): Key {
    var g1 := Step(g, m0, m1);
    var g2 := Step(g1, m0, m1);
    var g3 := Step(g2, m0, m1);
    var g4 := Step(g3, m0, m1);
    Key(Out(g, m0, m1), Out(g1, m0, m1), Out(g2, m0, m1), Out(g3, m0, m1), Out(g4, m0, m1))
  }

  lemma FiveBytesAre(g: Gen, m0: bv8, m1: bv8)
    ensures FiveBytes(g, m0, m1)
         == Key(At(g, m0, m1, 0), At(g, m0, m1, 1), At(g, m0, m1, 2), At(g, m0, m1, 3), At(g, m0, m1, 4))
  {
    hide Step, Out;
    assert Run(g, m0, m1, 2) == Step(Run(g, m0, m1, 1), m0, m1);
    assert Run(g, m0, m1, 4) == Step(Run(g, m0, m1, 3), m0, m1);
  }

  function Assembled(a: bv8, b: bv8, c: bv8, d: bv8): bv32 {
    ((a as bv32) << 24) | ((b as bv32) << 16) | ((c as bv32) << 8) | (d as bv32)
  }

  // The four lookups that mirror the register.
  function MirroredByTable(l: bv32): bv32 {
    Assembled(CssTab4((l & 0xff) as bv8), CssTab4(((l >> 8) & 0xff) as bv8),
              CssTab4(((l >> 16) & 0xff) as bv8), CssTab4(((l >> 24) & 0xff) as bv8))
  }

  lemma TableMirrors(l: bv32)
    ensures MirroredByTable(l) == Mirrored(l)
  {
    hide CssTab4, Reversed, Assembled, Mirrored;
    CssTab4IsBitReversal((l & 0xff) as bv8);
    CssTab4IsBitReversal(((l >> 8) & 0xff) as bv8);
    CssTab4IsBitReversal(((l >> 16) & 0xff) as bv8);
    CssTab4IsBitReversal(((l >> 24) & 0xff) as bv8);
    MirroredIsAssembled(l);
  }

  lemma MirroredIsAssembled(l: bv32)
    ensures Mirrored(l) == Assembled(Reversed((l & 0xff) as bv8), Reversed(((l >> 8) & 0xff) as bv8),
                                     Reversed(((l >> 16) & 0xff) as bv8), Reversed(((l >> 24) & 0xff) as bv8))
  {
    hide Reversed;
  }

  method KeyStream(invert: bv8, keyBytes: Key) returns (k: array<bv8>)
    ensures fresh(k) && k.Length == 5 && KeyOf(k[..]) == Stream(invert, keyBytes)
  {
    hide Initial0, Initial1, Mirrored, MirroredByTable, MirroredRegisters, Seeded, CssTab4, Next1, Next2, Next4,
              MirroredFeedback,
         Low, Step, Out, Plus, MirroredFed;
    var lo := Initial1(keyBytes.b0);
    var hi := keyBytes.b1;
    var lfsr0 := MirroredByTable(Initial0(keyBytes));
    TableMirrors(Initial0(keyBytes));
    var combined: bv32 := 0;
    MirroredSeeding(keyBytes);
    ghost var g := Seeded(keyBytes);
    k := new bv8[5];
    for i := 0 to 5
      invariant combined <= 1 && MirroredRegisters(lo, hi, lfsr0, combined) == Run(g, invert, 0, i)
      invariant forall j :: 0 <= j < i ==> k[j] == At(g, invert, 0, j)
    {
      ghost var r1, r2, r3, r5 := lo, hi, lfsr0, combined;
      var o1 := Next4(lo, hi);
      hi := Next2(lo);
      lo := Next1(lo, o1);
      var reversed := CssTab4(o1);
      var o0 := MirroredFeedback(lfsr0);
      lfsr0 := MirroredFed(lfsr0, o0);
      var inverted := o0 ^ invert;
      combined := Plus(combined, inverted as bv32, reversed as bv32);
      MirroredIterationIsStep(MirroredRegisters(r1, r2, r3, r5), invert, r1, r2, r3, r5, o1, o0, inverted, reversed,
                              combined);
      k[i] := Low(combined);
      combined := combined >> 8;
    }
  }

  // ---------------------------------------------------------------------------------------
  // The mangling cipher
  // ---------------------------------------------------------------------------------------

  // One byte of a pass, and how to undo it.
  function Mix(k: bv8, x: bv8, y: bv8): bv8 { k ^ CssTab1(x) ^ y }
  function Unmix(k: bv8, m: bv8, y: bv8): bv8 { CssTab1Inverse(m ^ k ^ y) }

  lemma XorThreeTwice(x: bv8, k: bv8, y: bv8)
    ensures (k ^ x ^ y) ^ k ^ y == x
  {
  }
  lemma XorThreeBack(m: bv8, k: bv8, y: bv8)
    ensures k ^ (m ^ k ^ y) ^ y == m
  {
  }

  lemma MixIsReversible(k: bv8, x: bv8, y: bv8)
    ensures Unmix(k, Mix(k, x, y), y) == x
    ensures Mix(k, Unmix(k, x, y), y) == x
  {
    hide CssTab1, CssTab1Inverse;
    XorThreeTwice(CssTab1(x), k, y);
    CssTab1IsPermutation(x);
    CssTab1IsPermutation(x ^ k ^ y);
    XorThreeBack(x, k, y);
  }

  function FirstPass(k: Key, c: Key): Key {
    var b4 := Mix(k.b4, c.b4, c.b3);
    Key(Mix(k.b0, c.b0, b4), Mix(k.b1, c.b1, c.b0), Mix(k.b2, c.b2, c.b1), Mix(k.b3, c.b3, c.b2), b4)
  }

  function SecondPass(k: Key, b: Key): Key {
    Key(Mix(k.b0, b.b0, 0), Mix(k.b1, b.b1, b.b0), Mix(k.b2, b.b2, b.b1), Mix(k.b3, b.b3, b.b2), Mix(k.b4, b.b4, b.b3))
  }

  function FirstPassBack(k: Key, b: Key): Key {
    var c0 := Unmix(k.b0, b.b0, b.b4);
    var c1 := Unmix(k.b1, b.b1, c0);
    var c2 := Unmix(k.b2, b.b2, c1);
    var c3 := Unmix(k.b3, b.b3, c2);
    Key(c0, c1, c2, c3, Unmix(k.b4, b.b4, c3))
  }

  function SecondPassBack(k: Key, r: Key): Key {
    var b0 := Unmix(k.b0, r.b0, 0);
    var b1 := Unmix(k.b1, r.b1, b0);
    var b2 := Unmix(k.b2, r.b2, b1);
    var b3 := Unmix(k.b3, r.b3, b2);
    Key(b0, b1, b2, b3, Unmix(k.b4, r.b4, b3))
  }

  lemma FirstPassIsReversible(k: Key, c: Key)
    ensures FirstPassBack(k, FirstPass(k, c)) == c
    ensures FirstPass(k, FirstPassBack(k, c)) == c
  {
    hide Mix, Unmix;
    forall k, x, y ensures Unmix(k, Mix(k, x, y), y) == x && Mix(k, Unmix(k, x, y), y) == x {
      MixIsReversible(k, x, y);
    }
  }

  lemma SecondPassIsReversible(k: Key, b: Key)
    ensures SecondPassBack(k, SecondPass(k, b)) == b
    ensures SecondPass(k, SecondPassBack(k, b)) == b
  {
    hide Mix, Unmix;
    forall k, x, y ensures Unmix(k, Mix(k, x, y), y) == x && Mix(k, Unmix(k, x, y), y) == x {
      MixIsReversible(k, x, y);
    }
  }

  // What DecryptKey computes, and its inverse, which the library does not have.
  function Decrypted(invert: bv8, key: Key, crypted: Key): Key {
    SecondPass(Stream(invert, key), FirstPass(Stream(invert, key), crypted))
  }
  function Encrypted(invert: bv8, key: Key, plain: Key): Key {
    FirstPassBack(Stream(invert, key), SecondPassBack(Stream(invert, key), plain))
  }

  // For every key and invert byte, DecryptKey is a bijection on five-byte blocks.
  lemma DecryptionIsBijective(invert: bv8, key: Key, block: Key)
    ensures Encrypted(invert, key, Decrypted(invert, key, block)) == block
    ensures Decrypted(invert, key, Encrypted(invert, key, block)) == block
  {
    hide FirstPass, SecondPass, FirstPassBack, SecondPassBack, Stream;
    var k := Stream(invert, key);
    FirstPassIsReversible(k, block);
    SecondPassIsReversible(k, FirstPass(k, block));
    SecondPassIsReversible(k, block);
    FirstPassIsReversible(k, SecondPassBack(k, block));
  }

  // DecryptKey. The result may be the very array that is decrypted or that holds the key.
  method DecryptKey(invert: bv8, keyBytes: array<bv8>, crypted: array<bv8>, at: nat, result: array<bv8>)
    requires keyBytes.Length == 5 && result.Length == 5 && at + 5 <= crypted.Length
    modifies result
    ensures KeyOf(result[..]) == Decrypted(invert, old(KeyOf(keyBytes[..])), old(KeyAt(crypted[..], at)))
  {
    hide Mix, Stream;
    var k := KeyStream(invert, KeyOf(keyBytes[..]));
    FirstPassInPlace(k, crypted, at, result);
    SecondPassInPlace(k, result);
  }

  method FirstPassInPlace(k: array<bv8>, crypted: array<bv8>, at: nat, result: array<bv8>)
    requires k.Length == 5 && result.Length == 5 && at + 5 <= crypted.Length && k != result
    modifies result
    ensures KeyOf(result[..]) == FirstPass(KeyOf(k[..]), old(KeyAt(crypted[..], at)))
  {
    hide Mix, FirstPass, KeyOf, KeyAt;
    ghost var c := crypted[..];
    assert crypted == result ==> at == 0;
    result[4] := Mix(k[4], crypted[at + 4], crypted[at + 3]);
    result[3] := Mix(k[3], crypted[at + 3], crypted[at + 2]);
    result[2] := Mix(k[2], crypted[at + 2], crypted[at + 1]);
    assert crypted[at + 1] == c[at + 1] && crypted[at] == c[at];
    result[1] := Mix(k[1], crypted[at + 1], crypted[at]);
    result[0] := Mix(k[0], crypted[at], result[4]);
    FirstPassBytes(k[..], c, at, result[..]);
  }

  lemma FirstPassBytes(k: seq<bv8>, c: seq<bv8>, at: nat, r: seq<bv8>)
    requires |k| == 5 && |r| == 5 && at + 5 <= |c|
    requires r[4] == Mix(k[4], c[at + 4], c[at + 3]) && r[3] == Mix(k[3], c[at + 3], c[at + 2])
    requires r[2] == Mix(k[2], c[at + 2], c[at + 1]) && r[1] == Mix(k[1], c[at + 1], c[at])
    requires r[0] == Mix(k[0], c[at], r[4])
    ensures KeyOf(r) == FirstPass(KeyOf(k), KeyAt(c, at))
  {
    hide Mix;
  }

  method SecondPassInPlace(k: array<bv8>, result: array<bv8>)
    requires k.Length == 5 && result.Length == 5 && k != result
    modifies result
    ensures KeyOf(result[..]) == SecondPass(KeyOf(k[..]), old(KeyOf(result[..])))
  {
    hide Mix;
    result[4] := Mix(k[4], result[4], result[3]);
    result[3] := Mix(k[3], result[3], result[2]);
    result[2] := Mix(k[2], result[2], result[1]);
    result[1] := Mix(k[1], result[1], result[0]);
    result[0] := Mix(k[0], result[0], 0);
  }
}
