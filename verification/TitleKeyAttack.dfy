/** RecoverTitleKey (src/css.c): the search for the key that turns ten known scrambled bytes into
    ten known plain bytes. It guesses the 17-bit register, deduces the 25-bit one from four bytes,
    checks the other six, and runs the 25-bit register backwards to its seed. */
module TitleKeyAttack {
  import opened CssTables
  import opened Combiner
  import opened Sector

  // ---------------------------------------------------------------------------------------
  // What is searched for
  // ---------------------------------------------------------------------------------------

  type Text = s: seq<bv8> | |s| == 10 witness seq(10, i => 0)

  // The pad that turns crypted into decrypted.
  function PadOf(crypted: Text, decrypted: Text): Text {
    seq(10, i requires 0 <= i < 10 => CssTab1(crypted[i]) ^ decrypted[i])
  }

  // The generator seeded with k emits the pad.
  predicate Explains(k: Key, pad: Text) {
    forall i :: 0 <= i < 10 ==> At(Seeded(k), 0, 0xff, i) == pad[i]
  }

  // ---------------------------------------------------------------------------------------
  // Deducing the 25-bit register
  // ---------------------------------------------------------------------------------------

  // The byte of the 17-bit register as it is added in.
  function Complemented1(g: Gen): bv8 { Reversed(Byte1(g.r1)) ^ 0xff }

  // One step of the generator when its output byte y is known and the 25-bit register is not.
  function DeduceStep(g: Gen, y: bv8): Gen {
    var d := Difference(y, Complemented1(g), g.carry);
    Gen(Feed0(g.r0, Reversed(d)), Feed1(g.r1, Byte1(g.r1)), High(Add(d, Complemented1(g), g.carry)))
  }

  // The two key bytes that try guesses, and the generator with their 17-bit register.
  function FirstByte(try: bv16): bv8 { ((try >> 8) & 0xff) as bv8 }
  function SecondByte(try: bv16): bv8 { (try & 0xff) as bv8 }
  function Guessed(try: bv16): Gen {
    Gen(0, Word17(FirstByte(try), SecondByte(try)), 0)
  }

  function Deduced(pad: Text, try: bv16, n: nat): Gen
    requires n <= 4
    decreases n
  {
    if n == 0 then Guessed(try) else DeduceStep(Deduced(pad, try, n - 1), pad[n - 1])
  }

  // ---------------------------------------------------------------------------------------
  // Running the 25-bit register backwards
  // ---------------------------------------------------------------------------------------

  // The state n bytes earlier.
  function Rewound(r: bv25, n: nat): bv25
    decreases n
  {
    if n == 0 then r else Unshifted(Rewound(r, n - 1), 8)
  }

  function Unshifted(r: bv25, n: nat): bv25
    decreases n
  {
    if n == 0 then r else Unshift0(Unshifted(r, n - 1))
  }

  lemma {:induction false} UnshiftedReverses(r: bv25, n: nat)
    ensures Unshifted(Shifted0(r, n), n) == r
    ensures Shifted0(Unshifted(r, n), n) == r
  {
    hide Shift0, Unshift0;
    if n > 0 {
      Shift0IsReversible(Shifted0(r, n - 1));
      UnshiftedFromTheOtherEnd(Shifted0(r, n), n - 1);
      Shift0IsReversible(Unshifted(r, n - 1));
      ShiftedFromTheOtherEnd(Unshifted(r, n), n - 1);
      UnshiftedReverses(r, n - 1);
    }
  }

  lemma {:induction false} UnshiftedFromTheOtherEnd(r: bv25, n: nat)
    ensures Unshifted(r, n + 1) == Unshifted(Unshift0(r), n)
  {
    hide Unshift0;
    if n > 0 { UnshiftedFromTheOtherEnd(r, n - 1); }
  }

  lemma {:induction false} ShiftedFromTheOtherEnd(r: bv25, n: nat)
    ensures Shifted0(r, n + 1) == Shifted0(Shift0(r), n)
  {
    hide Shift0;
    if n > 0 { ShiftedFromTheOtherEnd(r, n - 1); }
  }

  // The four backward searches rest on this: every state has exactly one predecessor.
  lemma PredecessorIsUnique(r: bv25, p: bv25)
    ensures Feed0(p, Byte0(p)) == r <==> p == Unshifted(r, 8)
  {
    hide Feed0, Byte0;
    EightShifts0(p);
    EightShifts0(Unshifted(r, 8));
    UnshiftedReverses(p, 8);
    UnshiftedReverses(r, 8);
  }

  // A register has a seed exactly when its bit 3 is set.
  function Unseeded(r: bv25): bv25 { ((r >> 4) << 3) | (r & 7) }
  predicate HasSeed(r: bv25) { r & 8 != 0 }

  // ---------------------------------------------------------------------------------------
  // What the search accepts
  // ---------------------------------------------------------------------------------------

  predicate Accepted(pad: Text, try: bv16) {
    var candidate := Deduced(pad, try, 4);
    && (forall i :: 4 <= i < 10 ==> At(candidate, 0, 0xff, i - 4) == pad[i])
    && HasSeed(Rewound(candidate.r0, 4))
  }

  // The key that an accepted try stands for.
  function KeyOfTry(pad: Text, try: bv16): Key {
    KeyOfSeed(try, Unseeded(Rewound(Deduced(pad, try, 4).r0, 4)))
  }

  function KeyOfSeed(try: bv16, x: bv25): Key {
    Key(FirstByte(try), SecondByte(try), SeedByte2(x as bv32), SeedByte3(x as bv32), SeedByte4(x as bv32))
  }

  function TryOf(k: Key): bv16 { ((k.b0 as bv16) << 8) | (k.b1 as bv16) }

  lemma UnseededSeeds(k: Key, r: bv25)
    requires HasSeed(r)
    requires Word24(k) == Unseeded(r)
    ensures Seed0(k) == r
  {
  }

  lemma SeedUnseeds(k: Key)
    ensures HasSeed(Seed0(k)) && Unseeded(Seed0(k)) == Word24(k)
  {
  }

  lemma SeedBytes(x: bv25, k: Key)
    requires x < 0x1000000
    requires k.b2 == SeedByte2(x as bv32) && k.b3 == SeedByte3(x as bv32) && k.b4 == SeedByte4(x as bv32)
    ensures Word24(k) == x
  {
  }

  // ---------------------------------------------------------------------------------------
  // Deduction retraces the generator
  // ---------------------------------------------------------------------------------------

  lemma OutIsSum(g: Gen)
    ensures Total(g, 0, 0xff) == Add(Reversed(Byte0(g.r0)), Complemented1(g), g.carry)
  {
    hide Reversed, Byte0, Byte1, Add, Total;
    TotalIsAdd(g, Reversed(Byte0(g.r0)), Complemented1(g));
  }

  // From the output of a step, the byte the 25-bit register shifted in is recovered.
  lemma DeduceStepRetraces(d: Gen, g: Gen)
    requires d.r1 == g.r1 && d.carry == g.carry
    ensures DeduceStep(d, Out(g, 0, 0xff))
         == Gen(Feed0(d.r0, Byte0(g.r0)), Step(g, 0, 0xff).r1, Step(g, 0, 0xff).carry)
  {
    hide Reversed, Byte0, Byte1, Add, Total, Difference, Feed0, Feed1, Low, High, Complemented1;
    OutIsSum(g);
    SameComplemented1(d, g);
    DifferenceIsUnique(Reversed(Byte0(g.r0)), Complemented1(g), g.carry);
    CssTab4IsBitReversal(Byte0(g.r0));
  }

  lemma SameComplemented1(d: Gen, g: Gen)
    requires d.r1 == g.r1
    ensures Complemented1(d) == Complemented1(g)
  {
    hide Reversed, Byte1;
  }

  // The low 8 * n bits of the 25-bit register.
  function LowMask(n: nat): bv25
    requires n <= 4
  {
    if n == 0 then 0 else if n == 1 then 0xff else if n == 2 then 0xffff else if n == 3 then 0xffffff else 0x1ffffff
  }

  lemma FeedExtendsAgreement(x: bv25, y: bv25, m: bv25, o: bv8)
    requires x & m == y & m
    ensures Feed0(x, o) & ((m << 8) | 0xff) == Feed0(y, o) & ((m << 8) | 0xff)
  {
  }

  lemma LowMaskSteps(n: nat)
    requires n < 4
    ensures LowMask(n + 1) == (LowMask(n) << 8) | 0xff
  {
  }

  lemma {:induction false} DeductionRetraces(pad: Text, try: bv16, g: Gen, n: nat)
    requires n <= 4
    requires g.r1 == Guessed(try).r1 && g.carry == 0
    requires forall i :: 0 <= i < n ==> At(g, 0, 0xff, i) == pad[i]
    ensures Deduced(pad, try, n).r1 == Run(g, 0, 0xff, n).r1
    ensures Deduced(pad, try, n).carry == Run(g, 0, 0xff, n).carry
    ensures Deduced(pad, try, n).r0 & LowMask(n) == Run(g, 0, 0xff, n).r0 & LowMask(n)
  {
    hide Out, DeduceStep, Byte0, Feed0, Seed1, LowMask;
    if n == 0 {
      NothingToAgreeOn(Deduced(pad, try, n).r0, g.r0);
    } else {
      DeductionRetraces(pad, try, g, n - 1);
      var d, r := Deduced(pad, try, n - 1), Run(g, 0, 0xff, n - 1);
      assert pad[n - 1] == At(g, 0, 0xff, n - 1);
      DeduceStepRetraces(d, r);
      FeedExtendsAgreement(d.r0, r.r0, LowMask(n - 1), Byte0(r.r0));
      LowMaskSteps(n - 1);
      StepFeeds(r);
    }
  }

  lemma NothingToAgreeOn(x: bv25, y: bv25)
    ensures x & LowMask(0) == y & LowMask(0)
  {
  }

  lemma StepFeeds(g: Gen)
    ensures Step(g, 0, 0xff).r0 == Feed0(g.r0, Byte0(g.r0))
  {
    hide Feed0, Byte0, Feed1, Byte1, Total, High;
  }

  lemma AllBits(x: bv25)
    ensures x & LowMask(4) == x
  {
  }

  lemma {:induction false} RunsCompose(g: Gen, m0: bv8, m1: bv8, m: nat, n: nat)
    ensures Run(Run(g, m0, m1, m), m0, m1, n) == Run(g, m0, m1, m + n)
    ensures At(Run(g, m0, m1, m), m0, m1, n) == At(g, m0, m1, m + n)
  {
    hide Step, Out;
    if n > 0 { RunsCompose(g, m0, m1, m, n - 1); }
  }

  // Running backwards from where a run got to in n bytes finds where it started, and vice versa.
  lemma {:induction false} RewoundReverses(r: bv25, n: nat)
    ensures Rewound(Shifted0(r, 8 * n), n) == r
    ensures Shifted0(Rewound(r, n), 8 * n) == r
  {
    hide Unshift0, Shift0;
    if n > 0 {
      RewoundReverses(r, n - 1);
      UnshiftedReverses(Shifted0(r, 8 * (n - 1)), 8);
      ShiftsCompose(r, 0, 8 * (n - 1), 8);
      RewoundFromTheOtherEnd(Shifted0(r, 8 * n), n - 1);
      UnshiftedReverses(Rewound(r, n - 1), 8);
      ShiftsCompose(Rewound(r, n), 0, 8, 8 * (n - 1));
    }
  }

  lemma {:induction false} RewoundFromTheOtherEnd(r: bv25, n: nat)
    ensures Rewound(r, n + 1) == Rewound(Unshifted(r, 8), n)
  {
    hide Unshifted;
    if n > 0 { RewoundFromTheOtherEnd(r, n - 1); }
  }

  lemma TryOfBytes(k: Key)
    ensures FirstByte(TryOf(k)) == k.b0 && SecondByte(TryOf(k)) == k.b1
  {
  }

  // ---------------------------------------------------------------------------------------
  // Completeness
  // ---------------------------------------------------------------------------------------

  lemma CandidateIsRun(pad: Text, k: Key)
    requires Explains(k, pad)
    ensures Deduced(pad, TryOf(k), 4) == Run(Seeded(k), 0, 0xff, 4)
  {
    hide At, Seed0, LowMask, Word17, TryOf, FirstByte, SecondByte;
    TryOfBytes(k);
    DeductionRetraces(pad, TryOf(k), Seeded(k), 4);
    AllBits(Deduced(pad, TryOf(k), 4).r0);
    AllBits(Run(Seeded(k), 0, 0xff, 4).r0);
  }

  lemma RunStaysOnPad(pad: Text, g: Gen)
    ensures (forall i :: 4 <= i < 10 ==> At(Run(g, 0, 0xff, 4), 0, 0xff, i - 4) == pad[i]) <==>
            (forall i :: 4 <= i < 10 ==> At(g, 0, 0xff, i) == pad[i])
  {
    hide At;
    forall i | 4 <= i < 10 ensures At(Run(g, 0, 0xff, 4), 0, 0xff, i - 4) == At(g, 0, 0xff, i) {
      RunsCompose(g, 0, 0xff, 4, i - 4);
    }
  }

  // A key that explains the text is found: its first two bytes are an accepted try, and the try
  // stands for that very key.
  lemma SearchIsComplete(pad: Text, k: Key)
    requires Explains(k, pad)
    ensures Accepted(pad, TryOf(k)) && KeyOfTry(pad, TryOf(k)) == k
  {
    hide At, HasSeed, Unseeded, Seed0, Word17, TryOf, FirstByte, SecondByte, SeedByte2, SeedByte3, SeedByte4, Word24,
         Deduced, Run;
    TryOfBytes(k);
    CandidateIsRun(pad, k);
    RunStaysOnPad(pad, Seeded(k));
    RunShiftsRegisters(Seeded(k), 0, 0xff, 4);
    RewoundReverses(Seeded(k).r0, 4);
    SeedUnseeds(k);
    SeedUnpacks(k);
  }

  lemma SeedUnpacks(k: Key)
    ensures SeedByte2(Word24(k) as bv32) == k.b2 && SeedByte3(Word24(k) as bv32) == k.b3
    ensures SeedByte4(Word24(k) as bv32) == k.b4
  {
  }

  // ---------------------------------------------------------------------------------------
  // Soundness
  // ---------------------------------------------------------------------------------------

  lemma SeedOfTry(pad: Text, try: bv16)
    requires HasSeed(Rewound(Deduced(pad, try, 4).r0, 4))
    ensures Seed0(KeyOfTry(pad, try)) == Rewound(Deduced(pad, try, 4).r0, 4)
    ensures Seed1(KeyOfTry(pad, try)) == Guessed(try).r1
  {
    hide HasSeed, Unseeded, Seed0, Word17, FirstByte, SecondByte, SeedByte2, SeedByte3, SeedByte4, Word24,
         Deduced, Rewound;
    var r := Rewound(Deduced(pad, try, 4).r0, 4);
    UnseededFits(r);
    SeedBytes(Unseeded(r), KeyOfTry(pad, try));
    UnseededSeeds(KeyOfTry(pad, try), r);
  }

  lemma UnseededFits(r: bv25)
    ensures Unseeded(r) < 0x1000000
  {
  }

  // The 17-bit register does not depend on the text.
  lemma {:induction false} DeductionRunsRegister1(pad: Text, try: bv16, g: Gen, n: nat)
    requires n <= 4 && g.r1 == Guessed(try).r1
    ensures Deduced(pad, try, n).r1 == Run(g, 0, 0xff, n).r1
  {
    hide Byte1, Byte0, Feed0, Feed1, Total, High, Add, Difference, Reversed, Word17;
    if n > 0 { DeductionRunsRegister1(pad, try, g, n - 1); }
  }

  // The generator started from the key of a try that has a seed reaches, after four bytes, the
  // candidate state of both registers.
  lemma KeyReachesCandidate(pad: Text, try: bv16)
    requires HasSeed(Rewound(Deduced(pad, try, 4).r0, 4))
    ensures var reached := Run(Seeded(KeyOfTry(pad, try)), 0, 0xff, 4);
            reached.r0 == Deduced(pad, try, 4).r0 && reached.r1 == Deduced(pad, try, 4).r1
  {
    hide HasSeed, KeyOfTry, Seed0, Seed1, Deduced, Rewound, Run, Shifted0, Guessed;
    var g := Seeded(KeyOfTry(pad, try));
    SeedOfTry(pad, try);
    RunShiftsRegisters(g, 0, 0xff, 4);
    RewoundReverses(Deduced(pad, try, 4).r0, 4);
    DeductionRunsRegister1(pad, try, g, 4);
  }

  // Four fed bytes: the last three are still in the register.
  function FedFour(r: bv25, o0: bv8, o1: bv8, o2: bv8, o3: bv8): bv25 {
    Feed0(Feed0(Feed0(Feed0(r, o0), o1), o2), o3)
  }

  lemma FedBytesAreKept(r: bv25, o0: bv8, o1: bv8, o2: bv8, o3: bv8, s: bv25, p0: bv8, p1: bv8, p2: bv8, p3: bv8)
    requires FedFour(r, o0, o1, o2, o3) == FedFour(s, p0, p1, p2, p3)
    ensures o1 == p1 && o2 == p2 && o3 == p3
  {
  }

  // The byte deduced in step n, and the byte the generator shifts in in step n.
  function DeducedByte(pad: Text, try: bv16, n: nat): bv8
    requires n < 4
  {
    var d := Deduced(pad, try, n);
    Reversed(Difference(pad[n], Complemented1(d), d.carry))
  }
  function ShiftedByte(g: Gen, n: nat): bv8 { Byte0(Run(g, 0, 0xff, n).r0) }

  lemma DeducedIsFedFour(pad: Text, try: bv16)
    ensures Deduced(pad, try, 4).r0 == FedFour(0, DeducedByte(pad, try, 0), DeducedByte(pad, try, 1),
                                               DeducedByte(pad, try, 2), DeducedByte(pad, try, 3))
  {
    hide Reversed, Difference, Complemented1, Feed0, Add, High, Feed1, Byte1, Word17;
    assert Deduced(pad, try, 0).r0 == 0;
    assert Deduced(pad, try, 1).r0 == Feed0(Deduced(pad, try, 0).r0, DeducedByte(pad, try, 0));
    assert Deduced(pad, try, 2).r0 == Feed0(Deduced(pad, try, 1).r0, DeducedByte(pad, try, 1));
    assert Deduced(pad, try, 3).r0 == Feed0(Deduced(pad, try, 2).r0, DeducedByte(pad, try, 2));
  }

  lemma RunIsFedFour(g: Gen)
    ensures Run(g, 0, 0xff, 4).r0 == FedFour(g.r0, ShiftedByte(g, 0), ShiftedByte(g, 1), ShiftedByte(g, 2),
                                             ShiftedByte(g, 3))
  {
    hide Byte0, Feed0, Feed1, Byte1, Total, High;
    assert Run(g, 0, 0xff, 0).r0 == g.r0;
    assert Run(g, 0, 0xff, 1).r0 == Feed0(Run(g, 0, 0xff, 0).r0, ShiftedByte(g, 0));
    assert Run(g, 0, 0xff, 2).r0 == Feed0(Run(g, 0, 0xff, 1).r0, ShiftedByte(g, 1));
    assert Run(g, 0, 0xff, 3).r0 == Feed0(Run(g, 0, 0xff, 2).r0, ShiftedByte(g, 2));
  }

  // If the generator shifts in the byte that was deduced from pad[n], it emits pad[n] and carries alike.
  lemma DeducedByteEmitsPad(d: Gen, g: Gen, y: bv8)
    requires d.r1 == g.r1 && d.carry == g.carry
    requires Byte0(g.r0) == Reversed(Difference(y, Complemented1(d), d.carry))
    ensures Out(g, 0, 0xff) == y
    ensures DeduceStep(d, y).carry == Step(g, 0, 0xff).carry
  {
    hide Reversed, Byte0, Byte1, Add, Total, Difference, Feed0, Feed1, Low, High, Complemented1;
    OutIsSum(g);
    SameComplemented1(d, g);
    DifferenceAddsUp(y, Complemented1(g), g.carry);
    CssTab4IsBitReversal(Difference(y, Complemented1(d), d.carry));
  }

  lemma {:induction false} KeyEmitsPad(pad: Text, try: bv16, g: Gen, n: nat)
    requires n <= 4 && g.r1 == Guessed(try).r1 && g.carry == 0
    requires forall i :: 0 <= i < 4 ==> ShiftedByte(g, i) == DeducedByte(pad, try, i)
    ensures Run(g, 0, 0xff, n).carry == Deduced(pad, try, n).carry
    ensures forall i :: 0 <= i < n ==> At(g, 0, 0xff, i) == pad[i]
  {
    hide Step, DeduceStep, Out, Reversed, Byte0, Difference, Complemented1, Word17;
    if n > 0 {
      KeyEmitsPad(pad, try, g, n - 1);
      DeductionRunsRegister1(pad, try, g, n - 1);
      assert ShiftedByte(g, n - 1) == DeducedByte(pad, try, n - 1);
      DeducedByteEmitsPad(Deduced(pad, try, n - 1), Run(g, 0, 0xff, n - 1), pad[n - 1]);
    }
  }

  // The exact soundness of an accepted try: its key explains the text if and only if it
  // reproduces the first byte, which the search never checks again.
  lemma AcceptedKeyExplains(pad: Text, try: bv16)
    requires Accepted(pad, try)
    ensures Explains(KeyOfTry(pad, try), pad) <==> At(Seeded(KeyOfTry(pad, try)), 0, 0xff, 0) == pad[0]
  {
    hide At, HasSeed, KeyOfTry, FedFour, Deduced, Seed0, Seed1, Guessed, Run, Rewound, DeducedByte, ShiftedByte;
    var g := Seeded(KeyOfTry(pad, try));
    if At(g, 0, 0xff, 0) == pad[0] {
      SeedOfTry(pad, try);
      KeyReachesCandidate(pad, try);
      FirstByteAgrees(pad, try, g);
      DeducedIsFedFour(pad, try);
      RunIsFedFour(g);
      FedBytesAreKept(g.r0, ShiftedByte(g, 0), ShiftedByte(g, 1), ShiftedByte(g, 2), ShiftedByte(g, 3),
                      0, DeducedByte(pad, try, 0), DeducedByte(pad, try, 1), DeducedByte(pad, try, 2),
                      DeducedByte(pad, try, 3));
      KeyEmitsPad(pad, try, g, 4);
      assert Run(g, 0, 0xff, 4) == Deduced(pad, try, 4);
      RunStaysOnPad(pad, g);
    }
  }

  lemma FirstByteAgrees(pad: Text, try: bv16, g: Gen)
    requires g.r1 == Guessed(try).r1 && g.carry == 0
    requires At(g, 0, 0xff, 0) == pad[0]
    ensures ShiftedByte(g, 0) == DeducedByte(pad, try, 0)
  {
    hide Reversed, Byte0, Byte1, Add, Total, Difference, Low, Complemented1, Word17;
    OutIsSum(g);
    SameComplemented1(Guessed(try), g);
    DifferenceIsUnique(Reversed(Byte0(g.r0)), Complemented1(g), g.carry);
    CssTab4IsBitReversal(Byte0(g.r0));
  }

  // Soundness and completeness together: what it takes for a key to explain the text.
  lemma ExplainsExactly(pad: Text, k: Key)
    ensures Explains(k, pad) <==> Accepted(pad, TryOf(k)) && KeyOfTry(pad, TryOf(k)) == k
                                  && At(Seeded(k), 0, 0xff, 0) == pad[0]
  {
    hide At, Accepted, KeyOfTry, TryOf;
    if Explains(k, pad) {
      SearchIsComplete(pad, k);
    } else if Accepted(pad, TryOf(k)) && KeyOfTry(pad, TryOf(k)) == k {
      AcceptedKeyExplains(pad, TryOf(k));
    }
  }

  // ---------------------------------------------------------------------------------------
  // The unchecked first byte
  // ---------------------------------------------------------------------------------------

  lemma OnlyLowBitOfFirstByteIsKept(r: bv25, o: bv8, p: bv8, o1: bv8, o2: bv8, o3: bv8)
    requires o & 1 == p & 1
    ensures FedFour(r, o, o1, o2, o3) == FedFour(r, p, o1, o2, o3)
  {
    hide FedFour, Kept;
    FedFourUnfolds(r, o, o1, o2, o3);
    FedFourUnfolds(r, p, o1, o2, o3);
  }

  function Kept(low: bv8, o1: bv8, o2: bv8, o3: bv8): bv25 {
    ((low as bv25) << 24) | ((o1 as bv25) << 16) | ((o2 as bv25) << 8) | (o3 as bv25)
  }

  lemma FedFourUnfolds(r: bv25, o0: bv8, o1: bv8, o2: bv8, o3: bv8)
    ensures FedFour(r, o0, o1, o2, o3) == Kept(o0 & 1, o1, o2, o3)
  {
  }

  // Two texts that differ in their first byte only, whose deduced first bytes have the same low bit
  // and carry alike, lead to the same candidate.
  lemma FirstByteIsForgotten(pad: Text, other: Text, try: bv16)
    requires pad[1..] == other[1..]
    requires DeducedByte(pad, try, 0) & 1 == DeducedByte(other, try, 0) & 1
    requires Deduced(pad, try, 1).carry == Deduced(other, try, 1).carry
    ensures Deduced(pad, try, 4) == Deduced(other, try, 4)
  {
    hide Deduced, DeducedByte, FedFour;
    SameRegister1(pad, other, try);
    assert forall i :: 1 <= i < 10 ==> pad[i] == pad[1..][i - 1] == other[1..][i - 1] == other[i];
    SameDeduction(pad, other, try, 1);
    SameDeduction(pad, other, try, 2);
    SameDeduction(pad, other, try, 3);
    DeducedIsFedFour(pad, try);
    DeducedIsFedFour(other, try);
    OnlyLowBitOfFirstByteIsKept(0, DeducedByte(pad, try, 0), DeducedByte(other, try, 0),
                                DeducedByte(pad, try, 1), DeducedByte(pad, try, 2), DeducedByte(pad, try, 3));
  }

  lemma SameRegister1(pad: Text, other: Text, try: bv16)
    ensures Deduced(pad, try, 1).r1 == Deduced(other, try, 1).r1
  {
    hide Difference, Feed0, Add, High, Feed1, Byte1, Word17;
  }

  lemma SameDeduction(pad: Text, other: Text, try: bv16, n: nat)
    requires 1 <= n < 4 && pad[n] == other[n]
    requires Deduced(pad, try, n).carry == Deduced(other, try, n).carry
    requires Deduced(pad, try, n).r1 == Deduced(other, try, n).r1
    ensures DeducedByte(pad, try, n) == DeducedByte(other, try, n)
    ensures Deduced(pad, try, n + 1).carry == Deduced(other, try, n + 1).carry
    ensures Deduced(pad, try, n + 1).r1 == Deduced(other, try, n + 1).r1
  {
    hide Reversed, Difference, Feed0, Add, High, Feed1, Byte1, Word17;
  }

  // Flipping the low bit of the first pad byte of this key leaves its try accepted, though the key
  // no longer explains the text: an accepted try is not always a key. Its try is the last one.
  const WITNESS: Key := Key(0xff, 0xff, 0, 0, 1)

  function WitnessPad(): Text {
    seq(10, i requires 0 <= i < 10 => At(Seeded(WITNESS), 0, 0xff, i) ^ (if i == 0 then 1 else 0))
  }

  lemma AcceptedIsNotAlwaysSound()
    ensures Accepted(WitnessPad(), TryOf(WITNESS)) && TryOf(WITNESS) == 0xffff
    ensures !Explains(KeyOfTry(WitnessPad(), TryOf(WITNESS)), WitnessPad())
  {
    hide Seeded, TryOf, At, Accepted, Deduced, DeducedByte;
    var pad: Text := seq(10, i requires 0 <= i < 10 => At(Seeded(WITNESS), 0, 0xff, i));
    var try := TryOf(WITNESS);
    SearchIsComplete(pad, WITNESS);
    WitnessFirstByte(pad, WitnessPad());
    assert pad[1..] == WitnessPad()[1..] by {
      forall i | 1 <= i < 10 ensures pad[i] == WitnessPad()[i] { XorZero(pad[i]); }
    }
    FirstByteIsForgotten(pad, WitnessPad(), try);
    SameCandidateSameVerdict(pad, WitnessPad(), try);
    WitnessTry();
  }

  lemma XorZero(x: bv8) ensures x ^ 0 == x {}

  lemma WitnessTry()
    ensures TryOf(WITNESS) == 0xffff
  {
  }

  lemma WitnessByte()
    ensures At(Seeded(WITNESS), 0, 0xff, 0) == 95
  {
  }

  lemma WitnessAddend()
    ensures Complemented1(Guessed(0xffff)) == 199
  {
  }

  lemma SameCandidateSameVerdict(pad: Text, other: Text, try: bv16)
    requires Accepted(pad, try) && pad[1..] == other[1..]
    requires Deduced(pad, try, 4) == Deduced(other, try, 4)
    ensures Accepted(other, try) && KeyOfTry(other, try) == KeyOfTry(pad, try)
  {
    hide Deduced, Rewound, HasSeed, At;
    assert forall i :: 4 <= i < 10 ==> pad[i] == pad[1..][i - 1] == other[1..][i - 1] == other[i];
  }

  // The first pad byte is 95 or 94; either way the deduced byte has its top bit set and carries.
  lemma WitnessFirstByte(pad: Text, other: Text)
    requires pad[0] == At(Seeded(WITNESS), 0, 0xff, 0) && other[0] == pad[0] ^ 1
    ensures DeducedByte(pad, TryOf(WITNESS), 0) & 1 == DeducedByte(other, TryOf(WITNESS), 0) & 1
    ensures Deduced(pad, TryOf(WITNESS), 1).carry == Deduced(other, TryOf(WITNESS), 1).carry
    ensures pad[0] != other[0]
  {
    hide TryOf, At, Seeded, Feed0, Feed1, Complemented1, Guessed, Reversed, Difference, Add, High;
    WitnessTry();
    WitnessByte();
    WitnessAddend();
    WitnessDifferences();
    GuessCarriesNothing(0xffff);
  }

  lemma GuessCarriesNothing(try: bv16)
    ensures Guessed(try).carry == 0
  {
  }

  lemma WitnessDifferences()
    ensures Reversed(Difference(95, 199, 0)) & 1 == 1 && Reversed(Difference(94, 199, 0)) & 1 == 1
    ensures High(Add(Difference(95, 199, 0), 199, 0)) == 1 && High(Add(Difference(94, 199, 0), 199, 0)) == 1
  {
  }
}
