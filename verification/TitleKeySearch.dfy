/** RecoverTitleKey (src/css.c) as the loops that the C function runs. */
module TitleKeySearch {
  import opened CssTables
  import opened Combiner
  import opened Sector
  import opened TitleKeyAttack

  // ---------------------------------------------------------------------------------------
  // Four iterations that deduce the 25-bit register
  // ---------------------------------------------------------------------------------------

  // Subtracting the carry and then t4 from a pad byte, with the two explicit wrap-arounds of the code.
  function LessCarry(y: bv8, t5: bv32): bv32 { if t5 != 0 then ((y as bv32) + 0xff) & 0xff else y as bv32 }
  function LessT4(t6: bv32, t4: bv8): bv32 {
    if t6 < (t4 as bv32) then t6 + 0x100 - (t4 as bv32) else t6 - (t4 as bv32)
  }

  lemma LessT4IsDifference(y: bv8, a: bv8)
    ensures LessT4(y as bv32, a) == ((y - a) as bv32)
  {
    LessT4Wraps(y, a);
  }

  lemma LessT4Wraps(y: bv8, a: bv8)
    ensures (if (y as bv32) < (a as bv32) then (y as bv32) + 0x100 - (a as bv32) else (y as bv32) - (a as bv32))
         == ((y - a) as bv32)
  {
  }

  lemma LessOneWraps(y: bv8)
    ensures ((y as bv32) + 0xff) & 0xff == ((y - 1) as bv32)
  {
  }

  // i_t6 as the index of p_css_tab4
  function LowByte(t6: bv32): bv8 { (t6 & 0xff) as bv8 }

  lemma LowByteOfByte(x: bv8)
    ensures LowByte(x as bv32) == x
  {
  }

  // The subtraction yields a byte, and it is the one that adds up.
  lemma DeducedLowByte(y: bv8, a: bv8, t5: bv32, t6: bv32)
    requires t5 <= 1 && t6 == LessT4(LessCarry(y, t5), a)
    ensures LowByte(t6) == Difference(y, a, Carry(t5)) && t6 == (LowByte(t6) as bv32)
  {
    hide LessT4, LessCarry, Difference, Carry, LowByte;
    DeducedDifference(y, a, t5);
    LowByteOfByte(Difference(y, a, Carry(t5)));
  }

  lemma DeducedDifference(y: bv8, a: bv8, t5: bv32)
    requires t5 <= 1
    ensures LessT4(LessCarry(y, t5), a) == (Difference(y, a, Carry(t5)) as bv32)
  {
    hide LessT4, LessCarry, Difference, Carry;
    CarryOfBit(t5);
    if t5 == 0 {
      WithoutCarry(y, a);
    } else {
      WithCarry(y, a);
    }
  }

  lemma CarryOfBit(t5: bv32)
    requires t5 <= 1
    ensures t5 == 0 || t5 == 1
    ensures Carry(t5) == if t5 == 0 then 0 else 1
  {
  }

  lemma WithoutCarry(y: bv8, a: bv8)
    ensures LessT4(LessCarry(y, 0), a) == (Difference(y, a, 0) as bv32)
  {
    hide LessT4;
    LessT4IsDifference(y, a);
  }

  lemma WithCarry(y: bv8, a: bv8)
    ensures LessT4(LessCarry(y, 1), a) == (Difference(y, a, 1) as bv32)
  {
    hide LessT4, LessCarry, Difference;
    LessCarryOfOne(y);
    LessT4IsDifference(y - 1, a);
    DifferenceWithCarry(y, a);
  }

  lemma LessCarryOfOne(y: bv8)
    ensures LessCarry(y, 1) == ((y - 1) as bv32)
  {
    LessOneWraps(y);
  }

  lemma DifferenceWithCarry(y: bv8, a: bv8)
    ensures Difference(y, a, 1) == (y - 1) - a
  {
  }

  // One of the four iterations is one deduction step.
  lemma IterationDeduces(d: Gen, t1: bv9, t2: bv8, t3: bv32, t5: bv32, t4: bv8, y: bv8, a: bv8,
                         t6: bv32, x: bv8, o: bv8, sum: bv32)
    requires t5 <= 1 && d == Registers(t1, t2, t3, t5)
    requires t4 == Next4(t1, t2) && a == CssTab5(t4) && x == Difference(y, a, Carry(t5)) && o == CssTab4(x)
    requires t6 == (x as bv32) && sum == Plus(t5, t6, a as bv32)
    ensures Registers(Next1(t1, t4), Next2(t1), Fed(t3, o), sum >> 8) == DeduceStep(d, y)
    ensures sum >> 8 <= 1
  {
    hide CssTab4, CssTab5, Next4, Next1, Next2, Lfsr17, Lfsr25, Byte1, Feed0, Feed1, High, Carry, Reversed,
              Difference, Add,
         Fed;
    Lfsr17Step(t1, t2);
    Lfsr25Feed(t3, o);
    ComplementedByte1(t4);
    CssTab4IsBitReversal(x);
    AccumulateWide(t5, t6, x, a, sum);
  }

  lemma AccumulateWide(t5: bv32, t6: bv32, x: bv8, a: bv8, sum: bv32)
    requires t5 <= 1 && t6 == (x as bv32) && sum == Plus(t5, t6, a as bv32)
    ensures sum == Add(x, a, Carry(t5)) && Carry(sum >> 8) == High(sum) && sum >> 8 <= 1
  {
    hide Carry, Add, High, Plus;
    Accumulate(t5, x, a);
    AccumulatorFits(x, a, Carry(t5));
    CarryIsHigh(sum);
  }

  lemma GuessIsGuessed(try: bv16)
    ensures Registers(Initial1(FirstByte(try)), SecondByte(try), 0, 0) == Guessed(try)
  {
    hide Initial1, FirstByte, SecondByte, Lfsr17, Word17;
    InitialT1IsWord17(FirstByte(try), SecondByte(try));
  }

  method DeduceState(buffer: array<bv8>, attempt: bv16) returns (t1: bv9, t2: bv8, t3: bv32, t5: bv32)
    requires buffer.Length == 10
    ensures t5 <= 1 && Registers(t1, t2, t3, t5) == Deduced(buffer[..], attempt, 4)
  {
    hide Initial1, FirstByte, SecondByte, Registers, Guessed, DeduceStep, Next1, Next2, Next4, CssTab4, CssTab5,
         LessT4, LessCarry, Difference, Carry, LowByte, Plus, Fed;
    t1 := Initial1(FirstByte(attempt));
    t2 := SecondByte(attempt);
    t3 := 0;
    t5 := 0;
    GuessIsGuessed(attempt);
    for i := 0 to 4
      invariant t5 <= 1 && Registers(t1, t2, t3, t5) == Deduced(buffer[..], attempt, i)
    {
      ghost var r1, r2, r3, r5 := t1, t2, t3, t5;
      var t4 := Next4(t1, t2);
      t2 := Next2(t1);
      t1 := Next1(t1, t4);
      var complemented := CssTab5(t4);
      var t6 := LessT4(LessCarry(buffer[i], t5), complemented);
      DeducedLowByte(buffer[i], complemented, t5, t6);
      t5 := Plus(t5, t6, complemented as bv32);
      var reversed := CssTab4(LowByte(t6));
      IterationDeduces(Registers(r1, r2, r3, r5), r1, r2, r3, r5, t4, buffer[i], complemented, t6, LowByte(t6),
                       reversed, t5);
      t3 := Fed(t3, reversed);
      t5 := t5 >> 8;
    }
  }

  // ---------------------------------------------------------------------------------------
  // Six iterations that validate it
  // ---------------------------------------------------------------------------------------

  predicate StaysOnPad(candidate: Gen, pad: Text) {
    forall i :: 4 <= i < 10 ==> At(candidate, 0, 0xff, i - 4) == pad[i]
  }

  method Validate(buffer: array<bv8>, r1: bv9, r2: bv8, r3: bv32, r5: bv32) returns (i: nat)
    requires buffer.Length == 10 && r5 <= 1
    ensures i == 10 <==> StaysOnPad(Registers(r1, r2, r3, r5), buffer[..])
  {
    hide Registers, Step, Out, Next1, Next2, Next4, CssTab4, CssTab5, Feedback, Plus, Fed, Low;
    var t1, t2, t3, t5 := r1, r2, r3, r5;
    ghost var candidate := Registers(r1, r2, r3, r5);
    i := 4;
    while i < 10
      invariant 4 <= i <= 10
      invariant t5 <= 1 && Registers(t1, t2, t3, t5) == Run(candidate, 0, 0xff, i - 4)
      invariant forall k :: 4 <= k < i ==> At(candidate, 0, 0xff, k - 4) == buffer[k]
    {
      ghost var g := Registers(t1, t2, t3, t5);
      ghost var s1, s2, s3, s5 := t1, t2, t3, t5;
      var t4 := Next4(t1, t2);
      t2 := Next2(t1);
      t1 := Next1(t1, t4);
      var complemented := CssTab5(t4);
      var t6 := Feedback(t3);
      t3 := Fed(t3, t6);
      var reversed := CssTab4(t6);
      t5 := Plus(t5, reversed as bv32, complemented as bv32);
      IterationIsStep(g, s1, s2, s3, s5, t4, t6, reversed, complemented, t5);
      assert At(candidate, 0, 0xff, i - 4) == Low(t5);
      if Low(t5) != buffer[i] {
        break;
      }
      t5 := t5 >> 8;
      i := i + 1;
    }
  }

  // ---------------------------------------------------------------------------------------
  // Four backward steps
  // ---------------------------------------------------------------------------------------

  // The state with the known low 17 bits and j above them.
  function Joined(low: bv32, j: bv32): bv32 { (low & 0x1ffff) | (j << 17) }

  lemma JoinedAgain(low: bv32, i: bv32, j: bv32)
    requires i < 256
    ensures Joined(Joined(low, i), j) == Joined(low, j)
  {
  }

  lemma JoinedFits(low: bv32, j: bv32)
    requires j < 256
    ensures Joined(low, j) < 0x2000000
  {
  }

  // Such a state precedes t3 exactly when it shifts in the low byte of t3.
  lemma JoinedPrecedes(t3: bv32, j: bv32, o: bv8)
    requires j < 256 && o == (t3 & 0xff) as bv8
    ensures Feed0(Lfsr25(Joined(t3 >> 8, j)), o) == Lfsr25(t3)
  {
  }

  // The predecessor has that form.
  lemma PredecessorIsJoined(t3: bv32, p: bv25, o: bv8)
    requires Feed0(p, o) == Lfsr25(t3)
    ensures Lfsr25(Joined(t3 >> 8, ((p >> 17) & 0xff) as bv32)) == p
  {
    hide Feed0, Lfsr25;
    LowPartOfPredecessor(t3, p, o);
    SplitAndJoined(p);
  }

  lemma LowPartOfPredecessor(t3: bv32, p: bv25, o: bv8)
    requires Feed0(p, o) == Lfsr25(t3)
    ensures (t3 >> 8) & 0x1ffff == (p & 0x1ffff) as bv32
  {
  }

  lemma SplitAndJoined(p: bv25)
    ensures Lfsr25(((p & 0x1ffff) as bv32) | ((((p >> 17) & 0xff) as bv32) << 17)) == p
  {
  }

  lemma FedByte(t3: bv32, p: bv25, o: bv8)
    requires Feed0(p, o) == Lfsr25(t3)
    ensures o == (t3 & 0xff) as bv8
  {
  }

  // Among the 256 candidates exactly one matches: the byte above the unique predecessor.
  lemma OneByteMatches(t3: bv32, o: bv8, j: bv32)
    requires j < 256 && o == (t3 & 0xff) as bv8
    ensures Feedback(Joined(t3 >> 8, j)) == o <==> Lfsr25(Joined(t3 >> 8, j)) == Unshifted(Lfsr25(t3), 8)
  {
    hide Feedback, Joined, Lfsr25, Feed0, Byte0, Unshifted;
    var p := Lfsr25(Joined(t3 >> 8, j));
    Lfsr25Step(Joined(t3 >> 8, j), p);
    JoinedPrecedes(t3, j, o);
    PredecessorIsUnique(Lfsr25(t3), p);
    if Feed0(p, Byte0(p)) == Lfsr25(t3) {
      FedByte(t3, p, Byte0(p));
    }
  }

  // The byte that the search looks for.
  function Wanted(t3: bv32): bv32 { ((Unshifted(Lfsr25(t3), 8) >> 17) & 0xff) as bv32 }

  lemma WantedMatches(t3: bv32)
    ensures Wanted(t3) < 256
    ensures Lfsr25(Joined(t3 >> 8, Wanted(t3))) == Unshifted(Lfsr25(t3), 8)
  {
    hide Joined, Lfsr25, Feed0, Byte0, Unshifted;
    var p := Unshifted(Lfsr25(t3), 8);
    PredecessorIsUnique(Lfsr25(t3), p);
    PredecessorIsJoined(t3, p, Byte0(p));
    ByteFits(p);
  }

  lemma ByteFits(p: bv25)
    ensures ((p >> 17) & 0xff) as bv32 < 256
  {
  }

  // One backward step: the 256-way search for the byte shifted out.
  method StepBack(before: bv32) returns (t3: bv32)
    ensures t3 < 0x2000000 && Lfsr25(t3) == Unshifted(Lfsr25(before), 8)
  {
    hide Feedback, Joined, Lfsr25, Unshifted, Wanted;
    var t1 := (before & 0xff) as bv8;
    t3 := before >> 8;
    var j: bv32 := 0;
    WantedMatches(before);
    OneByteMatches(before, t1, Wanted(before));
    while j < 256
      invariant j <= 256
      invariant forall k :: Joined(t3, k) == Joined(before >> 8, k)
      invariant j <= Wanted(before)
      decreases 256 - j
    {
      ghost var low := t3;
      t3 := Joined(t3, j);
      var t6 := Feedback(t3);
      OneByteMatches(before, t1, j);
      JoinedFits(low, j);
      if t6 == t1 {
        return;
      }
      forall k ensures Joined(t3, k) == Joined(low, k) { JoinedAgain(low, j, k); }
      j := j + 1;
    }
    assert false;
  }

  // All four backward steps.
  method StepsBack(candidate: bv32) returns (t3: bv32)
    ensures t3 < 0x2000000 && Lfsr25(t3) == Rewound(Lfsr25(candidate), 4)
  {
    hide Lfsr25, Unshifted;
    t3 := candidate;
    for i := 0 to 4
      invariant Lfsr25(t3) == Rewound(Lfsr25(candidate), i)
      invariant i > 0 ==> t3 < 0x2000000
    {
      t3 := StepBack(t3);
    }
  }

  // ---------------------------------------------------------------------------------------
  // From the initial state to the seed
  // ---------------------------------------------------------------------------------------

  // The eight numbers tried are Base to Base + 7; the seed, if any, is at this Offset.
  function Base(t3: bv32): bv32 { (t3 >> 1) - 4 }
  function Tried(t4: bv32, t5: bv32): bv32 { t4 + t5 }
  function Offset(t3: bv32): bv32 { (t3 & 7) - ((t3 & 7) >> 1) }
  function SeedIn(t3: bv32): bv32 { ((t3 >> 4) << 3) | (t3 & 7) }

  lemma NoSeedNoMatch(t3: bv32, t5: bv32)
    requires t3 < 0x2000000 && t3 & 8 == 0 && t5 < 8
    ensures Initial3(Tried(Base(t3), t5)) != t3
  {
  }

  lemma SeedMatches(t3: bv32)
    requires t3 < 0x2000000 && t3 & 8 != 0
    ensures Initial3(SeedIn(t3)) == t3
  {
  }

  lemma OffsetIsSmall(t3: bv32)
    ensures Offset(t3) < 8
  {
  }

  lemma OnlyOffsetMatches(t3: bv32, t5: bv32)
    requires t3 < 0x2000000 && t3 & 8 != 0 && t5 < 8
    requires Initial3(Tried(Base(t3), t5)) == t3
    ensures t5 == Offset(t3)
  {
  }

  lemma SeedIsAtOffset(t3: bv32)
    requires t3 < 0x2000000 && t3 & 8 != 0
    ensures Tried(Base(t3), Offset(t3)) == SeedIn(t3)
  {
  }

  lemma MatchesAtOffset(t3: bv32, t5: bv32)
    requires t3 < 0x2000000 && t5 < 8
    ensures Initial3(Tried(Base(t3), t5)) == t3 <==> HasSeed(Lfsr25(t3)) && t5 == Offset(t3)
  {
    hide Initial3, Base, SeedIn, Offset, HasSeed, Lfsr25, Tried;
    SeedBitAgrees(t3);
    if t3 & 8 == 0 {
      NoSeedNoMatch(t3, t5);
    } else {
      SeedIsAtOffset(t3);
      SeedMatches(t3);
      if Initial3(Tried(Base(t3), t5)) == t3 { OnlyOffsetMatches(t3, t5); }
    }
  }

  lemma SeedBitAgrees(t3: bv32)
    ensures HasSeed(Lfsr25(t3)) <==> t3 & 8 != 0
  {
  }

  lemma Byte2Agrees(t3: bv32)
    ensures SeedByte2(SeedIn(t3)) == SeedByte2(Unseeded(Lfsr25(t3)) as bv32)
  {
  }

  lemma Byte3Agrees(t3: bv32)
    ensures SeedByte3(SeedIn(t3)) == SeedByte3(Unseeded(Lfsr25(t3)) as bv32)
  {
  }

  lemma Byte4Agrees(t3: bv32)
    ensures SeedByte4(SeedIn(t3)) == SeedByte4(Unseeded(Lfsr25(t3)) as bv32)
  {
  }

  // The key of a try, from the initial state.
  function KeyOfState(r: bv25, try: bv16): Key {
    KeyOfSeed(try, Unseeded(r))
  }

  lemma MatchIsKey(t3: bv32, x: bv32, try: bv16)
    requires x == SeedIn(t3)
    ensures Key(FirstByte(try), SecondByte(try), SeedByte2(x), SeedByte3(x), SeedByte4(x))
         == KeyOfState(Lfsr25(t3), try)
  {
    hide SeedIn, Lfsr25, Unseeded, FirstByte, SecondByte, SeedByte2, SeedByte3, SeedByte4;
    Byte2Agrees(t3);
    Byte3Agrees(t3);
    Byte4Agrees(t3);
  }

  lemma SmallRoundTrip(i: int)
    requires 0 <= i < 8
    ensures (i as bv32) as int == i
  {
    if i == 0 {} else if i == 1 {} else if i == 2 {} else if i == 3 {} else if i == 4 {} else if i == 5 {}
    else if i == 6 {} else {}
  }

  lemma WordRoundTrip(x: bv32)
    ensures (x as int) as bv32 == x
  {
  }

  lemma SmallWord(x: bv32)
    requires x < 8
    ensures x as int < 8
  {
  }

  // The iteration that finds the seed.
  function Turn(t3: bv32): nat { Offset(t3) as int }

  lemma MatchesInTurn(t3: bv32, i: int)
    requires t3 < 0x2000000 && 0 <= i < 8
    ensures Initial3(Tried(Base(t3), i as bv32)) == t3 <==> HasSeed(Lfsr25(t3)) && i == Turn(t3)
  {
    hide Initial3, Base, HasSeed, Lfsr25, Offset, Tried;
    SmallRoundTrip(i);
    WordRoundTrip(Offset(t3));
    SmallNumber(i);
    MatchesAtOffset(t3, i as bv32);
  }

  lemma SmallNumber(i: int)
    requires 0 <= i < 8
    ensures (i as bv32) < 8
  {
    if i == 0 {} else if i == 1 {} else if i == 2 {} else if i == 3 {} else if i == 4 {} else if i == 5 {}
    else if i == 6 {} else {}
  }

  lemma TurnComes(t3: bv32)
    ensures Turn(t3) < 8
  {
    hide Offset;
    OffsetIsSmall(t3);
    SmallWord(Offset(t3));
  }

  method MatchSeed(t3: bv32, attempt: bv16, keyBytes: array<bv8>) returns (found: bool)
    requires keyBytes.Length == 5 && t3 < 0x2000000
    modifies keyBytes
    ensures found <==> HasSeed(Lfsr25(t3))
    ensures found ==> KeyOf(keyBytes[..]) == KeyOfState(Lfsr25(t3), attempt)
    ensures !found ==> keyBytes[..] == old(keyBytes[..])
  {
    hide Lfsr25, HasSeed, Initial3, Base, SeedIn, Turn, Offset, Tried, FirstByte, SecondByte, KeyOfState, SeedByte2,
              SeedByte3, SeedByte4;
    var t4 := Base(t3);
    found := false;
    for t5 := 0 to 8
      invariant found <==> HasSeed(Lfsr25(t3)) && Turn(t3) < t5
      invariant found ==> KeyOf(keyBytes[..]) == KeyOfState(Lfsr25(t3), attempt)
      invariant !found ==> keyBytes[..] == old(keyBytes[..])
    {
      MatchesInTurn(t3, t5);
      var x := Tried(t4, t5 as bv32);
      if Initial3(x) == t3 {
        MatchIsSeed(t3, t5);
        MatchIsKey(t3, x, attempt);
        keyBytes[0] := FirstByte(attempt);
        keyBytes[1] := SecondByte(attempt);
        keyBytes[2] := SeedByte2(x);
        keyBytes[3] := SeedByte3(x);
        keyBytes[4] := SeedByte4(x);
        found := true;
      }
    }
    TurnComes(t3);
  }

  lemma MatchIsSeed(t3: bv32, i: int)
    requires t3 < 0x2000000 && HasSeed(Lfsr25(t3))
    requires 0 <= i < 8 && i == Turn(t3)
    ensures Tried(Base(t3), i as bv32) == SeedIn(t3)
  {
    hide Base, SeedIn, Offset, Tried, HasSeed, Lfsr25;
    WordRoundTrip(Offset(t3));
    SeedBitAgrees(t3);
    SeedIsAtOffset(t3);
  }

  // ---------------------------------------------------------------------------------------
  // The search
  // ---------------------------------------------------------------------------------------

  // The two bytes that a value of attempt guesses.
  function Try(attempt: int): bv16
    requires 0 <= attempt < 0x10000
  {
    attempt as bv16
  }

  // exit is one more than the largest accepted try from start up to end, or -1 if there is none.
  predicate IsLargest(pad: Text, start: nat, end: nat, exit: int)
    requires start <= end <= 0x10000 || start == end
  {
    if exit == -1 then forall t :: start <= t < end ==> !Accepted(pad, Try(t))
    else start < exit <= end && Accepted(pad, Try(exit - 1)) && forall t :: exit <= t < end ==> !Accepted(pad, Try(t))
  }

  lemma AcceptedMeans(pad: Text, try: bv16, initial: bv25)
    requires initial == Rewound(Deduced(pad, try, 4).r0, 4)
    ensures Accepted(pad, try) <==> StaysOnPad(Deduced(pad, try, 4), pad) && HasSeed(initial)
    ensures KeyOfState(initial, try) == KeyOfTry(pad, try)
  {
    hide Deduced, HasSeed, At, FirstByte, SecondByte, SeedByte2, SeedByte3, SeedByte4;
  }

  lemma KeyBytesXor(k: seq<bv8>, s: Key)
    requires |k| == 5
    ensures KeyOf([k[0] ^ s.b0, k[1] ^ s.b1, k[2] ^ s.b2, k[3] ^ s.b3, k[4] ^ s.b4]) == KeyOf(k).Xor(s)
  {
  }

  method PadBuffer(crypted: Text, decrypted: Text) returns (buffer: array<bv8>)
    ensures fresh(buffer) && buffer.Length == 10 && buffer[..] == PadOf(crypted, decrypted)
  {
    hide CssTab1;
    buffer := new bv8[10];
    for i := 0 to 10
      invariant forall k :: 0 <= k < i ==> buffer[k] == CssTab1(crypted[k]) ^ decrypted[k]
    {
      buffer[i] := CssTab1(crypted[i]) ^ decrypted[i];
    }
  }

  method XorSeed(keyBytes: array<bv8>, sectorSeed: Key)
    requires keyBytes.Length == 5
    modifies keyBytes
    ensures KeyOf(keyBytes[..]) == old(KeyOf(keyBytes[..])).Xor(sectorSeed)
  {
    KeyBytesXor(keyBytes[..], sectorSeed);
    keyBytes[0] := keyBytes[0] ^ sectorSeed.b0;
    keyBytes[1] := keyBytes[1] ^ sectorSeed.b1;
    keyBytes[2] := keyBytes[2] ^ sectorSeed.b2;
    keyBytes[3] := keyBytes[3] ^ sectorSeed.b3;
    keyBytes[4] := keyBytes[4] ^ sectorSeed.b4;
  }

  method RecoverTitleKey(start: int, crypted: Text, decrypted: Text, sectorSeed: Key, keyBytes: array<bv8>)
    returns (exit: int)
    requires keyBytes.Length == 5 && -0x8000_0000 <= start < 0x8000_0000
    modifies keyBytes
    ensures 0 <= start <= 0x10000 ==> IsLargest(PadOf(crypted, decrypted), start, 0x10000, exit)
    ensures !(0 <= start <= 0x10000) ==> exit == -1
    ensures exit == -1 ==> keyBytes[..] == old(keyBytes[..])
    ensures exit != -1 ==>
              && 0 < exit <= 0x10000
              && KeyOf(keyBytes[..]) == KeyOfTry(PadOf(crypted, decrypted), Try(exit - 1)).Xor(sectorSeed)
  {
    hide Accepted, CssTab1, Lfsr25, HasSeed, KeyOfTry, KeyOfState, StaysOnPad, Deduced, Rewound, Try;
    var buffer := PadBuffer(crypted, decrypted);
    ghost var pad := PadOf(crypted, decrypted);
    exit := -1;
    // attempt is unsigned: a negative start wraps around to a large value
    var attempt := if start < 0 then start + 0x1_0000_0000 else start;
    while attempt < 0x10000
      invariant start <= attempt && (0 <= start <= 0x10000 ==> attempt <= 0x10000)
      invariant buffer[..] == pad
      invariant exit == -1 || (0 <= start < exit <= attempt <= 0x10000)
      invariant 0 <= start <= attempt <= 0x10000 ==> IsLargest(pad, start, attempt, exit)
      invariant exit == -1 ==> keyBytes[..] == old(keyBytes[..])
      invariant exit != -1 ==> KeyOf(keyBytes[..]) == KeyOfTry(pad, Try(exit - 1))
    {
      var t1, t2, t3, t5 := DeduceState(buffer, Try(attempt));
      var n := Validate(buffer, t1, t2, t3, t5);
      AcceptedMeans(pad, Try(attempt), Rewound(Lfsr25(t3), 4));
      if n == 10 {
        var initial := StepsBack(t3);
        var found := MatchSeed(initial, Try(attempt), keyBytes);
        if found {
          exit := attempt + 1;
        }
      }
      attempt := attempt + 1;
    }
    if exit >= 0 {
      XorSeed(keyBytes, sectorSeed);
    }
  }

  // ---------------------------------------------------------------------------------------
  // What the result says about descrambling
  // ---------------------------------------------------------------------------------------

  // The search from 0 returns more than the try of every key that explains the text; in particular
  // -1 means that no key does.
  lemma NoKeyIsMissed(pad: Text, k: Key, exit: int)
    requires Explains(k, pad) && IsLargest(pad, 0, 0x10000, exit)
    ensures TryOf(k) as int < exit
  {
    hide Explains, Accepted, TryOf;
    SearchIsComplete(pad, k);
    HalfWordRoundTrip(TryOf(k));
    assert Accepted(pad, Try(TryOf(k) as int));
  }

  // On this text the search returns a key that does not explain it: the try is the last one, so no
  // other accepted try takes its place.
  lemma SearchIsNotAlwaysSound(exit: int)
    requires IsLargest(WitnessPad(), 0, 0x10000, exit)
    ensures exit == 0x10000 && !Explains(KeyOfTry(WitnessPad(), Try(exit - 1)), WitnessPad())
  {
    hide Accepted, Explains, KeyOfTry, TryOf, WitnessPad;
    AcceptedIsNotAlwaysSound();
    LastTry();
  }

  lemma LastTry()
    ensures Try(0xffff) == 0xffff
  {
  }

  lemma HalfWordRoundTrip(x: bv16)
    ensures 0 <= x as int < 0x10000 && (x as int) as bv16 == x
  {
  }

  // Ten bytes of a sector, and the text the attack works on.
  function Ten(s: seq<bv8>, at: nat): Text
    requires at + 10 <= |s|
  {
    s[at..at + 10]
  }

  // Explaining the text is descrambling the first ten scrambled bytes of the sector to the guessed ones.
  lemma ExplainsIsDescrambling(key: Key, sector: SectorBytes, guess: Text)
    requires IsScrambled(sector)
    ensures Ten(Unscrambled(key, sector), 0x80) == guess
       <==> Explains(key.Xor(SeedOf(sector)), PadOf(Ten(sector, 0x80), guess))
  {
    hide At, Seeded, CssTab1, Unscrambled, SeedOf, Decode, PadOf, Explains, IsScrambled;
    var plain, pad := Unscrambled(key, sector)[0x80..0x8a], PadOf(Ten(sector, 0x80), guess);
    assert Ten(Unscrambled(key, sector), 0x80) == plain by { TenIsSlice(Unscrambled(key, sector)); }
    forall i | 0 <= i < 10
      ensures plain[i] == guess[i] <==> At(Seeded(key.Xor(SeedOf(sector))), 0, 0xff, i) == pad[i]
    {
      PlainExactly(key, sector, guess, i);
    }
    ExplainsMeans(key.Xor(SeedOf(sector)), pad);
    assert plain == guess <==> forall i :: 0 <= i < 10 ==> plain[i] == guess[i];
  }

  lemma TenIsSlice(s: SectorBytes)
    ensures Ten(s, 0x80) == s[0x80..0x8a]
  {
  }

  lemma ExplainsMeans(k: Key, pad: Text)
    ensures Explains(k, pad) <==> forall i :: 0 <= i < 10 ==> At(Seeded(k), 0, 0xff, i) == pad[i]
  {
    hide At, Seeded;
  }

  lemma PlainExactly(key: Key, sector: SectorBytes, guess: Text, i: nat)
    requires IsScrambled(sector) && i < 10
    ensures Unscrambled(key, sector)[0x80 + i] == guess[i] <==>
            At(Seeded(key.Xor(SeedOf(sector))), 0, 0xff, i) == PadOf(Ten(sector, 0x80), guess)[i]
  {
    hide At, Seeded, PadByte, PadOf, Unscrambled, SeedOf, Decode, IsScrambled;
    var pad := At(Seeded(key.Xor(SeedOf(sector))), 0, 0xff, i);
    ScrambledByteIs(key, sector, i);
    PadOfByte(Ten(sector, 0x80), guess, i);
    PadSolves(sector[0x80 + i], pad, guess[i]);
  }

  lemma ScrambledByteIs(key: Key, sector: SectorBytes, i: nat)
    requires IsScrambled(sector) && i < 10
    ensures Unscrambled(key, sector)[0x80 + i]
         == Decode(sector[0x80 + i], At(Seeded(key.Xor(SeedOf(sector))), 0, 0xff, i))
  {
    hide At, Seeded, Decode, SeedOf;
  }

  // One byte of the pad
  function PadByte(x: bv8, y: bv8): bv8 { CssTab1(x) ^ y }

  lemma PadOfByte(crypted: Text, guess: Text, i: nat)
    requires i < 10
    ensures PadOf(crypted, guess)[i] == PadByte(crypted[i], guess[i])
  {
    hide CssTab1;
  }

  lemma PadSolves(x: bv8, pad: bv8, y: bv8)
    ensures Decode(x, pad) == y <==> pad == PadByte(x, y)
  {
    hide CssTab1, Xored, PadByte, Decode;
    BothAreXored(x, pad, y);
    XoredSolves(CssTab1(x), pad, y);
  }

  function Xored(x: bv8, y: bv8): bv8 { x ^ y }

  lemma BothAreXored(x: bv8, pad: bv8, y: bv8)
    ensures Decode(x, pad) == Xored(CssTab1(x), pad) && PadByte(x, y) == Xored(CssTab1(x), y)
  {
    hide CssTab1;
  }

  lemma XoredSolves(x: bv8, y: bv8, z: bv8)
    ensures Xored(x, y) == z <==> y == Xored(x, z)
  {
    hide Xored;
    XoredTwice(x, y);
    XoredTwice(x, z);
  }

  lemma XoredTwice(x: bv8, y: bv8)
    ensures Xored(x, Xored(x, y)) == y
  {
  }
}
