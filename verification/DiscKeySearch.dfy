/** CrackDiscKey (src/css.c) as the table constructions and loops that the C function runs. */
module DiscKeySearch {
  import opened CssTables
  import opened Combiner
  import opened Sector
  import opened Mangling
  import opened DiscKeyAttack

  // ---------------------------------------------------------------------------------------
  // The table of possible k1
  // ---------------------------------------------------------------------------------------

  const K1_TABLE_SIZE: nat := 65536
  const K1_TABLE_WIDTH: nat := 10

  // Where row (b0, c1) starts: first the number of entries, then the entries.
  function Slot(b0: bv8, c1: bv8): int { K1_TABLE_WIDTH * (256 * ToInt(b0) + ToInt(c1)) }

  lemma SlotsDoNotOverlap(b0: bv8, c1: bv8, b0': bv8, c1': bv8)
    ensures 0 <= Slot(b0, c1) <= K1_TABLE_SIZE * K1_TABLE_WIDTH - K1_TABLE_WIDTH
    ensures Slot(b0, c1) + K1_TABLE_WIDTH <= Slot(b0', c1') || Slot(b0', c1') + K1_TABLE_WIDTH <= Slot(b0, c1)
            || (b0 == b0' && c1 == c1')
  {
    hide ToInt, ToByte;
    ByteRoundTrip(b0);
    ByteRoundTrip(c1);
    ByteRoundTrip(b0');
    ByteRoundTrip(c1');
  }

  // The ten bytes of a row hold the count and the entries of K1Row.
  ghost predicate RowHolds(table: seq<bv8>, tmp: bv8, b0: bv8, c1: bv8, n: nat)
    requires n <= 256
  {
    var slot, row := Slot(b0, c1), K1Row(tmp, b0, c1, n);
    && 0 <= slot && slot + K1_TABLE_WIDTH <= |table|
    && |row| < K1_TABLE_WIDTH
    && ToInt(table[slot]) == |row|
    && forall m :: 0 <= m < |row| ==> table[slot + 1 + m] == row[m]
  }

  // Only ten bytes matter to a row.
  lemma RowIsLocal(was: seq<bv8>, now: seq<bv8>, tmp: bv8, b0: bv8, c1: bv8, n: nat)
    requires n <= 256 && |was| == |now| && RowHolds(was, tmp, b0, c1, n)
    requires forall x :: Slot(b0, c1) <= x < Slot(b0, c1) + K1_TABLE_WIDTH ==> now[x] == was[x]
    ensures RowHolds(now, tmp, b0, c1, n)
  {
    hide K1Row, ToInt, Slot;
  }

  lemma RowSkips(table: seq<bv8>, tmp: bv8, b0: bv8, c1: bv8, n: nat)
    requires n < 256 && RowHolds(table, tmp, b0, c1, n) && !K1Fits(tmp, b0, c1, ToByte(n))
    ensures RowHolds(table, tmp, b0, c1, n + 1)
  {
    hide K1Fits, ToByte, ToInt, Slot;
  }

  // The guard of the code that protects the row never fires: the count stays below the width.
  lemma RowHasRoom(table: seq<bv8>, tmp: bv8, b0: bv8, c1: bv8, n: nat)
    requires n < 256 && RowHolds(table, tmp, b0, c1, n) && K1Fits(tmp, b0, c1, ToByte(n))
    ensures ToInt(table[Slot(b0, c1)]) + 1 < K1_TABLE_WIDTH
  {
    hide K1Fits, ToByte, ToInt, Slot;
    K1RowIsShort(tmp, b0, c1, n + 1);
  }

  lemma RowGrows(was: seq<bv8>, now: seq<bv8>, tmp: bv8, b0: bv8, c1: bv8, n: nat, count: int)
    requires n < 256 && |was| == |now| && RowHolds(was, tmp, b0, c1, n) && K1Fits(tmp, b0, c1, ToByte(n))
    requires count == ToInt(was[Slot(b0, c1)]) + 1 && 0 <= count < K1_TABLE_WIDTH
    requires now == was[Slot(b0, c1) + count := ToByte(n)][Slot(b0, c1) := ToByte(count)]
    ensures RowHolds(now, tmp, b0, c1, n + 1)
  {
    hide K1Fits, ToByte, ToInt, Slot;
    IntRoundTrip(count);
    K1RowIsShort(tmp, b0, c1, n + 1);
  }

  // The whole table while k1 == i is entered: rows with b0 below j already have it.
  ghost predicate RowUpToDate(table: seq<bv8>, tmp: bv8, i: nat, j: nat, b0: bv8, c1: bv8)
    requires i < 256 || (i == 256 && j == 0)
  {
    RowHolds(table, tmp, b0, c1, if 0 <= ToInt(b0) < j then i + 1 else i)
  }

  ghost predicate TableHolds(table: seq<bv8>, tmp: bv8, i: nat, j: nat)
    requires i < 256 || (i == 256 && j == 0)
  {
    |table| == K1_TABLE_SIZE * K1_TABLE_WIDTH && forall b0: bv8, c1: bv8 :: RowUpToDate(table, tmp, i, j, b0, c1)
  }

  // The row that k1 belongs to, given b0.
  function RowOf(tmp: bv8, b0: bv8, k1: bv8): bv8 { b0 ^ CssTab1(FirstB1(tmp, k1)) ^ k1 }

  lemma RowOfFits(tmp: bv8, b0: bv8, c1: bv8, k1: bv8)
    ensures K1Fits(tmp, b0, c1, k1) <==> c1 == RowOf(tmp, b0, k1)
  {
    hide CssTab1, FirstB1;
  }

  lemma RowOfTwice(tmp: bv8, b: bv8, k1: bv8)
    ensures RowOf(tmp, RowOf(tmp, b, k1), k1) == b
  {
    hide CssTab1, FirstB1;
    XorPairTwice(b, CssTab1(FirstB1(tmp, k1)), k1);
  }
  lemma XorPairTwice(b: bv8, t: bv8, k: bv8)
    ensures b ^ t ^ k ^ t ^ k == b
  {
  }

  // Entering k1 == i in the row of b0 == j.
  lemma TableSteps(was: seq<bv8>, now: seq<bv8>, tmp: bv8, i: nat, j: nat, b: bv8, c1: bv8, slot: int, count: int)
    requires i < 256 && j < 256 && b == ToByte(j) && c1 == RowOf(tmp, b, ToByte(i))
    requires slot == Slot(b, c1) && 0 <= slot && slot + K1_TABLE_WIDTH <= |was|
    requires count == ToInt(was[slot]) + 1 && 0 <= count < K1_TABLE_WIDTH
    requires now == was[slot + count := ToByte(i)][slot := ToByte(count)]
    requires TableHolds(was, tmp, i, j)
    ensures TableHolds(now, tmp, i, j + 1)
  {
    hide ToByte, ToInt, Slot, RowHolds, RowOf, K1Fits;
    IntRoundTrip(j);
    var next := j + 1;
    forall b0: bv8, c: bv8 ensures RowUpToDate(now, tmp, i, next, b0, c) {
      ByteRoundTrip(b0);
      SlotsDoNotOverlap(b0, c, b, c1);
      assert RowUpToDate(was, tmp, i, j, b0, c);
      RowOfFits(tmp, b0, c, ToByte(i));
      if b0 == b && c == c1 {
        RowGrows(was, now, tmp, b0, c, i, count);
      } else {
        RowIsLocal(was, now, tmp, b0, c, if ToInt(b0) < j then i + 1 else i);
        if b0 == b { RowSkips(now, tmp, b0, c, i); }
      }
    }
  }

  lemma TableColumnDone(table: seq<bv8>, tmp: bv8, i: nat)
    requires i < 256 && TableHolds(table, tmp, i, 256)
    ensures TableHolds(table, tmp, i + 1, 0)
  {
    hide ToInt, RowHolds;
    var next := i + 1;
    forall b0: bv8, c: bv8 ensures RowUpToDate(table, tmp, next, 0, b0, c) {
      ByteRoundTrip(b0);
      assert RowUpToDate(table, tmp, i, 256, b0, c);
    }
  }

  method BuildK1Table(discKey: Key) returns (k1Table: array<bv8>)
    ensures fresh(k1Table) && TableHolds(k1Table[..], Tmp5(discKey), 256, 0)
  {
    hide Slot, TableHolds, RowHolds, CssTab1, FirstB1, Tmp5, ToByte, ToInt;
    k1Table := new bv8[K1_TABLE_SIZE * K1_TABLE_WIDTH](_ => 0);
    var tmp := Tmp5(discKey);
    EmptyTable(k1Table[..], tmp);
    for i := 0 to 256
      invariant TableHolds(k1Table[..], tmp, i, 0)
    {
      var tmp2 := CssTab1(FirstB1(tmp, ToByte(i)));
      for j := 0 to 256
        invariant TableHolds(k1Table[..], tmp, i, j)
      {
        var tmp3 := ToByte(j) ^ tmp2 ^ ToByte(i);
        var slot := Slot(ToByte(j), tmp3);
        RowOfTable(k1Table[..], tmp, i, j, ToByte(j), tmp3);
        var tmp4 := ToInt(k1Table[slot]);
        tmp4 := tmp4 + 1;
        ghost var was := k1Table[..];
        if tmp4 < K1_TABLE_WIDTH {
          k1Table[slot + tmp4] := ToByte(i);
        }
        k1Table[slot] := ToByte(tmp4);
        TableSteps(was, k1Table[..], tmp, i, j, ToByte(j), tmp3, slot, tmp4);
      }
      TableColumnDone(k1Table[..], tmp, i);
    }
  }

  lemma EmptyTable(table: seq<bv8>, tmp: bv8)
    requires |table| == K1_TABLE_SIZE * K1_TABLE_WIDTH && forall x :: 0 <= x < |table| ==> table[x] == 0
    ensures TableHolds(table, tmp, 0, 0)
  {
    hide Slot, ToInt;
    ZeroByte();
    forall b0: bv8, c1: bv8 ensures RowUpToDate(table, tmp, 0, 0, b0, c1) {
      SlotsDoNotOverlap(b0, c1, b0, c1);
    }
  }

  lemma RowOfTable(table: seq<bv8>, tmp: bv8, i: nat, j: nat, b: bv8, c1: bv8)
    requires i < 256 && j < 256 && TableHolds(table, tmp, i, j) && b == ToByte(j) && c1 == RowOf(tmp, b, ToByte(i))
    ensures 0 <= Slot(b, c1) && Slot(b, c1) + K1_TABLE_WIDTH <= |table|
    ensures 0 < ToInt(table[Slot(b, c1)]) + 1 < K1_TABLE_WIDTH
  {
    hide ToByte, ToInt, Slot, RowOf, K1Fits;
    IntRoundTrip(j);
    assert RowUpToDate(table, tmp, i, j, b, c1);
    ByteRoundTrip(table[Slot(b, c1)]);
    RowOfFits(tmp, b, c1, ToByte(i));
    RowHasRoom(table, tmp, b, c1, i);
  }

  // ---------------------------------------------------------------------------------------
  // The big table
  // ---------------------------------------------------------------------------------------

  // Five output bytes of the 25-bit register.
  method OutputsOfSeed(i: bv24) returns (out2: array<bv8>)
    ensures fresh(out2) && out2.Length == 5
    ensures forall j :: 0 <= j < 5 ==> out2[j] == Output(SeedRegister(i), j)
  {
    hide SeedWord, Lfsr25, Feedback, Byte0, Feed0, CssTab4, Reversed, Fed, Shift0;
    var tmp := SeedWord(i as bv32);
    out2 := new bv8[5];
    for j := 0 to 5
      invariant Lfsr25(tmp) == State(SeedRegister(i), j)
      invariant forall m :: 0 <= m < j ==> out2[m] == Output(SeedRegister(i), m)
    {
      var tmp2 := Feedback(tmp);
      Lfsr25Step(tmp, Lfsr25(tmp));
      Lfsr25Feed(tmp, tmp2);
      NextState(SeedRegister(i), j);
      CssTab4IsBitReversal(tmp2);
      tmp := Fed(tmp, tmp2);
      out2[j] := CssTab4(tmp2);
    }
  }

  method BuildBigTable() returns (bigTable: array<bv24>)
    ensures fresh(bigTable) && bigTable.Length == BIG_TABLE_SIZE
    ensures forall s: bv24 :: 0 <= IndexOfSeed(s) < BIG_TABLE_SIZE && bigTable[IndexOfSeed(s)] == s
  {
    hide Output, SeedRegister, ToSeed, SeedNumber, Index;
    bigTable := new bv24[BIG_TABLE_SIZE](_ => 0);
    forall s: bv24 ensures 0 <= IndexOfSeed(s) < BIG_TABLE_SIZE {
      IndexFits(Output(SeedRegister(s), 0), Output(SeedRegister(s), 1), Output(SeedRegister(s), 4));
    }
    forall s: bv24 ensures 0 <= SeedNumber(s) < BIG_TABLE_SIZE { SeedRoundTrip(s); }
    for i := 0 to BIG_TABLE_SIZE
      invariant forall s: bv24 :: 0 <= IndexOfSeed(s) < BIG_TABLE_SIZE
      invariant forall s: bv24 :: SeedNumber(s) < i ==> bigTable[IndexOfSeed(s)] == s
    {
      var out2 := OutputsOfSeed(ToSeed(i));
      // below BIG_TABLE_SIZE: the range check that follows in the code never fails
      var j := Index(out2[0], out2[1], out2[4]);
      assert j == IndexOfSeed(ToSeed(i));
      bigTable[j] := ToSeed(i);
      forall s: bv24 | SeedNumber(s) < i + 1 ensures bigTable[IndexOfSeed(s)] == s {
        SeedRoundTrip(s);
        if IndexOfSeed(s) == j { SeedsDoNotCollide(s, ToSeed(i)); }
      }
    }
  }

  // ---------------------------------------------------------------------------------------
  // Reversing the hash
  // ---------------------------------------------------------------------------------------

  method Investigate(hash: array<bv8>, ckey: array<bv8>) returns (same: bool)
    requires hash.Length == 5 && ckey.Length == 5
    ensures same <==> IsFixedPoint(KeyOf(hash[..]), KeyOf(ckey[..]))
  {
    hide Decrypted;
    var key := new bv8[5];
    DecryptKey(0, ckey, hash, 0, key);
    same := KeyOf(key[..]) == KeyOf(ckey[..]);
  }

  // The five output bytes of the 17-bit register, from the first two bytes of the candidate.
  method OutputsOfStep(c0: bv8, c1: bv8) returns (out1: array<bv8>)
    ensures fresh(out1) && out1.Length == 5
    ensures forall i :: 0 <= i < 5 ==> out1[i] == Output1(Word17(c0, c1), i)
  {
    hide Initial1, Lfsr17, Next1, Next2, Next4, Byte1, Feed1, CssTab4, Reversed, Word17, Shift1;
    var lfsr1a := Initial1(c0);
    var lfsr1b := c1;
    InitialT1IsWord17(c0, c1);
    out1 := new bv8[5];
    for i := 0 to 5
      invariant Lfsr17(lfsr1a, lfsr1b) == State1(Word17(c0, c1), i)
      invariant forall m :: 0 <= m < i ==> out1[m] == Output1(Word17(c0, c1), m)
    {
      Lfsr17Step(lfsr1a, lfsr1b);
      NextState1(Word17(c0, c1), i);
      var tmp := Next4(lfsr1a, lfsr1b);
      CssTab4IsBitReversal(tmp);
      lfsr1b := Next2(lfsr1a);
      lfsr1a := Next1(lfsr1a, tmp);
      out1[i] := CssTab4(tmp);
    }
  }

  // The candidate with the bytes of a seed filled in.
  function WithSeed(c0: bv8, c1: bv8, s: bv24): Key {
    Key(c0, c1, SeedByte2(s as bv32), SeedByte3(s as bv32), SeedByte4(s as bv32))
  }

  // The test of a candidate
  ghost predicate IsHit(hash: Key, c: Key, b0: bv8, k1: bv8) { PassesTest(hash, c, b0, k1) && IsFixedPoint(hash, c) }

  // Fills in the seed that the big table gives, and tests the candidate.
  method TestSeed(discKey: array<bv8>, candidate: array<bv8>, b0: bv8, k1: bv8, tmp4: bv24) returns (hit: bool)
    requires discKey.Length == 5 && candidate.Length == 5 && candidate != discKey
    modifies candidate
    ensures candidate[0] == old(candidate[0]) && candidate[1] == old(candidate[1])
    ensures KeyOf(candidate[..]) == WithSeed(candidate[0], candidate[1], tmp4)
    ensures hit <==> IsHit(KeyOf(discKey[..]), KeyOf(candidate[..]), b0, k1)
  {
    hide SeedByte2, SeedByte3, SeedByte4, K0, B4, K4, B1, B3, K3, B2, K2, C2, IsFixedPoint;
    var hash := KeyOf(discKey[..]);
    var k0 := K0(b0, candidate[0]);
    var b4 := B4(hash, b0, k0);
    var k4 := K4(hash, b4);
    var b1 := B1(hash, k1);
    candidate[2] := SeedByte2(tmp4 as bv32);
    candidate[3] := SeedByte3(tmp4 as bv32);
    candidate[4] := SeedByte4(tmp4 as bv32);
    var b3 := B3(b4, k4, candidate[4]);
    var k3 := K3(hash, b3);
    var b2 := B2(b3, k3, candidate[3]);
    var k2 := K2(hash, b2);
    hit := false;
    if C2(b1, b2, k2) == candidate[2] {
      hit := Investigate(discKey, candidate);
    }
  }

  // The seed that the big table gives for a place: it is the one at that place.
  ghost predicate IsBigTable(table: seq<bv24>) {
    && |table| == BIG_TABLE_SIZE
    && forall s: bv24 :: 0 <= IndexOfSeed(s) < BIG_TABLE_SIZE && table[IndexOfSeed(s)] == s
  }

  lemma TableIsBig(table: seq<bv24>)
    requires IsBigTable(table)
    ensures |table| == BIG_TABLE_SIZE
  {
    hide IndexOfSeed;
  }

  lemma SeedAtPlace(table: seq<bv24>, place: int)
    requires IsBigTable(table) && 0 <= place < BIG_TABLE_SIZE
    ensures IndexOfSeed(table[place]) == place
  {
    hide IndexOfSeed;
    var s := EveryPlaceIsTaken(place);
  }

  lemma SeedOfWithSeed(c0: bv8, c1: bv8, s: bv24)
    ensures SeedOfKey(WithSeed(c0, c1, s)) == s
  {
    hide SeedOfBytes, SeedByte2, SeedByte3, SeedByte4;
    SeedOfSeedBytes(s);
  }
  lemma SeedOfSeedBytes(s: bv24)
    ensures SeedOfBytes(SeedByte2(s as bv32), SeedByte3(s as bv32), SeedByte4(s as bv32)) == s
  {
  }

  // The candidate that a guess leads to
  ghost predicate IsTried(hash: Key, c: Key, b0: bv8, k1: bv8, carry: bv1) {
    IndexOfSeed(SeedOfKey(c)) == Place(hash, c.b0, c.b1, b0, k1, carry)
  }

  // It is a hit exactly for the fixed point, if any, that has this guess.
  lemma TriedIsHit(hash: Key, c: Key, b0: bv8, k1: bv8, carry: bv1)
    requires IsTried(hash, c, b0, k1, carry)
    ensures IsHit(hash, c, b0, k1) <==>
            Guessed(hash, c, c.b0, c.b1, b0, k1) && TrueCarry(c) == carry
  {
    hide IsFixedPoint, PassesTest, TrueB0, TrueK1, TrueCarry, Place, IndexOfSeed, SeedOfKey;
    if IsFixedPoint(hash, c) {
      PlaceIsGuess(hash, c, b0, k1, carry);
      TrueGuessPasses(hash, c);
    }
  }

  lemma TrueGuessPasses(hash: Key, c: Key)
    requires IsFixedPoint(hash, c)
    ensures PassesTest(hash, c, TrueB0(hash, c), TrueK1(c))
  {
    hide IsFixedPoint, PassesTest, TrueB0, TrueK1, K1Fits, K0, K4, B4, Stream;
    FixedPointIsRebuilt(hash, c);
  }

  // No other fixed point has this guess.
  lemma GuessIsTried(hash: Key, c: Key, b0: bv8, k1: bv8, carry: bv1, d: Key)
    requires IsTried(hash, c, b0, k1, carry) && Guessed(hash, d, c.b0, c.b1, b0, k1) && TrueCarry(d) == carry
    ensures d == c
  {
    hide IsFixedPoint, TrueB0, TrueK1, TrueCarry, Place, IndexOfSeed, SeedOfKey;
    PlaceIsGuess(hash, d, b0, k1, carry);
    SeedNamesKey(c, d);
  }

  // No fixed point starts with these bytes and has these first-pass values.
  ghost predicate NoneGuessed(hash: Key, c0: bv8, c1: bv8, b0: bv8, k1: bv8) {
    forall c :: !Guessed(hash, c, c0, c1, b0, k1)
  }

  // The first of those that do
  ghost predicate IsFirstGuessed(hash: Key, c: Key, b0: bv8, k1: bv8) {
    && Guessed(hash, c, c.b0, c.b1, b0, k1)
    && (TrueCarry(c) == 0 || forall d :: Guessed(hash, d, c.b0, c.b1, b0, k1) ==> TrueCarry(d) != 0)
  }

  // The two values of the fifth output are tried one after the other.
  lemma BothCarries(hash: Key, c: Key, c': Key, b0: bv8, k1: bv8)
    requires IsTried(hash, c, b0, k1, 0) && IsTried(hash, c', b0, k1, 1) && c.b0 == c'.b0 && c.b1 == c'.b1
    ensures IsHit(hash, c, b0, k1) ==> IsFirstGuessed(hash, c, b0, k1)
    ensures !IsHit(hash, c, b0, k1) && IsHit(hash, c', b0, k1) ==> IsFirstGuessed(hash, c', b0, k1)
    ensures !IsHit(hash, c, b0, k1) && !IsHit(hash, c', b0, k1) ==> NoneGuessed(hash, c.b0, c.b1, b0, k1)
  {
    hide IsTried, IsHit, Guessed, TrueCarry;
    TriedIsHit(hash, c, b0, k1, 0);
    TriedIsHit(hash, c', b0, k1, 1);
    forall d | Guessed(hash, d, c.b0, c.b1, b0, k1) ensures if TrueCarry(d) == 0 then d == c else d == c' {
      GuessIsOneOfTwo(hash, c, c', b0, k1, d);
    }
  }

  lemma GuessIsOneOfTwo(hash: Key, c: Key, c': Key, b0: bv8, k1: bv8, d: Key)
    requires IsTried(hash, c, b0, k1, 0) && IsTried(hash, c', b0, k1, 1) && c.b0 == c'.b0 && c.b1 == c'.b1
    requires Guessed(hash, d, c.b0, c.b1, b0, k1)
    ensures if TrueCarry(d) == 0 then d == c else d == c'
  {
    hide IsTried, Guessed, TrueCarry;
    BitValues(TrueCarry(d));
    if TrueCarry(d) == 0 {
      GuessIsTried(hash, c, b0, k1, 0, d);
    } else {
      GuessIsTried(hash, c', b0, k1, 1, d);
    }
  }

  // What the code computes is the place of the guess.
  lemma PlaceIsComputed(hash: Key, c0: bv8, c1: bv8, b0: bv8, k1: bv8, q0: bv8, q1: bv8, q4: bv8)
    requires q0 == Output1(Word17(c0, c1), 0) && q1 == Output1(Word17(c0, c1), 1) && q4 == Output1(Word17(c0, c1), 4)
    ensures var k0 := K0(b0, c0);
            var o0, o4 := LowByte(Tmp3(0x100, k0, q0)), LowByte(Tmp3(0x100, K4(hash, B4(hash, b0, k0)), q4));
            var o1 := LowByte(Tmp3(Borrow(Tmp3(0x100, k0, q0)), k1, q1));
            && Place(hash, c0, c1, b0, k1, 0) == Index(o0, o1, o4)
            && Place(hash, c0, c1, b0, k1, 1) == Index(o0, o1, o4 + 0xff)
  {
    hide Output1, Word17, LowByte, Tmp3, Borrow, Difference, High, Add, Index, K0, B4, K4;
    var k0 := K0(b0, c0);
    var k4 := K4(hash, B4(hash, b0, k0));
    FirstDifference(k0, q0);
    BorrowIsCarry(k0, q0);
    SecondOutput(k1, q1, Borrow(Tmp3(0x100, k0, q0)), High(Add(Difference(k0, q0, 0), q0, 0)));
    FirstDifference(k4, q4);
    OneOff(k4, q4);
  }

  // One value of k1: both values of the fifth output are looked up and tested.
  method TryK1(discKey: array<bv8>, candidate: array<bv8>, b0: bv8, k1: bv8, out1: array<bv8>, bigTable: array<bv24>)
    returns (hit: bool)
    requires discKey.Length == 5 && candidate.Length == 5 && candidate != discKey
    requires out1.Length == 5 && out1 != candidate
    requires IsBigTable(bigTable[..])
    requires forall i :: 0 <= i < 5 ==> out1[i] == Output1(Word17(candidate[0], candidate[1]), i)
    modifies candidate
    ensures candidate[0] == old(candidate[0]) && candidate[1] == old(candidate[1])
    ensures hit ==> IsFirstGuessed(KeyOf(discKey[..]), KeyOf(candidate[..]), b0, k1)
    ensures !hit ==> NoneGuessed(KeyOf(discKey[..]), candidate[0], candidate[1], b0, k1)
    ensures !hit ==> IsTried(KeyOf(discKey[..]), KeyOf(candidate[..]), b0, k1, 1)
  {
    hide K0, B4, K4, Tmp3, LowByte, Borrow, Index, IndexOfSeed, Output1, Word17, SeedOfKey, WithSeed, IsHit,
         Guessed, Place, IsBigTable, NoneGuessed, IsFirstGuessed;
    ghost var c0, c1 := candidate[0], candidate[1];
    var hash := KeyOf(discKey[..]);
    var k0 := K0(b0, candidate[0]);
    var k4 := K4(hash, B4(hash, b0, k0));
    var tmp3 := Tmp3(0x100, k0, out1[0]);
    var o0 := LowByte(tmp3);
    tmp3 := Borrow(tmp3);
    tmp3 := Tmp3(tmp3, k1, out1[1]);
    var o1 := LowByte(tmp3);
    tmp3 := Tmp3(0x100, k4, out1[4]);
    var o4 := LowByte(tmp3);
    PlaceIsComputed(hash, c0, c1, b0, k1, out1[0], out1[1], out1[4]);
    IndexFits(o0, o1, o4);
    IndexFits(o0, o1, o4 + 0xff);
    TableIsBig(bigTable[..]);
    ghost var first, second := bigTable[Index(o0, o1, o4)], bigTable[Index(o0, o1, o4 + 0xff)];
    SeedIsTried(bigTable[..], hash, c0, c1, b0, k1, 0, first);
    SeedIsTried(bigTable[..], hash, c0, c1, b0, k1, 1, second);
    BothCarries(hash, WithSeed(c0, c1, first), WithSeed(c0, c1, second), b0, k1);
    hit := TestSeed(discKey, candidate, b0, k1, bigTable[Index(o0, o1, o4)]);
    if !hit {
      o4 := o4 + 0xff;
      hit := TestSeed(discKey, candidate, b0, k1, bigTable[Index(o0, o1, o4)]);
    }
  }

  lemma SeedIsTried(table: seq<bv24>, hash: Key, c0: bv8, c1: bv8, b0: bv8, k1: bv8, carry: bv1, s: bv24)
    requires IsBigTable(table) && 0 <= Place(hash, c0, c1, b0, k1, carry) < BIG_TABLE_SIZE
    requires s == table[Place(hash, c0, c1, b0, k1, carry)]
    ensures IsTried(hash, WithSeed(c0, c1, s), b0, k1, carry)
    ensures WithSeed(c0, c1, s).b0 == c0 && WithSeed(c0, c1, s).b1 == c1
  {
    hide IsBigTable, IndexOfSeed, SeedOfKey, Place, SeedByte2, SeedByte3, SeedByte4;
    SeedAtPlace(table, Place(hash, c0, c1, b0, k1, carry));
    SeedOfWithSeed(c0, c1, s);
  }

  // ---------------------------------------------------------------------------------------
  // One row of the K1 table
  // ---------------------------------------------------------------------------------------

  // The fixed points with these first two bytes that have b0 in the first pass: none, or the first
  ghost predicate HasB0(hash: Key, c: Key, c0: bv8, c1: bv8, b0: bv8) {
    IsFixedPoint(hash, c) && c.b0 == c0 && c.b1 == c1 && TrueB0(hash, c) == b0
  }
  ghost predicate NoneWithB0(hash: Key, c0: bv8, c1: bv8, b0: bv8) {
    forall c: Key :: !HasB0(hash, c, c0, c1, b0)
  }
  ghost predicate IsFirstWithB0(hash: Key, c: Key, b0: bv8) {
    && HasB0(hash, c, c.b0, c.b1, b0)
    && forall d :: HasB0(hash, d, c.b0, c.b1, b0) ==> RankInStart(hash, c) <= RankInStart(hash, d)
  }

  // The entries of a row ascend.
  lemma {:induction false} RowAscends(tmp: bv8, b0: bv8, c1: bv8, n: nat, i: nat, j: nat)
    requires n <= 256 && i < j < |K1Row(tmp, b0, c1, n)|
    ensures ToInt(K1Row(tmp, b0, c1, n)[i]) < ToInt(K1Row(tmp, b0, c1, n)[j])
  {
    hide K1Fits, ToByte, ToInt;
    var row := K1Row(tmp, b0, c1, n - 1);
    if j < |row| {
      RowAscends(tmp, b0, c1, n - 1, i, j);
    } else {
      K1RowEntries(tmp, b0, c1, n - 1, row[i]);
      IntRoundTrip(n - 1);
    }
  }

  // The row has the k1 of every such fixed point.
  lemma RowHasK1(hash: Key, c0: bv8, c1: bv8, b0: bv8, c: Key) returns (m: nat)
    requires HasB0(hash, c, c0, c1, b0)
    ensures m < |K1Row(Tmp5(hash), b0, c1, 256)|
    ensures Guessed(hash, c, c0, c1, b0, K1Row(Tmp5(hash), b0, c1, 256)[m])
  {
    hide IsFixedPoint, TrueB0, TrueK1, K1Fits, K1Row, Tmp5, ToInt, PassesTest, Stream, K0, B4, K4;
    var row := K1Row(Tmp5(hash), b0, c1, 256);
    FixedPointIsRebuilt(hash, c);
    K1RowEntries(Tmp5(hash), b0, c1, 256, TrueK1(c));
    ByteRoundTrip(TrueK1(c));
    m :| 0 <= m < |row| && row[m] == TrueK1(c);
  }

  lemma RowExhausts(hash: Key, c0: bv8, c1: bv8, b0: bv8)
    requires forall m :: 0 <= m < |K1Row(Tmp5(hash), b0, c1, 256)| ==>
               NoneGuessed(hash, c0, c1, b0, K1Row(Tmp5(hash), b0, c1, 256)[m])
    ensures NoneWithB0(hash, c0, c1, b0)
  {
    hide HasB0, K1Row, Tmp5, Guessed;
    forall c: Key ensures !HasB0(hash, c, c0, c1, b0) {
      if HasB0(hash, c, c0, c1, b0) { var m := RowHasK1(hash, c0, c1, b0, c); }
    }
  }

  // The first entry of the row with a hit gives the first of them.
  lemma FirstInRow(hash: Key, c: Key, b0: bv8, e: nat)
    requires e < |K1Row(Tmp5(hash), b0, c.b1, 256)|
    requires forall m :: 0 <= m < e ==> NoneGuessed(hash, c.b0, c.b1, b0, K1Row(Tmp5(hash), b0, c.b1, 256)[m])
    requires IsFirstGuessed(hash, c, b0, K1Row(Tmp5(hash), b0, c.b1, 256)[e])
    ensures IsFirstWithB0(hash, c, b0)
  {
    hide IsFixedPoint, TrueB0, TrueK1, TrueCarry, K1Row, Tmp5, ToInt, NoneGuessed, RankOf;
    var row := K1Row(Tmp5(hash), b0, c.b1, 256);
    forall d | HasB0(hash, d, c.b0, c.b1, b0) ensures RankInStart(hash, c) <= RankInStart(hash, d) {
      var m := RowHasK1(hash, c.b0, c.b1, b0, d);
      assert m >= e by { GuessIsNotNone(hash, d, c.b0, c.b1, b0, row[m]); }
      if m > e { RowAscends(Tmp5(hash), b0, c.b1, 256, e, m); }
      RanksCompare(b0, row[e], TrueCarry(c), row[m], TrueCarry(d));
    }
  }

  lemma GuessIsNotNone(hash: Key, d: Key, c0: bv8, c1: bv8, b0: bv8, k1: bv8)
    requires Guessed(hash, d, c0, c1, b0, k1)
    ensures !NoneGuessed(hash, c0, c1, b0, k1)
  {
    hide Guessed;
  }

  lemma RanksCompare(b0: bv8, k1: bv8, carry: bv1, k1': bv8, carry': bv1)
    requires ToInt(k1) < ToInt(k1') || (k1 == k1' && (carry == 0 || carry' != 0))
    ensures RankOf(b0, k1, carry) <= RankOf(b0, k1', carry')
  {
    hide ToInt;
  }

  // All values of k1 in one row of the K1 table. If none is a hit, the last entry of the row leaves its
  // candidate behind.
  method TryB0(discKey: array<bv8>, candidate: array<bv8>, b0: bv8, out1: array<bv8>, k1Table: array<bv8>,
               bigTable: array<bv24>) returns (hit: bool)
    requires discKey.Length == 5 && candidate.Length == 5 && candidate != discKey
    requires out1.Length == 5 && out1 != candidate && k1Table != candidate
    requires IsBigTable(bigTable[..]) && TableHolds(k1Table[..], Tmp5(KeyOf(discKey[..])), 256, 0)
    requires forall i :: 0 <= i < 5 ==> out1[i] == Output1(Word17(candidate[0], candidate[1]), i)
    modifies candidate
    ensures candidate[0] == old(candidate[0]) && candidate[1] == old(candidate[1])
    ensures hit ==> IsFirstWithB0(KeyOf(discKey[..]), KeyOf(candidate[..]), b0)
    ensures !hit ==> NoneWithB0(KeyOf(discKey[..]), candidate[0], candidate[1], b0)
    ensures !hit ==> IsLeftByRow(KeyOf(discKey[..]), b0, old(KeyOf(candidate[..])), KeyOf(candidate[..]))
  {
    hide IsBigTable, Output1, Word17, IsFixedPoint, NoneGuessed, Tmp5, NoneWithB0, Slot, ToInt, K1Row, IsFirstGuessed,
         IsFirstWithB0, IsTried;
    ghost var hash, was := KeyOf(discKey[..]), KeyOf(candidate[..]);
    ghost var c0, c1 := candidate[0], candidate[1];
    ghost var row := K1Row(Tmp5(hash), b0, c1, 256);
    RowOfDoneTable(k1Table[..], Tmp5(hash), b0, c1);
    var possibleK1 := ToInt(k1Table[Slot(b0, candidate[1])]);
    hit := false;
    var entry := 0;
    while entry < possibleK1 && !hit
      invariant 0 <= entry <= possibleK1 && candidate[0] == c0 && candidate[1] == c1
      invariant hit ==> IsFirstWithB0(hash, KeyOf(candidate[..]), b0)
      invariant !hit ==> forall m :: 0 <= m < entry ==> NoneGuessed(hash, c0, c1, b0, row[m])
      invariant !hit && entry == 0 ==> KeyOf(candidate[..]) == was
      invariant !hit && entry > 0 ==> IsTried(hash, KeyOf(candidate[..]), b0, row[entry - 1], 1)
      decreases possibleK1 - entry, !hit
    {
      var k1 := k1Table[Slot(b0, candidate[1]) + entry + 1];
      assert k1 == row[entry];
      hit := TryK1(discKey, candidate, b0, k1, out1, bigTable);
      if hit { FirstInRow(hash, KeyOf(candidate[..]), b0, entry); }
      entry := entry + 1;
    }
    if !hit { RowExhausts(hash, c0, c1, b0); }
  }

  ghost predicate IsLeftByRow(hash: Key, b0: bv8, was: Key, now: Key) {
    var row := K1Row(Tmp5(hash), b0, was.b1, 256);
    if row == [] then now == was else IsTried(hash, now, b0, row[|row| - 1], 1)
  }

  lemma RowOfDoneTable(table: seq<bv8>, tmp: bv8, b0: bv8, c1: bv8)
    requires TableHolds(table, tmp, 256, 0)
    ensures RowHolds(table, tmp, b0, c1, 256)
  {
    hide RowHolds, ToInt;
    assert RowUpToDate(table, tmp, 256, 0, b0, c1);
  }

  // ---------------------------------------------------------------------------------------
  // One start of the 17-bit register
  // ---------------------------------------------------------------------------------------

  // The fixed points with these first two bytes: none, or the first
  ghost predicate HasStart(hash: Key, c: Key, c0: bv8, c1: bv8) { IsFixedPoint(hash, c) && c.b0 == c0 && c.b1 == c1 }
  ghost predicate NoneWithStart(hash: Key, c0: bv8, c1: bv8) { forall c: Key :: !HasStart(hash, c, c0, c1) }
  ghost predicate IsFirstWithStart(hash: Key, c: Key) {
    && IsFixedPoint(hash, c)
    && forall d :: HasStart(hash, d, c.b0, c.b1) ==> RankInStart(hash, c) <= RankInStart(hash, d)
  }

  lemma B0sExhaust(hash: Key, c0: bv8, c1: bv8)
    requires forall n :: 0 <= n < 256 ==> NoneWithB0(hash, c0, c1, ToByte(n))
    ensures NoneWithStart(hash, c0, c1)
  {
    hide IsFixedPoint, TrueB0, ToByte, ToInt;
    forall c: Key ensures !HasStart(hash, c, c0, c1) {
      ByteRoundTrip(TrueB0(hash, c));
      assert NoneWithB0(hash, c0, c1, ToByte(ToInt(TrueB0(hash, c))));
      assert !HasB0(hash, c, c0, c1, TrueB0(hash, c));
    }
  }

  // The first b0 with a hit gives the first of them.
  lemma FirstB0(hash: Key, c: Key, b: nat)
    requires b < 256 && forall n :: 0 <= n < b ==> NoneWithB0(hash, c.b0, c.b1, ToByte(n))
    requires IsFirstWithB0(hash, c, ToByte(b))
    ensures IsFirstWithStart(hash, c)
  {
    hide IsFixedPoint, TrueB0, TrueK1, TrueCarry, ToByte, ToInt, RankOf;
    forall d | HasStart(hash, d, c.b0, c.b1) ensures RankInStart(hash, c) <= RankInStart(hash, d) {
      var n := ToInt(TrueB0(hash, d));
      ByteRoundTrip(TrueB0(hash, d));
      IntRoundTrip(b);
      assert HasB0(hash, d, c.b0, c.b1, ToByte(n));
      assert n >= b;
      if n > b { RanksDiffer(TrueB0(hash, c), TrueK1(c), TrueCarry(c), TrueB0(hash, d), TrueK1(d), TrueCarry(d)); }
    }
  }

  lemma RanksDiffer(b0: bv8, k1: bv8, carry: bv1, b0': bv8, k1': bv8, carry': bv1)
    requires ToInt(b0) < ToInt(b0')
    ensures RankOf(b0, k1, carry) < RankOf(b0', k1', carry')
  {
    hide ToInt, ToByte;
    ByteRoundTrip(k1);
    ByteRoundTrip(k1');
  }

  // The last guess for a second byte
  ghost predicate IsLastGuess(hash: Key, c1: bv8, n: nat, b0: bv8, k1: bv8) {
    && ToInt(b0) < n && K1Fits(Tmp5(hash), b0, c1, k1)
    && forall b0', k1' :: ToInt(b0') < n && K1Fits(Tmp5(hash), b0', c1, k1') ==>
         ToInt(b0') < ToInt(b0) || (b0' == b0 && ToInt(k1') <= ToInt(k1))
  }

  ghost predicate NoGuess(hash: Key, c1: bv8, n: nat) {
    forall b0, k1 :: ToInt(b0) < n ==> !K1Fits(Tmp5(hash), b0, c1, k1)
  }

  // What a search without a hit leaves behind is the second try of its last guess.
  ghost predicate IsLeft(hash: Key, c: Key, n: nat) {
    exists b0, k1 :: IsLastGuess(hash, c.b1, n, b0, k1) && IsTried(hash, c, b0, k1, 1)
  }

  lemma LastOfRow(hash: Key, c1: bv8, n: nat)
    requires n < 256
    ensures var row := K1Row(Tmp5(hash), ToByte(n), c1, 256);
            row != [] ==> IsLastGuess(hash, c1, n + 1, ToByte(n), row[|row| - 1])
  {
    hide K1Row, K1Fits, Tmp5, ToInt, ToByte;
    var b, row := ToByte(n), K1Row(Tmp5(hash), ToByte(n), c1, 256);
    IntRoundTrip(n);
    if row != [] {
      var last := row[|row| - 1];
      K1RowEntries(Tmp5(hash), b, c1, 256, last);
      forall b0, k1 | ToInt(b0) < n + 1 && K1Fits(Tmp5(hash), b0, c1, k1)
        ensures ToInt(b0) < ToInt(b) || (b0 == b && ToInt(k1) <= ToInt(last))
      {
        ByteRoundTrip(b0);
        if b0 == b {
          K1RowEntries(Tmp5(hash), b, c1, 256, k1);
          ByteRoundTrip(k1);
          var m :| 0 <= m < |row| && row[m] == k1;
          if m < |row| - 1 { RowAscends(Tmp5(hash), b, c1, 256, m, |row| - 1); }
        }
      }
    }
  }

  lemma NothingInRow(hash: Key, c1: bv8, n: nat, b0: bv8, k1: bv8)
    requires n < 256 && K1Row(Tmp5(hash), ToByte(n), c1, 256) == []
    requires ToInt(b0) < n + 1 && K1Fits(Tmp5(hash), b0, c1, k1)
    ensures ToInt(b0) < n
  {
    hide K1Row, K1Fits, Tmp5, ToInt, ToByte;
    K1RowEntries(Tmp5(hash), b0, c1, 256, k1);
    ByteRoundTrip(b0);
    ByteRoundTrip(k1);
  }

  lemma RowLeaves(hash: Key, n: nat, was: Key, now: Key)
    requires n < 256 && was.b0 == now.b0 && was.b1 == now.b1 && IsLeftByRow(hash, ToByte(n), was, now)
    requires NoGuess(hash, was.b1, n) || IsLeft(hash, was, n)
    ensures NoGuess(hash, now.b1, n + 1) || IsLeft(hash, now, n + 1)
  {
    hide K1Row, K1Fits, Tmp5, ToInt, ToByte, IsTried;
    LastOfRow(hash, was.b1, n);
    if K1Row(Tmp5(hash), ToByte(n), was.b1, 256) == [] {
      forall b0, k1 | ToInt(b0) < n + 1 && K1Fits(Tmp5(hash), b0, was.b1, k1) ensures ToInt(b0) < n {
        NothingInRow(hash, was.b1, n, b0, k1);
      }
      if IsLeft(hash, was, n) {
        var b0, k1 :| IsLastGuess(hash, was.b1, n, b0, k1) && IsTried(hash, was, b0, k1, 1);
        assert IsLastGuess(hash, was.b1, n + 1, b0, k1);
      }
    }
  }

  // Every second byte has some guess.
  lemma SomeGuess(hash: Key, c1: bv8)
    ensures !NoGuess(hash, c1, 256)
  {
    hide K1Fits, Tmp5, ToInt, RowOf;
    var b0 := RowOf(Tmp5(hash), c1, 0);
    RowOfTwice(Tmp5(hash), c1, 0);
    ByteRoundTrip(b0);
    RowOfFits(Tmp5(hash), b0, c1, 0);
  }

  // All values of b0.
  method TryStart(discKey: array<bv8>, candidate: array<bv8>, k1Table: array<bv8>,
            bigTable: array<bv24>) returns (hit: bool)
    requires discKey.Length == 5 && candidate.Length == 5 && candidate != discKey && k1Table != candidate
    requires IsBigTable(bigTable[..]) && TableHolds(k1Table[..], Tmp5(KeyOf(discKey[..])), 256, 0)
    modifies candidate
    ensures candidate[0] == old(candidate[0]) && candidate[1] == old(candidate[1])
    ensures hit ==> IsFirstWithStart(KeyOf(discKey[..]), KeyOf(candidate[..]))
    ensures !hit ==> NoneWithStart(KeyOf(discKey[..]), candidate[0], candidate[1])
    ensures !hit ==> IsLeft(KeyOf(discKey[..]), KeyOf(candidate[..]), 256)
  {
    hide IsBigTable, Output1, Word17, IsFixedPoint, Tmp5, TableHolds, ToByte, ToInt, TrueB0, NoneWithB0, IsFirstWithB0,
         IsFirstWithStart, NoneWithStart, IsLeft, NoGuess, IsLeftByRow;
    ghost var hash := KeyOf(discKey[..]);
    ghost var c0, c1 := candidate[0], candidate[1];
    var out1 := OutputsOfStep(candidate[0], candidate[1]);
    hit := false;
    var stepB := 0;
    assert NoGuess(hash, c1, 0) by { NoGuessYet(hash, c1); }
    while stepB < 256 && !hit
      invariant 0 <= stepB <= 256 && candidate[0] == c0 && candidate[1] == c1
      invariant forall i :: 0 <= i < 5 ==> out1[i] == Output1(Word17(candidate[0], candidate[1]), i)
      invariant hit ==> IsFirstWithStart(hash, KeyOf(candidate[..]))
      invariant !hit ==> forall n :: 0 <= n < stepB ==> NoneWithB0(hash, c0, c1, ToByte(n))
      invariant !hit ==> NoGuess(hash, c1, stepB) || IsLeft(hash, KeyOf(candidate[..]), stepB)
      decreases 256 - stepB, !hit
    {
      ghost var was := KeyOf(candidate[..]);
      hit := TryB0(discKey, candidate, ToByte(stepB), out1, k1Table, bigTable);
      if hit {
        FirstB0(hash, KeyOf(candidate[..]), stepB);
      } else {
        RowLeaves(hash, stepB, was, KeyOf(candidate[..]));
      }
      stepB := stepB + 1;
    }
    if !hit {
      B0sExhaust(hash, c0, c1);
      SomeGuess(hash, c1);
    }
  }

  lemma NoGuessYet(hash: Key, c1: bv8)
    ensures NoGuess(hash, c1, 0)
  {
    hide ToInt, ToByte, K1Fits, Tmp5;
    forall b0 ensures ToInt(b0) >= 0 { ByteRoundTrip(b0); }
  }

  // ---------------------------------------------------------------------------------------
  // The whole search
  // ---------------------------------------------------------------------------------------

  // What the crack of a hash must end with, given which of its two tables get memory. With both it
  // returns 0 and leaves the first key of the hash. If the hash has none it leaves the second try of
  // the last guess for the last two first bytes. Without memory it returns -1 and leaves the hash.
  ghost predicate IsCracked(hash: Key, k1Memory: bool, bigMemory: bool, ret: int, left: Key) {
    if k1Memory && bigMemory then
      && ret == 0
      && if exists c :: IsFixedPoint(hash, c) then ComesFirst(hash, left)
         else left.b0 == 0xff && left.b1 == 0xff && IsLeft(hash, left, 256)
    else
      ret == -1 && left == hash
  }

  // What is left is a key exactly if there is any.
  lemma CrackedIsKey(hash: Key, ret: int, left: Key)
    requires IsCracked(hash, true, true, ret, left)
    ensures IsFixedPoint(hash, left) <==> exists c :: IsFixedPoint(hash, c)
  {
    hide IsFixedPoint, Start, RankInStart, IsLeft;
  }

  // The hash alone decides what is left.
  lemma CrackIsDetermined(hash: Key, k1Memory: bool, bigMemory: bool, ret: int, left: Key, ret': int, left': Key)
    requires IsCracked(hash, k1Memory, bigMemory, ret, left) && IsCracked(hash, k1Memory, bigMemory, ret', left')
    ensures ret == ret' && left == left'
  {
    hide IsFixedPoint, IsLeft, ComesFirst;
    if k1Memory && bigMemory {
      if exists c :: IsFixedPoint(hash, c) {
        FirstIsUnique(hash, left, left');
      } else {
        LeftIsUnique(hash, left, left');
      }
    }
  }

  lemma LeftIsUnique(hash: Key, c: Key, d: Key)
    requires IsLeft(hash, c, 256) && IsLeft(hash, d, 256) && c.b0 == d.b0 && c.b1 == d.b1
    ensures c == d
  {
    hide ToInt, K1Fits, Tmp5, Place, IndexOfSeed, SeedOfKey;
    var b0, k1 :| IsLastGuess(hash, c.b1, 256, b0, k1) && IsTried(hash, c, b0, k1, 1);
    var b0', k1' :| IsLastGuess(hash, c.b1, 256, b0', k1') && IsTried(hash, d, b0', k1', 1);
    ByteRoundTrip(k1);
    ByteRoundTrip(k1');
    assert b0 == b0' && k1 == k1';
    SeedNamesKey(c, d);
  }

  // CrackDiscKey. Whether the two allocations succeed is given.
  method CrackDiscKey(discKey: array<bv8>, k1Memory: bool, bigMemory: bool) returns (ret: int)
    requires discKey.Length == 5
    modifies discKey
    ensures IsCracked(old(KeyOf(discKey[..])), k1Memory, bigMemory, ret, KeyOf(discKey[..]))
  {
    hide IsBigTable, IsFixedPoint, Tmp5, TableHolds, ToByte, ToInt, ComesFirst, IsLeft, IsFirstWithStart, NoneWithStart;
    ghost var hash := KeyOf(discKey[..]);
    var candidate := new bv8[5](_ => 0);
    if !k1Memory {
      return -1;
    }
    var k1Table := BuildK1Table(KeyOf(discKey[..]));
    if !bigMemory {
      return -1;
    }
    var bigTable := BuildBigTable();
    assert IsBigTable(bigTable[..]) by { BigTableIsDone(bigTable); }
    var hit := false;
    var stepA := 0;
    while stepA < K1_TABLE_SIZE && !hit
      invariant 0 <= stepA <= K1_TABLE_SIZE && discKey[..] == old(discKey[..])
      invariant fresh(candidate) && fresh(k1Table) && fresh(bigTable) && k1Table != candidate
      invariant IsBigTable(bigTable[..]) && TableHolds(k1Table[..], Tmp5(hash), 256, 0)
      invariant hit ==> ComesFirst(hash, KeyOf(candidate[..]))
      invariant !hit ==> forall n :: 0 <= n < stepA ==> NoneWithStart(hash, ToByte(n / 256), ToByte(n % 256))
      invariant !hit && stepA > 0 ==> candidate[0] == ToByte((stepA - 1) / 256) &&
                                      candidate[1] == ToByte((stepA - 1) % 256) &&
                                      IsLeft(hash, KeyOf(candidate[..]), 256)
      decreases K1_TABLE_SIZE - stepA, !hit
    {
      candidate[0] := ToByte(stepA / 256);
      candidate[1] := ToByte(stepA % 256);
      hit := TryStart(discKey, candidate, k1Table, bigTable);
      if hit { FirstStart(hash, KeyOf(candidate[..]), stepA); }
      stepA := stepA + 1;
    }
    if !hit {
      StartsExhaust(hash);
      LastStart();
    }
    forall i | 0 <= i < 5 { discKey[i] := candidate[i]; }
    assert KeyOf(discKey[..]) == KeyOf(candidate[..]);
    if hit { FirstIsKey(hash, KeyOf(candidate[..])); }
    ret := 0;
  }

  lemma BigTableIsDone(bigTable: array<bv24>)
    requires bigTable.Length == BIG_TABLE_SIZE
    requires forall s: bv24 :: 0 <= IndexOfSeed(s) < BIG_TABLE_SIZE && bigTable[IndexOfSeed(s)] == s
    ensures IsBigTable(bigTable[..])
  {
    hide IndexOfSeed;
  }

  lemma FirstIsKey(hash: Key, c: Key)
    requires ComesFirst(hash, c)
    ensures IsFixedPoint(hash, c)
  {
    hide IsFixedPoint, Start, RankInStart;
  }

  lemma LastStart()
    ensures ToByte((K1_TABLE_SIZE - 1) / 256) == 0xff && ToByte((K1_TABLE_SIZE - 1) % 256) == 0xff
  {
  }

  // The number of the start of a key, as the outer loop counts them
  lemma StartIsCounted(c: Key)
    ensures 0 <= Start(c) < K1_TABLE_SIZE && ToByte(Start(c) / 256) == c.b0 && ToByte(Start(c) % 256) == c.b1
  {
    hide ToInt, ToByte;
    ByteRoundTrip(c.b0);
    ByteRoundTrip(c.b1);
    assert Start(c) / 256 == ToInt(c.b0) && Start(c) % 256 == ToInt(c.b1);
  }

  // The first start with a hit gives the first key of the hash.
  lemma FirstStart(hash: Key, c: Key, n: nat)
    requires n < K1_TABLE_SIZE && c.b0 == ToByte(n / 256) && c.b1 == ToByte(n % 256)
    requires forall m :: 0 <= m < n ==> NoneWithStart(hash, ToByte(m / 256), ToByte(m % 256))
    requires IsFirstWithStart(hash, c)
    ensures ComesFirst(hash, c)
  {
    hide IsFixedPoint, ToByte, ToInt, RankInStart, Start;
    StartIs(c, n);
    forall d | IsFixedPoint(hash, d)
      ensures Start(c) < Start(d) || (Start(c) == Start(d) && RankInStart(hash, c) <= RankInStart(hash, d))
    {
      StartIsCounted(d);
      if Start(d) < n {
        StartIsNotNone(hash, d);
      } else if Start(d) == n {
        assert HasStart(hash, d, c.b0, c.b1);
      }
    }
  }

  lemma StartIsNotNone(hash: Key, d: Key)
    requires IsFixedPoint(hash, d)
    ensures !NoneWithStart(hash, d.b0, d.b1)
  {
    hide IsFixedPoint;
    assert HasStart(hash, d, d.b0, d.b1);
  }

  lemma StartIs(c: Key, n: nat)
    requires n < K1_TABLE_SIZE && c.b0 == ToByte(n / 256) && c.b1 == ToByte(n % 256)
    ensures Start(c) == n
  {
    hide ToInt, ToByte;
    IntRoundTrip(n / 256);
    IntRoundTrip(n % 256);
  }

  lemma StartsExhaust(hash: Key)
    requires forall n :: 0 <= n < K1_TABLE_SIZE ==> NoneWithStart(hash, ToByte(n / 256), ToByte(n % 256))
    ensures forall c :: !IsFixedPoint(hash, c)
  {
    hide IsFixedPoint, ToByte, ToInt, Start;
    forall c: Key ensures !IsFixedPoint(hash, c) {
      StartIsCounted(c);
      assert NoneWithStart(hash, ToByte(Start(c) / 256), ToByte(Start(c) % 256));
      assert !HasStart(hash, c, c.b0, c.b1);
    }
  }
}
