/** CrackTitleKey and AttackPattern (src/css.c): scanning a title for a block whose plain bytes repeat,
    and recovering the key from it. */
module TitleScan {
  import opened CssTables
  import opened Combiner
  import opened Sector
  import opened TitleKeyAttack
  import opened TitleKeySearch

  // ---------------------------------------------------------------------------------------
  // Repeating bytes before the scrambled part
  // ---------------------------------------------------------------------------------------

  // Byte j before the scrambled part, counted backwards from 0
  function Back(b: SectorBytes, j: nat): bv8
    requires j < 0x80
  {
    b[0x7f - j]
  }

  // Where in its cycle byte k stands
  function Phase(k: nat, i: nat): nat
    requires i > 0
  {
    k % i
  }

  predicate IsInCycle(b: SectorBytes, i: nat, k: nat)
    requires 0 < i < 0x80 && k < 0x80
  {
    var at := Phase(k, i);
    PhaseIsSmall(k, i);
    Back(b, at) == Back(b, k)
  }

  lemma PhaseIsSmall(k: nat, i: nat)
    requires i > 0
    ensures Phase(k, i) < i && Phase(k, i) <= k
  {
  }

  // The bytes i + 1 to j repeat those before byte i in cycles of length i.
  ghost predicate Cycles(b: SectorBytes, i: nat, j: nat) {
    2 <= i < 0x30 && i < j < 0x80 && forall k :: i < k <= j ==> IsInCycle(b, i, k)
  }

  // plen is the longest run for any cycle length, and p the least cycle length that has it.
  ghost predicate IsBest(b: SectorBytes, plen: nat, p: nat) {
    if plen == 0 then p == 0 && forall i: nat, j: nat :: !Cycles(b, i, j)
    else Cycles(b, p, plen) && forall i: nat, j: nat :: Cycles(b, i, j) ==> j < plen || (j == plen && p <= i)
  }

  lemma BestIsUnique(b: SectorBytes, plen: nat, p: nat, plen': nat, p': nat)
    requires IsBest(b, plen, p) && IsBest(b, plen', p')
    ensures plen == plen' && p == p'
  {
    hide Cycles;
  }

  // One cycle less leaves the same place in the cycle.
  lemma OneCycleLess(k: nat, i: nat)
    requires 0 < i
    ensures k >= i ==> Phase(k, i) == Phase(k - i, i)
    ensures k < i ==> Phase(k, i) == k
  {
    if k >= i {
      var m: int, n: int := k / i, (k - i) / i;
      var d := m - 1 - n;
      assert d * i + k % i == (k - i) % i;
      if d != 0 {
        MultipleIsLarge(d, i);
      }
    }
  }

  lemma MultipleIsLarge(d: int, i: nat)
    requires d != 0
    ensures d * i >= i || d * i + i <= 0
  {
    if d >= 1 {
      assert (d - 1) * i >= 0;
    } else {
      assert (-d - 1) * i >= 0;
    }
  }

  // The bytes from i to j repeat those a cycle before.
  ghost predicate IsPeriodic(b: SectorBytes, i: nat, j: nat)
    requires 0 < i && j < 0x80
  {
    forall k :: i <= k <= j ==> Back(b, k) == Back(b, k - i)
  }

  // A run is truly periodic exactly if byte i, which the loop skips, fits as well.
  lemma CyclesArePeriodic(b: SectorBytes, i: nat, j: nat)
    requires 0 < i < 0x80 && j < 0x80
    ensures 2 <= i < 0x30 && i < j && IsPeriodic(b, i, j) <==> Cycles(b, i, j) && Back(b, i) == Back(b, 0)
  {
    hide Phase;
    if 2 <= i < 0x30 && i < j && IsPeriodic(b, i, j) {
      forall k | i < k <= j ensures IsInCycle(b, i, k) {
        PeriodicFromStart(b, i, j, k);
      }
      assert Back(b, i) == Back(b, i - i);
    }
    if Cycles(b, i, j) && Back(b, i) == Back(b, 0) {
      forall k | i <= k <= j ensures Back(b, k) == Back(b, k - i) {
        OneCycleLess(k, i);
        OneCycleLess(k - i, i);
        OneCycleLess(0, i);
        assert k > i ==> IsInCycle(b, i, k);
        assert k - i > i ==> IsInCycle(b, i, k - i);
      }
    }
  }

  // It need not fit.
  lemma RunNeedNotBePeriodic() returns (b: SectorBytes)
    ensures Cycles(b, 2, 3) && !IsPeriodic(b, 2, 3)
  {
    b := seq(BLOCK_SIZE, i => if i == 0x7d then 1 else 0);
    assert IsInCycle(b, 2, 3);
    assert Back(b, 2) != Back(b, 2 - 2);
  }

  lemma {:induction false} PeriodicFromStart(b: SectorBytes, i: nat, j: nat, k: nat)
    requires 0 < i && k <= j < 0x80 && i < 0x80 && IsPeriodic(b, i, j)
    ensures IsInCycle(b, i, k)
  {
    hide Phase;
    OneCycleLess(k, i);
    if k >= i {
      PeriodicFromStart(b, i, j, k - i);
      assert Back(b, k) == Back(b, k - i);
    }
  }

  // The two loops of AttackPattern
  method FindPattern(block: SectorBytes) returns (bestLength: nat, bestPeriod: nat)
    ensures IsBest(block, bestLength, bestPeriod)
  {
    bestLength, bestPeriod := 0, 0;
    var i := 2;
    while i < 0x30
      invariant 2 <= i <= 0x30 && IsBestBelow(block, bestLength, bestPeriod, i, i)
    {
      var j := i + 1;
      while j < 0x80 && block[0x7f - j % i] == block[0x7f - j]
        invariant i < j <= 0x80 && (j == i + 1 || Cycles(block, i, j - 1))
        invariant IsBestBelow(block, bestLength, bestPeriod, i, j)
      {
        assert IsInCycle(block, i, j);
        if j > bestLength {
          bestLength := j;
          bestPeriod := i;
        }
        j := j + 1;
      }
      assert j == 0x80 || !IsInCycle(block, i, j);
      i := i + 1;
    }
  }

  // The best among the cycle lengths below i, and cycle length i with runs shorter than j
  ghost predicate IsBestBelow(b: SectorBytes, plen: nat, p: nat, i: nat, j: nat) {
    && (plen == 0 ==> p == 0)
    && (plen > 0 ==> Cycles(b, p, plen) && p <= i)
    && forall n: nat, m: nat :: Cycles(b, n, m) && (n < i || (n == i && m < j)) ==> m < plen || (m == plen && p <= n)
  }

  // ---------------------------------------------------------------------------------------
  // The attack on one block
  // ---------------------------------------------------------------------------------------

  // Long enough, and repeated at least once
  predicate IsPromising(plen: nat, p: nat) { plen > 3 && p > 0 && plen / p >= 2 }

  // The plain bytes that the attack bets on: the whole cycles before the scrambled part, read on
  // as if they went on from their start
  function Guess(b: SectorBytes, plen: nat, p: nat): Text
    requires IsPromising(plen, p) && plen < 0x80
  {
    WholeCycles(plen, p);
    Ten(b, 0x80 - (plen / p) * p)
  }

  lemma WholeCycles(plen: nat, p: nat)
    requires IsPromising(plen, p)
    ensures 0 < (plen / p) * p <= plen
  {
  }

  // What is promising: more than three bytes, and two cycles at least
  lemma PromisingMeans(plen: nat, p: nat)
    ensures IsPromising(plen, p) <==> plen > 3 && 0 < p && 2 * p <= plen
  {
    if p > 0 { QuotientIsTwo(plen, p); }
  }
  lemma QuotientIsTwo(plen: nat, p: nat)
    requires p > 0
    ensures plen / p >= 2 <==> 2 * p <= plen
  {
    if plen / p >= 2 {
      assert (plen / p - 2) * p >= 0;
    } else {
      assert (1 - plen / p) * p >= 0;
    }
  }

  lemma {:induction false} PhaseOfSum(q: nat, p: nat, r: nat)
    requires r < p
    ensures Phase(q * p + r, p) == r
  {
    if q > 0 {
      PhaseOfSum(q - 1, p, r);
      assert q * p + r == (q - 1) * p + r + p;
      OneCycleLess(q * p + r, p);
    }
  }

  lemma ProductIsNatural(d: nat, p: nat)
    ensures d * p >= 0
  {
  }

  // Counted from the start of the whole cycles, byte i stands where byte i % p of a cycle does.
  lemma PlaceInCycle(n: nat, p: nat, i: nat)
    requires p > 0 && i < n * p
    ensures Phase(n * p - 1 - i, p) == p - 1 - i % p
  {
    hide Phase;
    var a, r := i / p, i % p;
    if a >= n { ProductIsNatural(a - n, p); }
    assert n * p - 1 - i == (n - a - 1) * p + (p - 1 - r);
    PhaseOfSum(n - a - 1, p, p - 1 - r);
  }

  // What the guess is: within the whole cycles it goes on as the pattern does, except perhaps at the
  // byte that the loop skips; beyond them it is the scrambled bytes themselves.
  lemma GuessContinues(b: SectorBytes, plen: nat, p: nat, i: nat)
    requires Cycles(b, p, plen) && IsPromising(plen, p) && i < 10
    ensures var whole := plen / p * p;
            && (i < whole && (i + 1 + p != whole || IsPeriodic(b, p, plen)) ==>
                  Guess(b, plen, p)[i] == b[0x80 - p + i % p])
            && (i >= whole ==> Guess(b, plen, p)[i] == b[0x80 + i - whole])
  {
    hide Phase;
    WholeCycles(plen, p);
    var n := plen / p;
    var whole := n * p;
    if i < whole {
      var k := whole - 1 - i;
      PlaceInCycle(n, p, i);
      if k > p {
        assert IsInCycle(b, p, k);
      } else if k == p && IsPeriodic(b, p, plen) {
        OneCycleLess(p, p);
        OneCycleLess(0, p);
        assert Back(b, p) == Back(b, p - p);
      } else if k < p {
        OneCycleLess(k, p);
      }
    }
  }

  // With less than ten bytes in the whole cycles the guess does not go on as the pattern does.
  function ShortBlock(): SectorBytes { seq(BLOCK_SIZE, i => if 0x7b <= i < 0x80 then 0 else 1) }

  lemma ShortRuns(i: nat, j: nat)
    requires 2 <= i < 0x30 && i < j < 0x80
    ensures Cycles(ShortBlock(), i, j) <==> j <= 4
  {
    hide Phase;
    var b := ShortBlock();
    forall k | i < k <= j && k <= 4 ensures IsInCycle(b, i, k) { PhaseIsSmall(k, i); }
    if j > 4 {
      var k := if i < 5 then 5 else i + 1;
      OneCycleLess(k, i);
      OneCycleLess(k - i, i);
      PhaseIsSmall(k, i);
      assert !IsInCycle(b, i, k);
    }
  }

  lemma GuessNeedNotContinue()
    ensures IsBest(ShortBlock(), 4, 2) && IsPromising(4, 2)
    ensures Guess(ShortBlock(), 4, 2)[4] != ShortBlock()[0x80 - 2 + 4 % 2]
  {
    forall i: nat, j: nat | Cycles(ShortBlock(), i, j) ensures j < 4 || (j == 4 && 2 <= i) { ShortRuns(i, j); }
    ShortRuns(2, 4);
  }

  function PadOfBlock(b: SectorBytes, plen: nat, p: nat): Text
    requires IsPromising(plen, p) && plen < 0x80
  {
    PadOf(Ten(b, 0x80), Guess(b, plen, p))
  }

  // The attack on this block gives this key: that of the largest try that is accepted.
  ghost predicate Yields(b: SectorBytes, key: Key) {
    exists plen, p, exit ::
      && IsBest(b, plen, p) && plen < 0x80 && IsPromising(plen, p)
      && 0 < exit <= 0x10000 && IsLargest(PadOfBlock(b, plen, p), 0, 0x10000, exit)
      && key == KeyOfTry(PadOfBlock(b, plen, p), Try(exit - 1)).Xor(SeedOf(b))
  }

  // The attack on this block fails.
  ghost predicate Resists(b: SectorBytes) {
    forall plen, p :: IsBest(b, plen, p) && plen < 0x80 && IsPromising(plen, p) ==>
      IsLargest(PadOfBlock(b, plen, p), 0, 0x10000, -1)
  }

  // AttackPattern. The second result says whether a search was made at all.
  method AttackPattern(block: SectorBytes, keyBytes: array<bv8>) returns (success: bool, tried: bool)
    requires keyBytes.Length == 5
    modifies keyBytes
    ensures success ==> tried && Yields(block, KeyOf(keyBytes[..]))
    ensures !success ==> Resists(block) && KeyOf(keyBytes[..]) == if tried then NO_KEY else old(KeyOf(keyBytes[..]))
  {
    hide IsBest, IsLargest, KeyOfTry, PadOf, Try;
    var bestLength, bestPeriod := FindPattern(block);
    BestIsShort(block, bestLength, bestPeriod);
    OnlyBest(block, bestLength, bestPeriod);
    if bestLength > 3 && bestLength / bestPeriod >= 2 {
      forall i | 0 <= i < 5 { keyBytes[i] := 0; }
      var res := RecoverTitleKey(0, Ten(block, 0x80), Guess(block, bestLength, bestPeriod), SeedOf(block), keyBytes);
      ghost var pad := PadOfBlock(block, bestLength, bestPeriod);
      assert res >= 0 ==>
          IsLargest(pad, 0, 0x10000, res) && KeyOf(keyBytes[..]) == KeyOfTry(pad, Try(res - 1)).Xor(SeedOf(block));
      return res >= 0, true;
    }
    return false, false;
  }

  lemma BestIsShort(b: SectorBytes, plen: nat, p: nat)
    requires IsBest(b, plen, p)
    ensures plen < 0x80 && (plen > 0 ==> p > 0)
  {
  }

  lemma OnlyBest(b: SectorBytes, plen: nat, p: nat)
    requires IsBest(b, plen, p)
    ensures forall plen', p' :: IsBest(b, plen', p') ==> plen' == plen && p' == p
  {
    hide IsBest;
    forall plen', p' | IsBest(b, plen', p') ensures plen' == plen && p' == p {
      BestIsUnique(b, plen, p, plen', p');
    }
  }

  // If some key descrambles the block to the guessed bytes, the attack does not fail.
  lemma NoKeyResists(b: SectorBytes, key: Key, plen: nat, p: nat)
    requires IsScrambled(b) && IsBest(b, plen, p) && plen < 0x80 && IsPromising(plen, p)
    requires Ten(Unscrambled(key, b), 0x80) == Guess(b, plen, p)
    ensures !Resists(b)
  {
    hide IsBest, PadOf, Explains, Accepted, Unscrambled;
    var pad := PadOfBlock(b, plen, p);
    ExplainsIsDescrambling(key, b, Guess(b, plen, p));
    if IsLargest(pad, 0, 0x10000, -1) {
      NoKeyIsMissed(pad, key.Xor(SeedOf(b)), -1);
    }
  }

  // A key that the attack yields descrambles the block to the guessed bytes if and only if it does so
  // for the first one.
  lemma YieldedKeyIsRightExactly(b: SectorBytes, key: Key, plen: nat, p: nat)
    requires IsScrambled(b) && Yields(b, key)
    requires IsBest(b, plen, p) && plen < 0x80 && IsPromising(plen, p)
    ensures Ten(Unscrambled(key, b), 0x80) == Guess(b, plen, p) <==>
            Unscrambled(key, b)[0x80] == Guess(b, plen, p)[0]
  {
    hide IsBest, PadOf, Explains, Accepted, Unscrambled, KeyOfTry, Seeded, At, SeedOf, Guess, IsScrambled, Try,
         Ten, Key.Xor;
    OnlyBest(b, plen, p);
    var exit :| 0 < exit <= 0x10000 && IsLargest(PadOfBlock(b, plen, p), 0, 0x10000, exit)
                && key == KeyOfTry(PadOfBlock(b, plen, p), Try(exit - 1)).Xor(SeedOf(b));
    var guess, k := Guess(b, plen, p), KeyOfTry(PadOfBlock(b, plen, p), Try(exit - 1));
    KeyXorTwice(k, SeedOf(b));
    AcceptedKeyExplains(PadOfBlock(b, plen, p), Try(exit - 1));
    ExplainsIsDescrambling(key, b, guess);
    PlainExactly(key, b, guess, 0);
  }

  // A block with nothing but zeros before its scrambled part, and with the text in it that the search
  // gets wrong. The attack on it yields a key that does not descramble it to the guessed bytes.
  function WitnessBlock(): SectorBytes {
    seq(BLOCK_SIZE, i requires 0 <= i < BLOCK_SIZE =>
      if i == 0x14 then 0x10 else if 0x80 <= i < 0x8a then CssTab1Inverse(WitnessPad()[i - 0x80]) else 0)
  }

  lemma WitnessRuns(i: nat, j: nat)
    requires 2 <= i < 0x30 && i < j < 0x80
    ensures Cycles(WitnessBlock(), i, j) <==> j <= 106
  {
    hide CssTab1Inverse, WitnessPad, Phase;
    var b := WitnessBlock();
    forall k | i < k <= j && k <= 106 ensures IsInCycle(b, i, k) {
      PhaseIsSmall(k, i);
    }
    if j > 106 {
      PhaseIsSmall(107, i);
      assert !IsInCycle(b, i, 107);
    }
  }

  lemma WitnessBest()
    ensures IsBest(WitnessBlock(), 106, 2)
  {
    hide WitnessBlock;
    forall i: nat, j: nat | Cycles(WitnessBlock(), i, j) ensures j < 106 || (j == 106 && 2 <= i) {
      WitnessRuns(i, j);
    }
    WitnessRuns(2, 106);
  }

  lemma WitnessByteOfPad(i: nat)
    requires i < 10
    ensures PadOfBlock(WitnessBlock(), 106, 2)[i] == WitnessPad()[i]
  {
    hide PadByte, WitnessPad, PadOf;
    var b, pad := WitnessBlock(), WitnessPad();
    PadOfByte(Ten(b, 0x80), Guess(b, 106, 2), i);
    assert Ten(b, 0x80)[i] == CssTab1Inverse(pad[i]) && Guess(b, 106, 2)[i] == 0;
    PadOfZero(pad[i]);
  }

  lemma PadOfZero(x: bv8)
    ensures PadByte(CssTab1Inverse(x), 0) == x
  {
    hide CssTab1, CssTab1Inverse;
    CssTab1IsPermutation(x);
    XorZero(x);
  }

  lemma WitnessPadOfBlock()
    ensures PadOfBlock(WitnessBlock(), 106, 2) == WitnessPad()
  {
    hide PadOfBlock, WitnessPad, WitnessBlock;
    forall i | 0 <= i < 10 ensures PadOfBlock(WitnessBlock(), 106, 2)[i] == WitnessPad()[i] {
      WitnessByteOfPad(i);
    }
  }

  lemma WitnessIsScrambled()
    ensures IsScrambled(WitnessBlock())
  {
  }

  // AttackPattern succeeds on this block, and every key it may then hold is wrong.
  lemma AttackIsNotAlwaysSound(key: Key)
    requires Yields(WitnessBlock(), key)
    ensures IsScrambled(WitnessBlock()) && !Resists(WitnessBlock())
    ensures Ten(Unscrambled(key, WitnessBlock()), 0x80) != Guess(WitnessBlock(), 106, 2)
  {
    hide IsBest, PadOf, PadOfBlock, Explains, Accepted, Unscrambled, KeyOfTry, SeedOf, Guess, IsScrambled, Try, Ten,
         Key.Xor, WitnessBlock, WitnessPad;
    var b := WitnessBlock();
    WitnessBest();
    OnlyBest(b, 106, 2);
    WitnessIsScrambled();
    WitnessPadOfBlock();
    var exit :| 0 < exit <= 0x10000 && IsLargest(PadOfBlock(b, 106, 2), 0, 0x10000, exit)
                && key == KeyOfTry(PadOfBlock(b, 106, 2), Try(exit - 1)).Xor(SeedOf(b));
    SearchIsNotAlwaysSound(exit);
    KeyXorTwice(KeyOfTry(WitnessPad(), Try(exit - 1)), SeedOf(b));
    ExplainsIsDescrambling(key, b, Guess(b, 106, 2));
    PadOfBlockIs(b, 106, 2);
  }

  lemma PadOfBlockIs(b: SectorBytes, plen: nat, p: nat)
    requires IsPromising(plen, p) && plen < 0x80
    ensures PadOfBlock(b, plen, p) == PadOf(Ten(b, 0x80), Guess(b, plen, p))
  {
    hide PadOf, Ten, Guess;
  }

  // The attack does succeed on it.
  lemma WitnessYieldsKey() returns (key: Key)
    ensures Yields(WitnessBlock(), key)
  {
    hide IsBest, PadOfBlock, Accepted, KeyOfTry, SeedOf, Try, Key.Xor, WitnessBlock, WitnessPad, TryOf;
    WitnessBest();
    WitnessPadOfBlock();
    AcceptedIsNotAlwaysSound();
    LastTry();
    var pad := PadOfBlock(WitnessBlock(), 106, 2);
    assert IsLargest(pad, 0, 0x10000, 0x10000);
    key := KeyOfTry(pad, Try(0x10000 - 1)).Xor(SeedOf(WitnessBlock()));
  }

  // ---------------------------------------------------------------------------------------
  // The scan
  // ---------------------------------------------------------------------------------------

  // A block of an MPEG stream begins with a start code.
  predicate IsMpeg(b: SectorBytes) { b[0] == 0x00 && b[1] == 0x00 && b[2] == 0x01 }

  // System headers, padding streams and private streams have no scrambling bits.
  predicate IsAttackable(b: SectorBytes) {
    IsScrambled(b) && !(b[0x11] == 0xbb || b[0x11] == 0xbe || b[0x11] == 0xbf)
  }

  // A pack of an MPEG program stream is one, and what begins otherwise is not.
  lemma StartCodesAreMpeg(b: SectorBytes)
    ensures IsMpeg(b) <==> b[..3] == [0x00, 0x00, 0x01]
    ensures b[..4] == [0x00, 0x00, 0x01, 0xba] ==> IsMpeg(b)
  {
    assert b[0] == b[..3][0] && b[1] == b[..3][1] && b[2] == b[..3][2];
    assert b[0] == b[..4][0] && b[1] == b[..4][1] && b[2] == b[..4][2];
  }

  // Every scrambled packet of a video, audio or private stream 1 is attacked, none of the three kinds
  // without scrambling bits, and none that is not scrambled.
  lemma StreamsAreAttackable(b: SectorBytes)
    ensures IsAttackable(b) <==> IsScrambled(b) && b[0x11] !in [0xbb, 0xbe, 0xbf]
    ensures IsScrambled(b) && (b[0x11] & 0xf0 == 0xe0 || b[0x11] & 0xe0 == 0xc0 || b[0x11] == 0xbd) ==> IsAttackable(b)
  {
    hide IsScrambled;
  }

  // A title key found at this block
  ghost predicate Succeeds(b: SectorBytes, key: Key) { IsAttackable(b) && Yields(b, key) }
  // No title key found at this block
  ghost predicate Fails(b: SectorBytes) { !IsAttackable(b) || Resists(b) }

  // A read of one block: the position asked for, the result and the block; or closing and opening again
  datatype Event = DidRead(pos: int, ret: int, block: SectorBytes) | DidReopen

  // The device: seeking and reading give anything. The reads are recorded.
  class Device {
    var asked: int
    var log: seq<Event>

    method Seek(pos: int) returns (ret: int)
      modifies this`asked
      ensures asked == pos
    {
      asked := pos;
      ret := *;
    }

    method ReadBlock() returns (ret: int, b: SectorBytes)
      modifies this`log
      ensures ret <= 1 && log == old(log) + [DidRead(asked, ret, b)]
    {
      ret, b := *, *;
      if ret > 1 {
        ret := 1;
      }
      log := log + [DidRead(asked, ret, b)];
    }

    method Reopen()
      modifies this`log
      ensures log == old(log) + [DidReopen]
    {
      log := log + [DidReopen];
    }
  }

  // Consecutive blocks read from a position on
  function Reads(pos: int, blocks: seq<SectorBytes>): seq<Event> {
    seq(|blocks|, i requires 0 <= i < |blocks| => DidRead(pos + i, 1, blocks[i]))
  }

  // The same with an interruption after the first so many blocks
  function Interrupted(pos: int, blocks: seq<SectorBytes>, at: nat, error: seq<Event>): seq<Event>
    requires at <= |blocks|
  {
    Reads(pos, blocks[..at]) + error + Reads(pos + at, blocks[at..])
  }

  // Nothing, or the one read error that is answered by opening the device again
  predicate IsRecovered(error: seq<Event>, pos: int) {
    error == [] ||
    (|error| == 2 && error[0].DidRead? && error[0].pos == pos && error[0].ret < 0 && error[1] == DidReopen)
  }

  // The read that ends a scan: the end of the device, another error, or a block that is no MPEG
  predicate IsLastRead(e: Event, pos: int, recovered: bool) {
    e.DidRead? && e.pos == pos && (e.ret == 0 || (e.ret < 0 && recovered) || (e.ret == 1 && !IsMpeg(e.block)))
  }

  // What a scan has done: its calls, the blocks among them, the interruption and the place before which
  // it happened, and the read that ended the scan, if any
  datatype Scan = Scan(events: seq<Event>, blocks: seq<SectorBytes>, error: seq<Event>, at: nat, tail: seq<Event>)

  // Consecutive blocks, each read once, at most one interruption, at most one read that ends the scan,
  // and no other call
  ghost predicate IsRecord(scan: Scan, pos: int) {
    && scan.at <= |scan.blocks| && (scan.error == [] ==> scan.at == |scan.blocks|)
    && IsRecovered(scan.error, pos + scan.at)
    && |scan.tail| <= 1 && (forall e :: e in scan.tail ==> IsLastRead(e, pos + |scan.blocks|, scan.error != []))
    && scan.events == Interrupted(pos, scan.blocks, scan.at, scan.error) + scan.tail
  }

  // What a scan has made of its blocks: all of them are MPEG, and the attack fails on every one, except
  // that a successful scan ends with the block that gives the key
  ghost predicate IsOutcome(blocks: seq<SectorBytes>, success: bool, key: Key) {
    && AllMpeg(blocks)
    && if success then |blocks| > 0 && AllFail(blocks[..|blocks| - 1]) && Succeeds(blocks[|blocks| - 1], key)
       else AllFail(blocks)
  }

  // A scan never passes a block that some key descrambles to its guess: it ends there, with success.
  lemma ScanMissesNothing(blocks: seq<SectorBytes>, success: bool, found: Key, j: nat, key: Key, plen: nat, p: nat)
    requires IsOutcome(blocks, success, found) && j < |blocks| && IsAttackable(blocks[j])
    requires IsBest(blocks[j], plen, p) && plen < 0x80 && IsPromising(plen, p)
    requires Ten(Unscrambled(key, blocks[j]), 0x80) == Guess(blocks[j], plen, p)
    ensures success && j == |blocks| - 1
  {
    hide IsBest, Unscrambled, Guess, Resists, Yields, IsMpeg, IsScrambled;
    assert j < |blocks| - 1 ==> blocks[..|blocks| - 1][j] == blocks[j];
    NoKeyResists(blocks[j], key, plen, p);
  }

  // And a scan with success ends with an MPEG block that is scrambled and yields the key.
  lemma ScanFindsKey(blocks: seq<SectorBytes>, key: Key)
    requires IsOutcome(blocks, true, key)
    ensures |blocks| > 0 && forall i :: 0 <= i < |blocks| ==> IsMpeg(blocks[i])
    ensures IsScrambled(blocks[|blocks| - 1]) && Yields(blocks[|blocks| - 1], key)
  {
    hide Fails, Yields, IsMpeg, IsScrambled;
  }

  // Every call of a scan is a block read with success, the one interruption, or the read that ended it.
  lemma EveryCallIsKnown(scan: Scan, pos: int, e: Event)
    requires IsRecord(scan, pos) && e in scan.events
    ensures (exists i :: 0 <= i < |scan.blocks| && e == DidRead(pos + i, 1, scan.blocks[i]))
         || e == DidReopen
         || (e.DidRead? && e.ret < 0 && e.pos == pos + scan.at)
         || (e.DidRead? && e.pos == pos + |scan.blocks| && e in scan.tail && e.ret <= 1 &&
             (e.ret == 1 ==> !IsMpeg(e.block)))
  {
    hide IsMpeg;
    var before, after := Reads(pos, scan.blocks[..scan.at]), Reads(pos + scan.at, scan.blocks[scan.at..]);
    if e in before {
      var i :| 0 <= i < |before| && before[i] == e;
      assert e == DidRead(pos + i, 1, scan.blocks[i]);
    } else if e in after {
      var i :| 0 <= i < |after| && after[i] == e;
      assert e == DidRead(pos + scan.at + i, 1, scan.blocks[scan.at + i]);
    } else if e in scan.error {
      assert e == scan.error[0] || e == scan.error[1];
    }
  }

  // A scan does not go on after 2000 blocks of which none could be attacked.
  ghost predicate GivesUpInTime(blocks: seq<SectorBytes>) {
    |blocks| > GIVE_UP ==> SomeAttackable(blocks[..GIVE_UP])
  }

  const GIVE_UP := 2000

  ghost predicate AllMpeg(blocks: seq<SectorBytes>) { forall i :: 0 <= i < |blocks| ==> IsMpeg(blocks[i]) }
  ghost predicate AllFail(blocks: seq<SectorBytes>) { forall i :: 0 <= i < |blocks| ==> Fails(blocks[i]) }
  ghost predicate SomeAttackable(blocks: seq<SectorBytes>) { exists i :: 0 <= i < |blocks| && IsAttackable(blocks[i]) }

  lemma NoBlocks(pos: int, key: Key)
    ensures IsRecord(Scan([], [], [], 0, []), pos) && IsOutcome([], false, key)
    ensures GivesUpInTime([]) && !SomeAttackable([]) && GIVE_UP > 0
  {
  }

  lemma OneMoreBlock(blocks: seq<SectorBytes>, b: SectorBytes)
    requires IsMpeg(b) && (|blocks| >= GIVE_UP ==> SomeAttackable(blocks)) && GivesUpInTime(blocks)
    ensures SomeAttackable(blocks + [b]) <==> SomeAttackable(blocks) || IsAttackable(b)
    ensures GivesUpInTime(blocks + [b])
  {
    hide IsAttackable, IsMpeg;
    var more := blocks + [b];
    assert more[|blocks|] == b;
    if i :| 0 <= i < |blocks| && IsAttackable(blocks[i]) {
      assert IsAttackable(more[i]);
    }
    assert |blocks| > GIVE_UP ==> more[..GIVE_UP] == blocks[..GIVE_UP];
    assert |blocks| == GIVE_UP ==> more[..GIVE_UP] == blocks;
  }

  lemma OneMoreOutcome(blocks: seq<SectorBytes>, b: SectorBytes, success: bool, before: Key, key: Key)
    requires IsOutcome(blocks, false, before) && IsMpeg(b) && if success then Succeeds(b, key) else Fails(b)
    ensures IsOutcome(blocks + [b], success, key)
  {
    hide IsMpeg, Fails, Succeeds;
    assert (blocks + [b])[..|blocks|] == blocks;
  }

  // Without a success the key does not matter.
  lemma OutcomeOfFailure(blocks: seq<SectorBytes>, before: Key, key: Key)
    requires IsOutcome(blocks, false, before)
    ensures IsOutcome(blocks, false, key)
  {
  }

  lemma ScanEndsAfter2000(blocks: seq<SectorBytes>)
    requires GivesUpInTime(blocks) && |blocks| >= 2000 && forall i :: 0 <= i < 2000 ==> !IsAttackable(blocks[i])
    ensures |blocks| == 2000
  {
    hide IsAttackable;
  }

  // The block is read after the interruption, or there was none and it is the last one before.
  lemma OneMoreEvent(pos: int, blocks: seq<SectorBytes>, at: nat, error: seq<Event>, b: SectorBytes)
    requires at <= |blocks| && (error == [] ==> at == |blocks|)
    ensures Interrupted(pos, blocks + [b], if error == [] then at + 1 else at, error)
         == Interrupted(pos, blocks, at, error) + [DidRead(pos + |blocks|, 1, b)]
  {
    var more := blocks + [b];
    assert Reads(pos, more) == Reads(pos, blocks) + [DidRead(pos + |blocks|, 1, b)];
    if error == [] {
      assert more[..at + 1] == more && more[at + 1..] == [] && blocks[..at] == blocks && blocks[at..] == [];
    } else {
      assert more[..at] == blocks[..at] && more[at..] == blocks[at..] + [b];
      assert Reads(pos + at, more[at..]) == Reads(pos + at, blocks[at..]) + [DidRead(pos + |blocks|, 1, b)];
    }
  }

  lemma OneMoreRead(scan: Scan, pos: int, b: SectorBytes) returns (next: Scan)
    requires IsRecord(scan, pos) && scan.tail == []
    ensures IsRecord(next, pos) && next.tail == [] && next.error == scan.error && next.blocks == scan.blocks + [b]
    ensures next.events == scan.events + [DidRead(pos + |scan.blocks|, 1, b)]
  {
    hide IsRecovered, Interrupted;
    OneMoreEvent(pos, scan.blocks, scan.at, scan.error, b);
    NoError(pos + scan.at + 1);
    next := Scan(scan.events + [DidRead(pos + |scan.blocks|, 1, b)], scan.blocks + [b], scan.error,
      if scan.error == [] then scan.at + 1 else scan.at, []);
  }

  lemma NoError(pos: int)
    ensures IsRecovered([], pos)
  {
  }

  lemma Recovers(scan: Scan, pos: int, ret: int, b: SectorBytes) returns (next: Scan)
    requires IsRecord(scan, pos) && scan.tail == [] && scan.error == [] && ret < 0
    ensures IsRecord(next, pos) && next.tail == [] && next.error != [] && next.blocks == scan.blocks
    ensures next.events == scan.events + [DidRead(pos + |scan.blocks|, ret, b)] + [DidReopen]
  {
    var blocks := scan.blocks;
    assert blocks[..|blocks|] == blocks && blocks[|blocks|..] == [];
    var error := [DidRead(pos + |blocks|, ret, b)] + [DidReopen];
    next := Scan(scan.events + error, blocks, error, scan.at, []);
  }

  lemma LastRead(scan: Scan, pos: int, ret: int, b: SectorBytes) returns (next: Scan)
    requires IsRecord(scan, pos) && scan.tail == []
    requires ret == 0 || (ret < 0 && scan.error != []) || (ret == 1 && !IsMpeg(b))
    ensures IsRecord(next, pos) && next.tail != [] && next.error == scan.error && next.blocks == scan.blocks
    ensures next.events == scan.events + [DidRead(pos + |scan.blocks|, ret, b)]
  {
    hide Interrupted, IsMpeg;
    var e := DidRead(pos + |scan.blocks|, ret, b);
    next := scan.(events := scan.events + [e], tail := [e]);
  }

  // The part of the loop that looks for scrambling bits and attacks the block
  method ScanBlock(block: SectorBytes, titleKey: array<bv8>) returns (encrypted: bool, success: bool)
    requires titleKey.Length == 5
    modifies titleKey
    ensures encrypted == IsAttackable(block)
    ensures success ==> encrypted && Succeeds(block, KeyOf(titleKey[..]))
    ensures !success ==> Fails(block)
  {
    hide Yields, Resists;
    encrypted, success := false, false;
    if block[0x14] & 0x30 != 0 && !(block[0x11] == 0xbb || block[0x11] == 0xbe || block[0x11] == 0xbf) {
      encrypted := true;
      var tried;
      success, tried := AttackPattern(block, titleKey);
    }
  }

  method Clear(titleKey: array<bv8>)
    requires titleKey.Length == 5
    modifies titleKey
    ensures KeyOf(titleKey[..]) == NO_KEY
  {
    forall i | 0 <= i < 5 { titleKey[i] := 0; }
  }

  // CrackTitleKey. It reads consecutive blocks, each once, and after the first read error it opens the
  // device again and goes on at the same place. It stops after a success, at a block that is no MPEG,
  // when a read fails for good, when len blocks are read, and after 2000 blocks of which none could be
  // attacked. The result is 1 exactly after a success, with the key of the last block. Otherwise the key
  // is zero, and the result is 0 if there was nothing to attack in at least one block and -1 if there
  // was, or if no block could be read.
  method CrackTitleKey(device: Device, pos: int, len: int, titleKey: array<bv8>) returns (ret: int, ghost scan: Scan)
    requires titleKey.Length == 5
    modifies device, titleKey
    ensures device.log == old(device.log) + scan.events && IsRecord(scan, pos) && scan.events != []
    ensures |scan.blocks| <= (if len > 0 then len else 1) && GivesUpInTime(scan.blocks)
    ensures ret == 1 || scan.tail != [] || |scan.blocks| >= len ||
            (|scan.blocks| == GIVE_UP && !SomeAttackable(scan.blocks))
    ensures IsOutcome(scan.blocks, ret == 1, KeyOf(titleKey[..]))
    ensures ret != 1 ==> KeyOf(titleKey[..]) == NO_KEY
    ensures ret == 0 <==> ret != 1 && |scan.blocks| > 0 && !SomeAttackable(scan.blocks)
    ensures ret == 1 || ret == 0 || ret == -1
  {
    hide *;
    NoBlocks(pos, KeyOf(titleKey[..]));
    var position, left := pos, len;
    var readCount, encryptedCount, successCount := 0, 0, 0;
    var stopScanning, readError := false, false;
    var again := true;
    scan := Scan([], [], [], 0, []);
    while again
      invariant |scan.blocks| == readCount && position == pos + readCount && left == len - readCount
      invariant again ==> !stopScanning && (readCount == 0 || left > 0) && scan.tail == []
      invariant left >= 0 || readCount <= 1
      invariant (readError <==> scan.error != []) && (again || scan.events != [])
      invariant device.log == old(device.log) + scan.events && IsRecord(scan, pos)
      invariant successCount == (if stopScanning then 1 else 0)
      invariant stopScanning ==> SomeAttackable(scan.blocks)
      invariant IsOutcome(scan.blocks, stopScanning, KeyOf(titleKey[..])) && GivesUpInTime(scan.blocks)
      invariant encryptedCount > 0 <==> SomeAttackable(scan.blocks)
      invariant again && readCount >= GIVE_UP ==> encryptedCount > 0
      invariant again || stopScanning || scan.tail != [] || left <= 0 || (readCount == GIVE_UP && encryptedCount == 0)
      decreases again, left, !readError
    {
      var status := device.Seek(position);
      var block;
      status, block := device.ReadBlock();
      if status <= 0 {
        if status < 0 && !readError {
          scan := Recovers(scan, pos, status, block);
          device.Reopen();
          readError := true;
          again := left > 0;
          continue;
        }
        scan := LastRead(scan, pos, status, block);
        again := false;
        break;
      }
      if !IsMpeg(block) {
        scan := LastRead(scan, pos, status, block);
        again := false;
        break;
      }
      ghost var before := KeyOf(titleKey[..]);
      var encrypted, success := ScanBlock(block, titleKey);
      if encrypted {
        encryptedCount := encryptedCount + 1;
      }
      if success {
        successCount := successCount + 1;
        stopScanning := true;
      }
      OneMoreBlock(scan.blocks, block);
      OneMoreOutcome(scan.blocks, block, success, before, KeyOf(titleKey[..]));
      scan := OneMoreRead(scan, pos, block);
      position := position + 1;
      left := left - 1;
      readCount := readCount + 1;
      again := !stopScanning && left > 0;
      if readCount >= GIVE_UP && encryptedCount == 0 {
        again := false;
        break;
      }
    }
    if successCount > 0 {
      return 1, scan;
    }
    OutcomeOfFailure(scan.blocks, KeyOf(titleKey[..]), NO_KEY);
    Clear(titleKey);
    ret := if encryptedCount == 0 && readCount > 0 then 0 else -1;
  }
}
