/** The mathematics behind CrackDiscKey (src/css.c): what a disc key hash is, why five output bytes
    of the 25-bit register at positions 1, 2 and 5 name its seed, and how the two mangling passes
    are run backwards from a guess. */
module DiscKeyAttack {
  import opened CssTables
  import opened Combiner
  import opened Sector
  import opened Mangling

  // investigate: the candidate decrypts the hash to itself.
  predicate IsFixedPoint(hash: Key, c: Key) { Decrypted(0, c, hash) == c }

  // ---------------------------------------------------------------------------------------
  // Three output bytes determine the seed of the 25-bit register
  // ---------------------------------------------------------------------------------------

  // The register before output byte n, and that byte.
  function State(r: bv25, n: nat): bv25 { Shifted0(r, 8 * n) }
  function Output(r: bv25, n: nat): bv8 { Reversed(Byte0(State(r, n))) }

  lemma NextState(r: bv25, n: nat)
    ensures State(r, n + 1) == Feed0(State(r, n), Byte0(State(r, n)))
  {
    hide Shift0, Byte0, Feed0;
    EightShifts0(State(r, n));
    ShiftsCompose(r, 0, 8 * n, 8);
  }

  // The register is linear: everything about the difference of two runs is the run of their difference.
  function Xor25(r: bv25, q: bv25): bv25 { r ^ q }
  function Xor8(a: bv8, b: bv8): bv8 { a ^ b }

  lemma Slice5OfXor(r: bv25, q: bv25)
    ensures ((Xor25(r, q) >> 5) & 0xff) as bv8 == Xor8(((r >> 5) & 0xff) as bv8, ((q >> 5) & 0xff) as bv8)
  {
  }
  lemma Slice13OfXor(r: bv25, q: bv25)
    ensures ((Xor25(r, q) >> 13) & 0xff) as bv8 == Xor8(((r >> 13) & 0xff) as bv8, ((q >> 13) & 0xff) as bv8)
  {
  }
  lemma Slice14OfXor(r: bv25, q: bv25)
    ensures ((Xor25(r, q) >> 14) & 0xff) as bv8 == Xor8(((r >> 14) & 0xff) as bv8, ((q >> 14) & 0xff) as bv8)
  {
  }
  lemma Slice17OfXor(r: bv25, q: bv25)
    ensures ((Xor25(r, q) >> 17) & 0xff) as bv8 == Xor8(((r >> 17) & 0xff) as bv8, ((q >> 17) & 0xff) as bv8)
  {
  }

  lemma Xor8IsCommutative(a: bv8, b: bv8)
    ensures Xor8(a, b) == Xor8(b, a)
  {
  }

  lemma Xor8IsAssociative(a: bv8, b: bv8, c: bv8)
    ensures Xor8(Xor8(a, b), c) == Xor8(a, Xor8(b, c))
  {
  }

  lemma Xor8IsMedial(a: bv8, b: bv8, c: bv8, d: bv8)
    ensures Xor8(Xor8(a, b), Xor8(c, d)) == Xor8(Xor8(a, c), Xor8(b, d))
  {
    hide Xor8;
    Xor8IsAssociative(a, b, Xor8(c, d));
    Xor8IsAssociative(b, c, d);
    Xor8IsCommutative(b, c);
    Xor8IsAssociative(c, b, d);
    Xor8IsAssociative(a, c, Xor8(b, d));
  }

  lemma Xor4IsXor8(a: bv8, b: bv8, c: bv8, d: bv8)
    ensures Xor4(a, b, c, d) == Xor8(Xor8(Xor8(a, b), c), d)
  {
  }

  lemma Xor4OfXor(a: bv8, b: bv8, c: bv8, d: bv8, a': bv8, b': bv8, c': bv8, d': bv8)
    ensures Xor4(Xor8(a, a'), Xor8(b, b'), Xor8(c, c'), Xor8(d, d')) == Xor8(Xor4(a, b, c, d), Xor4(a', b', c', d'))
  {
    hide Xor4, Xor8;
    Xor4IsXor8(Xor8(a, a'), Xor8(b, b'), Xor8(c, c'), Xor8(d, d'));
    Xor4IsXor8(a, b, c, d);
    Xor4IsXor8(a', b', c', d');
    Xor8IsMedial(a, a', b, b');
    Xor8IsMedial(Xor8(a, b), Xor8(a', b'), c, c');
    Xor8IsMedial(Xor8(Xor8(a, b), c), Xor8(Xor8(a', b'), c'), d, d');
  }

  lemma Byte0IsLinear(r: bv25, q: bv25, d: bv25)
    requires d == Xor25(r, q)
    ensures Byte0(d) == Xor8(Byte0(r), Byte0(q))
  {
    hide Byte0, Xor25, Xor8, Xor4;
    Byte0Unnests(r);
    Byte0Unnests(q);
    Byte0Unnests(d);
    Slice5OfXor(r, q);
    Slice13OfXor(r, q);
    Slice14OfXor(r, q);
    Slice17OfXor(r, q);
    Xor4OfXor(((r >> 5) & 0xff) as bv8, ((r >> 13) & 0xff) as bv8, ((r >> 14) & 0xff) as bv8, ((r >> 17) & 0xff) as bv8,
              ((q >> 5) & 0xff) as bv8, ((q >> 13) & 0xff) as bv8, ((q >> 14) & 0xff) as bv8,
                        ((q >> 17) & 0xff) as bv8);
  }

  lemma Feed0IsLinear(r: bv25, q: bv25, a: bv8, b: bv8)
    ensures Feed0(Xor25(r, q), Xor8(a, b)) == Xor25(Feed0(r, a), Feed0(q, b))
  {
    Feed0OfXor(r, q, a, b);
  }

  lemma Feed0OfXor(r: bv25, q: bv25, a: bv8, b: bv8)
    ensures ((r ^ q) << 8) | ((a ^ b) as bv25) == ((r << 8) | (a as bv25)) ^ ((q << 8) | (b as bv25))
  {
  }

  lemma XorSelf(a: bv8)
    ensures Xor8(a, a) == 0
  {
  }

  // The only state whose output bytes 1, 2 and 5 are zero, and whose seed bit is zero, is zero.
  lemma KernelIsTrivial(d0: bv25, d1: bv25, d2: bv25, d3: bv25, d4: bv25)
    requires d0 & 8 == 0 && Byte0(d0) == 0
    requires d1 == Feed0(d0, 0) && Byte0(d1) == 0
    requires d2 == Feed0(d1, 0) && d3 == Feed0(d2, Byte0(d2))
    requires d4 == Feed0(d3, Byte0(d3)) && Byte0(d4) == 0
    ensures d0 == 0
  {
  }

  lemma SameSeedBit(r: bv25, q: bv25, d: bv25)
    requires r & 8 == q & 8 && d == Xor25(r, q)
    ensures d & 8 == 0
  {
  }

  lemma XorIsZero(r: bv25, q: bv25)
    requires Xor25(r, q) == 0
    ensures r == q
  {
  }

  lemma ReversedIsInjective(x: bv8, y: bv8)
    requires Reversed(x) == Reversed(y)
    ensures x == y
  {
    hide Reversed;
    CssTab4IsBitReversal(x);
    CssTab4IsBitReversal(y);
  }

  lemma {:induction false} StatesAreLinear(r: bv25, q: bv25, d: bv25, n: nat)
    requires d == Xor25(r, q)
    ensures State(d, n) == Xor25(State(r, n), State(q, n))
  {
    hide Byte0, Feed0, Xor25, Xor8, Shift0;
    if n > 0 {
      StatesAreLinear(r, q, d, n - 1);
      NextState(r, n - 1);
      NextState(q, n - 1);
      NextState(d, n - 1);
      var r1, q1, d1 := State(r, n - 1), State(q, n - 1), State(d, n - 1);
      Byte0IsLinear(r1, q1, d1);
      Feed0IsLinear(r1, q1, Byte0(r1), Byte0(q1));
    }
  }

  lemma EqualOutputsCancel(r: bv25, q: bv25, d: bv25, n: nat)
    requires d == Xor25(r, q) && Output(r, n) == Output(q, n)
    ensures Byte0(State(d, n)) == 0
  {
    hide Byte0, Feed0, Reversed, Xor25, Xor8, State;
    StatesAreLinear(r, q, d, n);
    ReversedIsInjective(Byte0(State(r, n)), Byte0(State(q, n)));
    Byte0IsLinear(State(r, n), State(q, n), State(d, n));
    XorSelf(Byte0(State(r, n)));
  }

  // Output bytes 1, 2 and 5 are the index of the big table of the C code: no two seeds share one.
  lemma OutputsNameTheSeed(r: bv25, q: bv25)
    requires r & 8 == q & 8
    requires Output(r, 0) == Output(q, 0) && Output(r, 1) == Output(q, 1) && Output(r, 4) == Output(q, 4)
    ensures r == q
  {
    hide Output, Xor25;
    var d := Xor25(r, q);
    SameSeedBit(r, q, d);
    EqualOutputsCancel(r, q, d, 0);
    EqualOutputsCancel(r, q, d, 1);
    EqualOutputsCancel(r, q, d, 4);
    DifferenceVanishes(d);
    XorIsZero(r, q);
  }

  lemma DifferenceVanishes(d: bv25)
    requires d & 8 == 0 && Byte0(State(d, 0)) == 0 && Byte0(State(d, 1)) == 0 && Byte0(State(d, 4)) == 0
    ensures d == 0
  {
    hide Byte0, Feed0, Shift0;
    NextState(d, 0);
    NextState(d, 1);
    NextState(d, 2);
    NextState(d, 3);
    KernelIsTrivial(d, State(d, 1), State(d, 2), State(d, 3), State(d, 4));
  }

  // ---------------------------------------------------------------------------------------
  // The key stream of a candidate, taken apart
  // ---------------------------------------------------------------------------------------

  // The same for the 17-bit register.
  function State1(r: bv17, n: nat): bv17 { Shifted1(r, 8 * n) }
  function Output1(r: bv17, n: nat): bv8 { Reversed(Byte1(State1(r, n))) }

  lemma NextState1(r: bv17, n: nat)
    ensures State1(r, n + 1) == Feed1(State1(r, n), Byte1(State1(r, n)))
  {
    hide Shift1, Byte1, Feed1;
    EightShifts1(State1(r, n));
    ShiftsCompose(0, r, 8 * n, 8);
  }

  // The carry into byte n.
  function CarryInto(g: Gen, n: nat): bv1 { Run(g, 0, 0, n).carry }

  lemma StreamByte(g: Gen, n: nat)
    ensures At(g, 0, 0, n) == Low(Add(Output(g.r0, n), Output1(g.r1, n), CarryInto(g, n)))
    ensures CarryInto(g, n + 1) == High(Add(Output(g.r0, n), Output1(g.r1, n), CarryInto(g, n)))
  {
    hide Byte0, Byte1, Reversed, Add, Low, High, Shifted0, Shifted1, Feed0, Feed1;
    RunShiftsRegisters(g, 0, 0, n);
    TotalIsMaskedAdd(Run(g, 0, 0, n), Output(g.r0, n), Output(g.r0, n), Output1(g.r1, n), 0);
  }

  // ---------------------------------------------------------------------------------------
  // The mangling passes, run backwards from a guess
  // ---------------------------------------------------------------------------------------

  // From the guessed bytes of the candidate (c), of the first pass (b) and of the stream (k), the rest
  // follow in this order.
  function K0(b0: bv8, c0: bv8): bv8 { CssTab1(b0) ^ c0 }
  function B4(hash: Key, b0: bv8, k0: bv8): bv8 { b0 ^ k0 ^ CssTab1(hash.b0) }
  function K4(hash: Key, b4: bv8): bv8 { b4 ^ (hash.b3 ^ CssTab1(hash.b4)) }
  function Tmp5(hash: Key): bv8 { hash.b0 ^ CssTab1(hash.b1) }
  function FirstB1(tmp: bv8, k1: bv8): bv8 { tmp ^ k1 }
  function B1(hash: Key, k1: bv8): bv8 { FirstB1(Tmp5(hash), k1) }
  function B3(b4: bv8, k4: bv8, c4: bv8): bv8 { CssTab1(b4) ^ k4 ^ c4 }
  function K3(hash: Key, b3: bv8): bv8 { hash.b2 ^ CssTab1(hash.b3) ^ b3 }
  function B2(b3: bv8, k3: bv8, c3: bv8): bv8 { CssTab1(b3) ^ k3 ^ c3 }
  function K2(hash: Key, b2: bv8): bv8 { hash.b1 ^ CssTab1(hash.b2) ^ b2 }
  function C2(b1: bv8, b2: bv8, k2: bv8): bv8 { b1 ^ CssTab1(b2) ^ k2 }

  // The condition under which k1 is entered in row (b0, c1) of the K1 table.
  predicate K1Fits(tmp: bv8, b0: bv8, c1: bv8, k1: bv8) { c1 == b0 ^ CssTab1(FirstB1(tmp, k1)) ^ k1 }

  // Solving one byte of a pass for its other bytes.
  lemma SolveForK(k: bv8, t: bv8, y: bv8, m: bv8)
    requires m == k ^ t ^ y
    ensures k == m ^ (y ^ t)
  {
  }
  lemma SolveForKRight(k: bv8, t: bv8, y: bv8, m: bv8)
    requires m == k ^ t ^ y
    ensures k == y ^ t ^ m
  {
  }
  lemma SolveForY(k: bv8, t: bv8, y: bv8, m: bv8)
    requires m == k ^ t ^ y
    ensures y == m ^ k ^ t
  {
  }
  lemma SolveForYLeft(k: bv8, t: bv8, y: bv8, m: bv8)
    requires m == k ^ t ^ y
    ensures y == t ^ k ^ m
  {
  }
  lemma SolveLast(k: bv8, t: bv8, m: bv8)
    requires m == k ^ t ^ 0
    ensures k == t ^ m
  {
  }
  lemma Reordered(k: bv8, t: bv8, y: bv8, m: bv8)
    requires m == k ^ t ^ y
    ensures m == y ^ t ^ k
  {
  }
  lemma ReorderedLast(k: bv8, t: bv8, y: bv8, m: bv8)
    requires m == k ^ t ^ y
    ensures m == (y ^ t) ^ k
  {
  }

  lemma K0Follows(k: bv8, b0: bv8, c0: bv8)
    requires c0 == Mix(k, b0, 0)
    ensures k == K0(b0, c0)
  {
    hide CssTab1;
    SolveLast(k, CssTab1(b0), c0);
  }
  lemma B4Follows(hash: Key, k: bv8, b4: bv8, b0: bv8)
    requires b0 == Mix(k, hash.b0, b4)
    ensures b4 == B4(hash, b0, k)
  {
    hide CssTab1;
    SolveForY(k, CssTab1(hash.b0), b4, b0);
  }
  lemma K4Follows(hash: Key, k: bv8, b4: bv8)
    requires b4 == Mix(k, hash.b4, hash.b3)
    ensures k == K4(hash, b4)
  {
    hide CssTab1;
    SolveForK(k, CssTab1(hash.b4), hash.b3, b4);
  }
  lemma B1Follows(hash: Key, k: bv8, b1: bv8)
    requires b1 == Mix(k, hash.b1, hash.b0)
    ensures b1 == B1(hash, k)
  {
    hide CssTab1;
    ReorderedLast(k, CssTab1(hash.b1), hash.b0, b1);
  }
  lemma K1FitsFollows(hash: Key, k: bv8, b1: bv8, b0: bv8, c1: bv8)
    requires b1 == B1(hash, k) && c1 == Mix(k, b1, b0)
    ensures K1Fits(Tmp5(hash), b0, c1, k)
  {
    hide CssTab1, Tmp5, FirstB1;
    Reordered(k, CssTab1(b1), b0, c1);
  }
  lemma B3Follows(k: bv8, b4: bv8, b3: bv8, c4: bv8)
    requires c4 == Mix(k, b4, b3)
    ensures b3 == B3(b4, k, c4)
  {
    hide CssTab1;
    SolveForYLeft(k, CssTab1(b4), b3, c4);
  }
  lemma K3Follows(hash: Key, k: bv8, b3: bv8)
    requires b3 == Mix(k, hash.b3, hash.b2)
    ensures k == K3(hash, b3)
  {
    hide CssTab1;
    SolveForKRight(k, CssTab1(hash.b3), hash.b2, b3);
  }
  lemma B2Follows(k: bv8, b3: bv8, b2: bv8, c3: bv8)
    requires c3 == Mix(k, b3, b2)
    ensures b2 == B2(b3, k, c3)
  {
    hide CssTab1;
    SolveForYLeft(k, CssTab1(b3), b2, c3);
  }
  lemma K2Follows(hash: Key, k: bv8, b2: bv8)
    requires b2 == Mix(k, hash.b2, hash.b1)
    ensures k == K2(hash, b2)
  {
    hide CssTab1;
    SolveForKRight(k, CssTab1(hash.b2), hash.b1, b2);
  }
  lemma C2Follows(k: bv8, b2: bv8, b1: bv8, c2: bv8)
    requires c2 == Mix(k, b2, b1)
    ensures c2 == C2(b1, b2, k)
  {
    hide CssTab1;
    Reordered(k, CssTab1(b2), b1, c2);
  }

  // The test that a rebuilt candidate must pass before it is investigated.
  function RebuiltB3(hash: Key, c: Key, b0: bv8): bv8 {
    var b4 := B4(hash, b0, K0(b0, c.b0));
    B3(b4, K4(hash, b4), c.b4)
  }
  function RebuiltB2(hash: Key, c: Key, b0: bv8): bv8 {
    var b3 := RebuiltB3(hash, c, b0);
    B2(b3, K3(hash, b3), c.b3)
  }
  predicate PassesTest(hash: Key, c: Key, b0: bv8, k1: bv8) {
    var b2 := RebuiltB2(hash, c, b0);
    C2(B1(hash, k1), b2, K2(hash, b2)) == c.b2
  }

  // The bytes of the first pass and of the stream that belong to a fixed point.
  function TrueB0(hash: Key, c: Key): bv8 { FirstPass(Stream(0, c), hash).b0 }
  function TrueK1(c: Key): bv8 { Stream(0, c).b1 }

  // From a fixed point, the right guesses rebuild the stream bytes k0 and k4 and pass every test.
  lemma FixedPointIsRebuilt(hash: Key, c: Key)
    requires IsFixedPoint(hash, c)
    ensures Stream(0, c).b0 == K0(TrueB0(hash, c), c.b0)
    ensures Stream(0, c).b4 == K4(hash, B4(hash, TrueB0(hash, c), K0(TrueB0(hash, c), c.b0)))
    ensures K1Fits(Tmp5(hash), TrueB0(hash, c), c.b1, TrueK1(c))
    ensures PassesTest(hash, c, TrueB0(hash, c), TrueK1(c))
  {
    hide Mix, K0, B4, K4, B1, B3, K3, B2, K2, C2, K1Fits, Stream;
    var k := Stream(0, c);
    var b := FirstPass(k, hash);
    K0Follows(k.b0, b.b0, c.b0);
    B4Follows(hash, k.b0, b.b4, b.b0);
    K4Follows(hash, k.b4, b.b4);
    B1Follows(hash, k.b1, b.b1);
    K1FitsFollows(hash, k.b1, b.b1, b.b0, c.b1);
    B3Follows(k.b4, b.b4, b.b3, c.b4);
    K3Follows(hash, k.b3, b.b3);
    B2Follows(k.b3, b.b3, b.b2, c.b3);
    K2Follows(hash, k.b2, b.b2);
    C2Follows(k.b2, b.b2, b.b1, c.b2);
  }

  // The index of the big table, from guessed stream bytes: outputs 1 and 2 of the 25-bit register
  // follow from k0 and k1, output 5 from k4 up to the carry into that byte.
  lemma StreamOutputs(c: Key)
    ensures var g, k := Seeded(c), Stream(0, c);
            && Output(g.r0, 0) == Difference(k.b0, Output1(g.r1, 0), 0)
            && Output(g.r0, 1) == Difference(k.b1, Output1(g.r1, 1), High(Add(Output(g.r0, 0), Output1(g.r1, 0), 0)))
            && Output(g.r0, 4) == Difference(k.b4, Output1(g.r1, 4), CarryInto(g, 4))
  {
    hide Output, Output1, Difference, Add, High, Low, Seed0, Seed1, At;
    var g := Seeded(c);
    StreamByte(g, 0);
    StreamByte(g, 1);
    StreamByte(g, 4);
    assert CarryInto(g, 0) == 0;
    DifferenceIsUnique(Output(g.r0, 0), Output1(g.r1, 0), 0);
    DifferenceIsUnique(Output(g.r0, 1), Output1(g.r1, 1), CarryInto(g, 1));
    DifferenceIsUnique(Output(g.r0, 4), Output1(g.r1, 4), CarryInto(g, 4));
  }

  // ---------------------------------------------------------------------------------------
  // The K1 table
  // ---------------------------------------------------------------------------------------

  // Row (b0, c1) once the values of k1 below n are entered.
  function K1Row(tmp: bv8, b0: bv8, c1: bv8, n: nat): seq<bv8>
    requires n <= 256
  {
    if n == 0 then []
    else if K1Fits(tmp, b0, c1, ToByte(n - 1)) then K1Row(tmp, b0, c1, n - 1) + [ToByte(n - 1)]
    else K1Row(tmp, b0, c1, n - 1)
  }

  lemma FittingK1sDifferInLowBits(tmp: bv8, b0: bv8, c1: bv8, k: bv8, l: bv8)
    requires K1Fits(tmp, b0, c1, k) && K1Fits(tmp, b0, c1, l) && LowThreeBits(k) == LowThreeBits(l)
    ensures k == l
  {
    hide K1Fits, FirstB1, Fiber, LowThreeBits;
    K1sShareFiber(tmp, b0, c1, k, l);
    LowBitsOfXor(tmp, k, l);
    CssTab1FibersAreSmall(FirstB1(tmp, k), FirstB1(tmp, l));
    XorIsInjective(tmp, k, l);
  }

  lemma K1sShareFiber(tmp: bv8, b0: bv8, c1: bv8, k: bv8, l: bv8)
    requires K1Fits(tmp, b0, c1, k) && K1Fits(tmp, b0, c1, l)
    ensures Fiber(FirstB1(tmp, k)) == Fiber(FirstB1(tmp, l))
  {
    hide K1Fits, Fiber, FirstB1;
    K1HasFiber(tmp, b0, c1, k);
    K1HasFiber(tmp, b0, c1, l);
  }

  lemma K1HasFiber(tmp: bv8, b0: bv8, c1: bv8, k: bv8)
    requires K1Fits(tmp, b0, c1, k)
    ensures Fiber(FirstB1(tmp, k)) == c1 ^ b0 ^ tmp
  {
    hide CssTab1, FirstB1;
    FiberOf(tmp, b0, c1, k, CssTab1(FirstB1(tmp, k)), FirstB1(tmp, k));
  }

  lemma FiberOf(tmp: bv8, b0: bv8, c1: bv8, k: bv8, t: bv8, u: bv8)
    requires c1 == b0 ^ t ^ k && u == FirstB1(tmp, k)
    ensures t ^ u == c1 ^ b0 ^ tmp
  {
  }

  lemma LowBitsOfXor(tmp: bv8, k: bv8, l: bv8)
    requires LowThreeBits(k) == LowThreeBits(l)
    ensures LowThreeBits(FirstB1(tmp, k)) == LowThreeBits(FirstB1(tmp, l))
  {
  }

  lemma XorIsInjective(tmp: bv8, k: bv8, l: bv8)
    requires FirstB1(tmp, k) == FirstB1(tmp, l)
    ensures k == l
  {
  }

  // The low three bits of the entries of a row.
  ghost function LowBits(row: seq<bv8>): set<bv8> { set k | k in row :: LowThreeBits(k) }

  lemma {:induction false} K1RowEntries(tmp: bv8, b0: bv8, c1: bv8, n: nat, k: bv8)
    requires n <= 256
    ensures k in K1Row(tmp, b0, c1, n) <==> K1Fits(tmp, b0, c1, k) && ToInt(k) < n
  {
    hide K1Fits, ToByte, ToInt;
    ByteRoundTrip(k);
    if n > 0 {
      K1RowEntries(tmp, b0, c1, n - 1, k);
      IntRoundTrip(n - 1);
    }
  }

  // Each new entry has low bits of its own, so a row never has more than eight entries.
  lemma {:induction false} K1RowIsShort(tmp: bv8, b0: bv8, c1: bv8, n: nat)
    requires n <= 256
    ensures |K1Row(tmp, b0, c1, n)| <= 8
  {
    hide K1Fits, LowThreeBits;
    K1RowHasDistinctLowBits(tmp, b0, c1, n);
    var all: set<bv8> := {0, 1, 2, 3, 4, 5, 6, 7};
    forall x | x in LowBits(K1Row(tmp, b0, c1, n)) ensures x in all {
      var k :| k in K1Row(tmp, b0, c1, n) && x == LowThreeBits(k);
      EightValues(k);
    }
    SubsetIsNotLarger(LowBits(K1Row(tmp, b0, c1, n)), all);
  }

  lemma EightValues(k: bv8)
    ensures var x := LowThreeBits(k); x == 0 || x == 1 || x == 2 || x == 3 || x == 4 || x == 5 || x == 6 || x == 7
  {
  }

  lemma SubsetIsNotLarger<T>(s: set<T>, t: set<T>)
    requires s <= t
    ensures |s| <= |t|
  {
    assert t == s + (t - s);
  }

  lemma {:induction false} K1RowHasDistinctLowBits(tmp: bv8, b0: bv8, c1: bv8, n: nat)
    requires n <= 256
    ensures |LowBits(K1Row(tmp, b0, c1, n))| == |K1Row(tmp, b0, c1, n)|
  {
    hide K1Fits, LowThreeBits, LowBits, ToByte;
    if n > 0 {
      K1RowHasDistinctLowBits(tmp, b0, c1, n - 1);
      var k := ToByte(n - 1);
      if K1Fits(tmp, b0, c1, k) {
        LowBitsOfExtended(K1Row(tmp, b0, c1, n - 1), k);
        NewLowBits(tmp, b0, c1, n);
      }
    } else {
      NoLowBits();
    }
  }

  lemma NoLowBits()
    ensures LowBits([]) == {}
  {
  }

  lemma LowBitsOfExtended(row: seq<bv8>, k: bv8)
    ensures LowBits(row + [k]) == LowBits(row) + {LowThreeBits(k)}
  {
    hide LowThreeBits;
    assert forall l :: l in row + [k] <==> l in row || l == k;
  }

  lemma NewLowBits(tmp: bv8, b0: bv8, c1: bv8, n: nat)
    requires 0 < n <= 256 && K1Fits(tmp, b0, c1, ToByte(n - 1))
    ensures LowThreeBits(ToByte(n - 1)) !in LowBits(K1Row(tmp, b0, c1, n - 1))
  {
    hide K1Fits, LowThreeBits, K1Row, ToByte, ToInt;
    var row, k := K1Row(tmp, b0, c1, n - 1), ToByte(n - 1);
    forall l | l in row ensures LowThreeBits(l) != LowThreeBits(k) {
      K1RowEntries(tmp, b0, c1, n - 1, l);
      IntRoundTrip(n - 1);
      if LowThreeBits(l) == LowThreeBits(k) { FittingK1sDifferInLowBits(tmp, b0, c1, k, l); }
    }
  }

  // ---------------------------------------------------------------------------------------
  // The big table
  // ---------------------------------------------------------------------------------------

  // The 24-bit seed in the last three bytes of a candidate.
  function SeedOfBytes(a: bv8, b: bv8, c: bv8): bv24 { (a as bv24) | ((b as bv24) << 8) | ((c as bv24) << 16) }
  function SeedOfKey(c: Key): bv24 { SeedOfBytes(c.b2, c.b3, c.b4) }

  lemma SeedBytesOfKey(c: Key)
    ensures SeedByte2(SeedOfKey(c) as bv32) == c.b2 && SeedByte3(SeedOfKey(c) as bv32) == c.b3
    ensures SeedByte4(SeedOfKey(c) as bv32) == c.b4
  {
  }

  // The register that the table construction starts from, as it is computed and as it is meant.
  function SeedWord(i: bv32): bv32 { ((i + i) & 0x1fffff0) | 0x8 | (i & 0x7) }
  function SeedRegister(s: bv24): bv25 { Lfsr25(SeedWord(s as bv32)) }

  lemma SeedWordInsertsBit(i: bv32)
    requires i < 0x1000000
    ensures SeedWord(i) == Inserted(i)
  {
  }

  lemma SeedIsWord32(a: bv8, b: bv8, c: bv8)
    ensures (SeedOfBytes(a, b, c) as bv32) == Word32(a, b, c)
  {
  }

  lemma SeedRegisterOfKey(c: Key)
    ensures SeedRegister(SeedOfKey(c)) == Seed0(c)
  {
    hide SeedOfBytes, SeedWord, Lfsr25, Seed0, Word32, Inserted;
    var x := Word32(c.b2, c.b3, c.b4);
    SeedIsWord32(c.b2, c.b3, c.b4);
    WordFits(c.b2, c.b3, c.b4);
    SeedWordInsertsBit(x);
    InsertedBitIsSeed0(c, x);
  }

  lemma SeedRegisterBit(s: bv24)
    ensures SeedRegister(s) & 8 == 8
  {
    hide SeedWord, Inserted, Lfsr25;
    SeedFits(s);
    SeedWordInsertsBit(s as bv32);
    BitIsInserted(s as bv32);
  }

  lemma SeedFits(s: bv24)
    ensures (s as bv32) < 0x1000000
  {
  }

  lemma BitIsInserted(x: bv32)
    ensures Lfsr25(Inserted(x)) & 8 == 8
  {
  }

  lemma SeedRegisterIsInjective(s: bv24, t: bv24)
    requires SeedRegister(s) == SeedRegister(t)
    ensures s == t
  {
    hide SeedWord, Inserted, Lfsr25;
    SeedFits(s);
    SeedFits(t);
    SeedWordInsertsBit(s as bv32);
    SeedWordInsertsBit(t as bv32);
    InsertionIsInjective(s, t);
  }

  lemma InsertionIsInjective(s: bv24, t: bv24)
    requires Lfsr25(Inserted(s as bv32)) == Lfsr25(Inserted(t as bv32))
    ensures s == t
  {
  }

  // The index of the table: output bytes 1, 2 and 5 of the register.
  function Index(o0: bv8, o1: bv8, o4: bv8): int { 65536 * ToInt(o0) + 256 * ToInt(o1) + ToInt(o4) }
  function IndexOfSeed(s: bv24): int {
    Index(Output(SeedRegister(s), 0), Output(SeedRegister(s), 1), Output(SeedRegister(s), 4))
  }

  lemma IndexIsInjective(o0: bv8, o1: bv8, o4: bv8, p0: bv8, p1: bv8, p4: bv8)
    requires Index(o0, o1, o4) == Index(p0, p1, p4)
    ensures o0 == p0 && o1 == p1 && o4 == p4
  {
    hide ToInt, ToByte;
    ByteRoundTrip(o0);
    ByteRoundTrip(o1);
    ByteRoundTrip(o4);
    ByteRoundTrip(p0);
    ByteRoundTrip(p1);
    ByteRoundTrip(p4);
  }

  lemma IndexFits(o0: bv8, o1: bv8, o4: bv8)
    ensures 0 <= Index(o0, o1, o4) < 0x1000000
  {
    hide ToInt, ToByte;
    ByteRoundTrip(o0);
    ByteRoundTrip(o1);
    ByteRoundTrip(o4);
  }

  // No entry of the big table is ever overwritten by another seed.
  lemma SeedsDoNotCollide(s: bv24, t: bv24)
    requires IndexOfSeed(s) == IndexOfSeed(t)
    ensures s == t
  {
    hide Index, Output, SeedRegister;
    var r, q := SeedRegister(s), SeedRegister(t);
    IndexIsInjective(Output(r, 0), Output(r, 1), Output(r, 4), Output(q, 0), Output(q, 1), Output(q, 4));
    SeedRegisterBit(s);
    SeedRegisterBit(t);
    OutputsNameTheSeed(r, q);
    SeedRegisterIsInjective(s, t);
  }

  // A seed as the loop counter that enters it.
  function ToSeed(i: int): bv24
    requires 0 <= i < 0x1000000
  {
    i as bv24
  }
  function SeedNumber(s: bv24): int { s as int }

  lemma SeedRoundTrip(s: bv24)
    ensures 0 <= SeedNumber(s) < 0x1000000 && ToSeed(SeedNumber(s)) == s
  {
  }

  // ---------------------------------------------------------------------------------------
  // Subtracting the output of the 17-bit register, as the code does it
  // ---------------------------------------------------------------------------------------

  function Tmp3(from: bv32, k: bv8, o: bv8): bv32 { from + (k as bv32) - (o as bv32) }
  function LowByte(x: bv32): bv8 { (x & 0xff) as bv8 }
  // 0x100, or one less if the subtraction had to borrow
  function Borrow(tmp3: bv32): bv32 { if tmp3 & 0x100 != 0 then 0x100 else 0xff }

  lemma FirstDifference(k: bv8, o: bv8)
    ensures LowByte(Tmp3(0x100, k, o)) == Difference(k, o, 0)
  {
  }

  lemma SecondDifference(k: bv8, o: bv8)
    ensures LowByte(Tmp3(0xff, k, o)) == Difference(k, o, 1)
  {
  }

  lemma BorrowIsCarry(k: bv8, o: bv8)
    ensures Borrow(Tmp3(0x100, k, o)) == if High(Add(Difference(k, o, 0), o, 0)) == 0 then 0x100 else 0xff
  {
  }

  lemma OneOff(k: bv8, o: bv8)
    ensures Difference(k, o, 0) + 0xff == Difference(k, o, 1)
  {
  }

  lemma SecondOutput(k: bv8, o: bv8, tmp3: bv32, carry: bv1)
    requires tmp3 == if carry == 0 then 0x100 else 0xff
    ensures LowByte(Tmp3(tmp3, k, o)) == Difference(k, o, carry)
  {
    hide LowByte, Tmp3, Difference;
    FirstDifference(k, o);
    SecondDifference(k, o);
    BitValues(carry);
  }

  lemma BitValues(b: bv1)
    ensures b == 0 || b == 1
  {
  }

  // The carry that the search has to guess, and the place in the big table that a guess points to. The
  // first guess of the search is that there is none, and the other one is one off.
  function TrueCarry(c: Key): bv1 { CarryInto(Seeded(c), 4) }
  function Place(hash: Key, c0: bv8, c1: bv8, b0: bv8, k1: bv8, carry: bv1): int {
    var r, k0 := Word17(c0, c1), K0(b0, c0);
    var o0 := Difference(k0, Output1(r, 0), 0);
    Index(o0, Difference(k1, Output1(r, 1), High(Add(o0, Output1(r, 0), 0))),
          Difference(K4(hash, B4(hash, b0, k0)), Output1(r, 4), carry))
  }

  // A fixed point whose bytes c0, c1, b0 and k1 are the given ones.
  ghost predicate Guessed(hash: Key, c: Key, c0: bv8, c1: bv8, b0: bv8, k1: bv8) {
    IsFixedPoint(hash, c) && c.b0 == c0 && c.b1 == c1 && TrueB0(hash, c) == b0 && TrueK1(c) == k1
  }

  // The place of a fixed point names its true guess: no wrong guess leads to it.
  lemma PlaceIsGuess(hash: Key, c: Key, b0: bv8, k1: bv8, carry: bv1)
    requires IsFixedPoint(hash, c)
    ensures IndexOfSeed(SeedOfKey(c)) == Place(hash, c.b0, c.b1, b0, k1, carry)
       <==> TrueB0(hash, c) == b0 && TrueK1(c) == k1 && TrueCarry(c) == carry
  {
    hide Place, IndexOfSeed, SeedOfKey, TrueB0, TrueK1, TrueCarry, IsFixedPoint;
    TrueGuessIsPlaced(hash, c);
    if IndexOfSeed(SeedOfKey(c)) == Place(hash, c.b0, c.b1, b0, k1, carry) {
      PlaceNamesGuess(hash, c.b0, c.b1, TrueB0(hash, c), TrueK1(c), TrueCarry(c), b0, k1, carry);
    }
  }

  lemma TrueGuessIsPlaced(hash: Key, c: Key)
    requires IsFixedPoint(hash, c)
    ensures IndexOfSeed(SeedOfKey(c)) == Place(hash, c.b0, c.b1, TrueB0(hash, c), TrueK1(c), TrueCarry(c))
  {
    hide Output, Output1, Word17, Difference, High, Add, SeedRegister, SeedOfKey, Index, Stream, Seed0, CarryInto, K0,
         B4, K4, TrueB0, K1Fits, PassesTest, IsFixedPoint;
    FixedPointIsRebuilt(hash, c);
    StreamOutputs(c);
    SeedRegisterOfKey(c);
  }

  lemma PlaceNamesGuess(hash: Key, c0: bv8, c1: bv8, b0: bv8, k1: bv8, carry: bv1, b0': bv8, k1': bv8, carry': bv1)
    requires Place(hash, c0, c1, b0, k1, carry) == Place(hash, c0, c1, b0', k1', carry')
    ensures b0 == b0' && k1 == k1' && carry == carry'
  {
    hide Output1, Word17, Difference, High, Add, Index, K0, B4, K4;
    var r, k0, k0' := Word17(c0, c1), K0(b0, c0), K0(b0', c0);
    var o0, o0' := Difference(k0, Output1(r, 0), 0), Difference(k0', Output1(r, 0), 0);
    var borrow, borrow' := High(Add(o0, Output1(r, 0), 0)), High(Add(o0', Output1(r, 0), 0));
    var k4, k4' := K4(hash, B4(hash, b0, k0)), K4(hash, B4(hash, b0', k0'));
    IndexIsInjective(o0, Difference(k1, Output1(r, 1), borrow), Difference(k4, Output1(r, 4), carry),
                     o0', Difference(k1', Output1(r, 1), borrow'), Difference(k4', Output1(r, 4), carry'));
    DifferenceIsInjective(k0, k0', Output1(r, 0), 0);
    K0IsInjective(b0, b0', c0);
    DifferenceIsInjective(k1, k1', Output1(r, 1), borrow);
    CarriesDiffer(k4, Output1(r, 4), carry, carry');
  }

  lemma DifferenceIsInjective(x: bv8, y: bv8, a: bv8, carry: bv1)
    requires Difference(x, a, carry) == Difference(y, a, carry)
    ensures x == y
  {
    hide Difference, Add, Low;
    DifferenceAddsUp(x, a, carry);
    DifferenceAddsUp(y, a, carry);
  }

  lemma K0IsInjective(b: bv8, b': bv8, c0: bv8)
    requires K0(b, c0) == K0(b', c0)
    ensures b == b'
  {
    hide CssTab1, CssTab1Inverse;
    XorCancels(CssTab1(b), CssTab1(b'), c0);
    CssTab1IsPermutation(b);
    CssTab1IsPermutation(b');
  }

  lemma XorCancels(x: bv8, y: bv8, m: bv8)
    requires x ^ m == y ^ m
    ensures x == y
  {
  }

  lemma CarriesDiffer(y: bv8, a: bv8, carry: bv1, carry': bv1)
    requires Difference(y, a, carry) == Difference(y, a, carry')
    ensures carry == carry'
  {
  }

  // ---------------------------------------------------------------------------------------
  // The big table is full
  // ---------------------------------------------------------------------------------------

  const BIG_TABLE_SIZE: nat := 16777216

  // The seeds in a row, by their bytes
  function NthSeed(n: nat): bv24 { SeedOfBytes(Digit(n), Digit(n / 256), Digit(n / 256 / 256)) }
  function Digit(n: nat): bv8 { ToByte(n % 256) }

  lemma NthSeedsDiffer(i: nat, j: nat)
    requires i < BIG_TABLE_SIZE && j < BIG_TABLE_SIZE && NthSeed(i) == NthSeed(j)
    ensures i == j
  {
    hide Digit, SeedOfBytes;
    SeedNamesBytes(Digit(i), Digit(i / 256), Digit(i / 256 / 256), Digit(j), Digit(j / 256), Digit(j / 256 / 256));
    DigitsAdd(i);
    DigitsAdd(j);
  }

  lemma DigitsAdd(n: nat)
    requires n < BIG_TABLE_SIZE
    ensures n == ToInt(Digit(n)) + 256 * (ToInt(Digit(n / 256)) + 256 * ToInt(Digit(n / 256 / 256)))
  {
    hide Digit, ToInt;
    var n1: nat := n / 256;
    var n2: nat := n1 / 256;
    DigitIsRemainder(n);
    DigitIsRemainder(n1);
    DigitIsRemainder(n2);
    assert n2 < 256;
  }

  lemma DigitIsRemainder(n: nat)
    ensures ToInt(Digit(n)) == n % 256
  {
    hide ToInt, ToByte;
    IntRoundTrip(n % 256);
  }

  lemma SeedNamesBytes(a: bv8, b: bv8, c: bv8, a': bv8, b': bv8, c': bv8)
    requires SeedOfBytes(a, b, c) == SeedOfBytes(a', b', c')
    ensures a == a' && b == b' && c == c'
  {
  }

  // The places of the first n seeds, and the first n places
  ghost function Taken(n: nat): set<int> { if n == 0 then {} else Taken(n - 1) + {IndexOfSeed(NthSeed(n - 1))} }
  ghost function UpTo(n: nat): set<int> { if n == 0 then {} else UpTo(n - 1) + {n - 1} }

  lemma {:induction false} TakenAreMany(n: nat)
    requires n <= BIG_TABLE_SIZE
    ensures |Taken(n)| == n && Taken(n) <= UpTo(BIG_TABLE_SIZE)
    ensures forall place :: place in Taken(n) ==> exists i: nat :: i < n && IndexOfSeed(NthSeed(i)) == place
  {
    hide IndexOfSeed, NthSeed, UpTo;
    if n > 0 {
      TakenAreMany(n - 1);
      var place := IndexOfSeed(NthSeed(n - 1));
      if i: nat :| i < n - 1 && IndexOfSeed(NthSeed(i)) == place {
        SeedsDoNotCollide(NthSeed(i), NthSeed(n - 1));
        NthSeedsDiffer(i, n - 1);
      }
      SeedHasPlace(NthSeed(n - 1));
      UpToIsMany(BIG_TABLE_SIZE, place);
    }
  }

  lemma SeedHasPlace(s: bv24)
    ensures 0 <= IndexOfSeed(s) < BIG_TABLE_SIZE
  {
    hide Output, SeedRegister, Index;
    IndexFits(Output(SeedRegister(s), 0), Output(SeedRegister(s), 1), Output(SeedRegister(s), 4));
  }

  lemma {:induction false} UpToIsMany(n: nat, i: int)
    ensures |UpTo(n)| == n && (i in UpTo(n) <==> 0 <= i < n)
  {
    if n > 0 {
      UpToIsMany(n - 1, i);
      UpToIsMany(n - 1, n - 1);
    }
  }

  // There are as many places as seeds, so every place has its seed.
  lemma EveryPlaceIsTaken(place: int) returns (s: bv24)
    requires 0 <= place < BIG_TABLE_SIZE
    ensures IndexOfSeed(s) == place
  {
    hide IndexOfSeed, NthSeed, Taken, UpTo;
    TakenAreMany(BIG_TABLE_SIZE);
    UpToIsMany(BIG_TABLE_SIZE, place);
    if place !in Taken(BIG_TABLE_SIZE) {
      SubsetIsNotLarger(Taken(BIG_TABLE_SIZE), UpTo(BIG_TABLE_SIZE) - {place});
      assert false;
    }
    var i: nat :| i < BIG_TABLE_SIZE && IndexOfSeed(NthSeed(i)) == place;
    s := NthSeed(i);
  }

  // ---------------------------------------------------------------------------------------
  // The order of the search
  // ---------------------------------------------------------------------------------------

  // First by the first two bytes, then by b0, by k1, and by the carry
  function Start(c: Key): int { 256 * ToInt(c.b0) + ToInt(c.b1) }
  function RankOf(b0: bv8, k1: bv8, carry: bv1): int {
    512 * ToInt(b0) + 2 * ToInt(k1) + if carry == 0 then 0 else 1
  }
  function RankInStart(hash: Key, c: Key): int { RankOf(TrueB0(hash, c), TrueK1(c), TrueCarry(c)) }

  // The key of a hash that comes first
  ghost predicate ComesFirst(hash: Key, c: Key) {
    && IsFixedPoint(hash, c)
    && forall d :: IsFixedPoint(hash, d) ==>
         Start(c) < Start(d) || (Start(c) == Start(d) && RankInStart(hash, c) <= RankInStart(hash, d))
  }

  // It is one and the same, because no two keys of a hash have the same guess.
  lemma FirstIsUnique(hash: Key, c: Key, d: Key)
    requires ComesFirst(hash, c) && ComesFirst(hash, d)
    ensures c == d
  {
    hide IsFixedPoint, TrueB0, TrueK1, TrueCarry, Start, RankOf, IndexOfSeed, SeedOfKey, Place;
    StartNamesBytes(c, d);
    RankNamesGuess(TrueB0(hash, c), TrueK1(c), TrueCarry(c), TrueB0(hash, d), TrueK1(d), TrueCarry(d));
    PlaceIsGuess(hash, c, TrueB0(hash, c), TrueK1(c), TrueCarry(c));
    PlaceIsGuess(hash, d, TrueB0(hash, c), TrueK1(c), TrueCarry(c));
    SeedNamesKey(c, d);
  }

  lemma StartNamesBytes(c: Key, d: Key)
    requires Start(c) == Start(d)
    ensures c.b0 == d.b0 && c.b1 == d.b1
  {
    hide ToInt, ToByte;
    ByteRoundTrip(c.b0);
    ByteRoundTrip(c.b1);
    ByteRoundTrip(d.b0);
    ByteRoundTrip(d.b1);
  }

  lemma RankNamesGuess(b0: bv8, k1: bv8, carry: bv1, b0': bv8, k1': bv8, carry': bv1)
    requires RankOf(b0, k1, carry) == RankOf(b0', k1', carry')
    ensures b0 == b0' && k1 == k1' && carry == carry'
  {
    hide ToInt, ToByte;
    ByteRoundTrip(b0);
    ByteRoundTrip(k1);
    ByteRoundTrip(b0');
    ByteRoundTrip(k1');
    BitValues(carry);
    BitValues(carry');
  }

  lemma SeedNamesKey(c: Key, d: Key)
    requires IndexOfSeed(SeedOfKey(c)) == IndexOfSeed(SeedOfKey(d)) && c.b0 == d.b0 && c.b1 == d.b1
    ensures c == d
  {
    hide IndexOfSeed, SeedOfBytes;
    SeedsDoNotCollide(SeedOfKey(c), SeedOfKey(d));
    SeedNamesBytes(c.b2, c.b3, c.b4, d.b2, d.b3, d.b4);
  }
}
