/** What CrackDiscKey cannot do (src/css.c): a disc key hash does not determine its key, and there are
    hashes that no key has. */
module DiscKeyLimits {
  import opened CssTables
  import opened Combiner
  import opened Mangling
  import opened DiscKeyAttack
  import opened DiscKeySearch

  // ---------------------------------------------------------------------------------------
  // Two keys with one hash
  // ---------------------------------------------------------------------------------------

  const HASH := Key(0x09, 0x9c, 0xbf, 0x99, 0x0b)
  const ONE_KEY := Key(0x75, 0x91, 0x03, 0x00, 0x00)
  const OTHER_KEY := Key(0xd0, 0x21, 0x3e, 0x00, 0x00)

  lemma StreamOfOneKey()
    ensures Stream(0, ONE_KEY) == Key(0xec, 0x24, 0x1f, 0x72, 0x11)
  {
    hide At;
    FiveBytesAre(Seeded(ONE_KEY), 0, 0);
    assert FiveBytes(Seeded(ONE_KEY), 0, 0) == Key(0xec, 0x24, 0x1f, 0x72, 0x11);
  }

  lemma StreamOfOtherKey()
    ensures Stream(0, OTHER_KEY) == Key(0x64, 0x52, 0x1c, 0x6e, 0x72)
  {
    hide At;
    FiveBytesAre(Seeded(OTHER_KEY), 0, 0);
    assert FiveBytes(Seeded(OTHER_KEY), 0, 0) == Key(0x64, 0x52, 0x1c, 0x6e, 0x72);
  }

  // The hash has two keys, so a cracked key need not be the one that was hashed.
  lemma HashDoesNotNameItsKey()
    ensures IsFixedPoint(HASH, ONE_KEY) && IsFixedPoint(HASH, OTHER_KEY) && ONE_KEY != OTHER_KEY
  {
    StreamOfOneKey();
    StreamOfOtherKey();
    assert FirstPass(Key(0xec, 0x24, 0x1f, 0x72, 0x11), HASH) == Key(0x31, 0xc3, 0x72, 0x33, 0xa3);
    assert FirstPass(Key(0x64, 0x52, 0x1c, 0x6e, 0x72), HASH) == Key(0xda, 0xb5, 0x71, 0x2f, 0xc0);
  }

  // ---------------------------------------------------------------------------------------
  // A hash without a key
  // ---------------------------------------------------------------------------------------

  // The one hash that a key has
  function HashOf(c: Key): Key { Encrypted(0, c, c) }

  lemma HashIsUnique(hash: Key, c: Key)
    ensures IsFixedPoint(hash, c) <==> hash == HashOf(c)
  {
    hide Encrypted, Decrypted;
    DecryptionIsBijective(0, c, hash);
    DecryptionIsBijective(0, c, c);
  }

  // Keys and the numbers below 256 ^ 5
  const KEYS: nat := 0x100_0000_0000

  function KeyNumber(n: nat): Key {
    Key(Digit(n), Digit(n / 256), Digit(n / 256 / 256), Digit(n / 256 / 256 / 256), Digit(n / 256 / 256 / 256 / 256))
  }
  function NumberOf(k: Key): int {
    ToInt(k.b0) + 256 * (ToInt(k.b1) + 256 * (ToInt(k.b2) + 256 * (ToInt(k.b3) + 256 * ToInt(k.b4))))
  }

  lemma DigitOf(n: nat, d: bv8, m: nat)
    requires n == ToInt(d) + 256 * m
    ensures Digit(n) == d && n / 256 == m
  {
    hide ToByte, ToInt;
    ByteRoundTrip(d);
  }

  lemma KeysAreNumbered(k: Key)
    ensures 0 <= NumberOf(k) < KEYS && KeyNumber(NumberOf(k)) == k
  {
    hide ToByte, ToInt, Digit;
    ByteRoundTrip(k.b0); ByteRoundTrip(k.b1); ByteRoundTrip(k.b2); ByteRoundTrip(k.b3); ByteRoundTrip(k.b4);
    var n4 := ToInt(k.b4);
    var n3 := ToInt(k.b3) + 256 * n4;
    var n2 := ToInt(k.b2) + 256 * n3;
    var n1 := ToInt(k.b1) + 256 * n2;
    DigitOf(n4, k.b4, 0);
    DigitOf(n3, k.b3, n4);
    DigitOf(n2, k.b2, n3);
    DigitOf(n1, k.b1, n2);
    DigitOf(NumberOf(k), k.b0, n1);
  }

  // The keys below n have these hashes.
  ghost function Hashes(n: nat): set<Key> { set i: nat | 0 <= i < n :: HashOf(KeyNumber(i)) }

  // The first n keys
  ghost function Keys(n: nat): set<Key> { set i: nat | 0 <= i < n :: KeyNumber(i) }

  lemma {:induction false} HashesAreFew(n: nat)
    ensures |Hashes(n)| <= n
  {
    hide HashOf, KeyNumber;
    if n > 0 {
      HashesAreFew(n - 1);
      assert Hashes(n) == Hashes(n - 1) + {HashOf(KeyNumber(n - 1))};
    } else {
      assert Hashes(0) == {};
    }
  }

  // A hash that comes up twice leaves one hash fewer than keys.
  lemma {:induction false} HashesAreFewer(n: nat, i: nat, j: nat)
    requires i < j < n && HashOf(KeyNumber(i)) == HashOf(KeyNumber(j))
    ensures |Hashes(n)| < n
  {
    hide HashOf, KeyNumber;
    assert Hashes(n) == Hashes(n - 1) + {HashOf(KeyNumber(n - 1))};
    if j == n - 1 {
      HashesAreFew(n - 1);
      assert HashOf(KeyNumber(i)) in Hashes(n - 1);
      assert Hashes(n) == Hashes(n - 1);
    } else {
      HashesAreFewer(n - 1, i, j);
    }
  }

  lemma {:induction false} KeysAreMany(n: nat)
    requires n <= KEYS
    ensures |Keys(n)| == n
  {
    hide KeyNumber;
    if n > 0 {
      KeysAreMany(n - 1);
      assert Keys(n) == Keys(n - 1) + {KeyNumber(n - 1)};
      forall i: nat | i < n - 1 ensures KeyNumber(i) != KeyNumber(n - 1) { NumbersDiffer(i, n - 1); }
      assert KeyNumber(n - 1) !in Keys(n - 1);
    } else {
      assert Keys(0) == {};
    }
  }

  lemma NumbersAreKept(n: nat)
    requires n < KEYS
    ensures NumberOf(KeyNumber(n)) == n
  {
    hide ToInt, Digit;
    var n1: nat := n / 256;
    var n2: nat := n1 / 256;
    var n3: nat := n2 / 256;
    var n4: nat := n3 / 256;
    DigitIsRemainder(n);
    DigitIsRemainder(n1);
    DigitIsRemainder(n2);
    DigitIsRemainder(n3);
    DigitIsRemainder(n4);
    assert n4 < 256;
  }

  lemma NumbersDiffer(m: nat, n: nat)
    requires m < n < KEYS
    ensures KeyNumber(m) != KeyNumber(n)
  {
    hide KeyNumber, NumberOf;
    NumbersAreKept(m);
    NumbersAreKept(n);
  }

  // Some hash has no key: there are as many hashes as keys, and two keys share one.
  lemma SomeHashHasNoKey() returns (hash: Key)
    ensures forall c :: !IsFixedPoint(hash, c)
  {
    hide HashOf, KeyNumber, NumberOf, IsFixedPoint;
    HashDoesNotNameItsKey();
    HashIsUnique(HASH, ONE_KEY);
    HashIsUnique(HASH, OTHER_KEY);
    KeysAreNumbered(ONE_KEY);
    KeysAreNumbered(OTHER_KEY);
    var i, j := NumberOf(ONE_KEY), NumberOf(OTHER_KEY);
    if i < j {
      HashesAreFewer(KEYS, i, j);
    } else {
      HashesAreFewer(KEYS, j, i);
    }
    KeysAreMany(KEYS);
    hash := MissingFrom(Keys(KEYS), Hashes(KEYS));
    forall c ensures !IsFixedPoint(hash, c) {
      HashIsUnique(hash, c);
      KeysAreNumbered(c);
      assert HashOf(KeyNumber(NumberOf(c))) in Hashes(KEYS);
    }
  }

  // For such a hash CrackDiscKey, given memory, returns 0 all the same, and what it leaves is no key.
  lemma KeylessHashGoesUnnoticed() returns (hash: Key)
    ensures forall ret, left :: IsCracked(hash, true, true, ret, left) ==> ret == 0 && !IsFixedPoint(hash, left)
  {
    hide IsFixedPoint;
    hash := SomeHashHasNoKey();
  }

  // For the hash with two keys, the one that comes later is never left.
  lemma LaterKeyIsNotLeft(ret: int, left: Key)
    requires IsCracked(HASH, true, true, ret, left)
    ensures IsFixedPoint(HASH, left) && 256 * ToInt(left.b0) + ToInt(left.b1) <= 0x7591 && left != OTHER_KEY
  {
    hide IsFixedPoint, RankInStart, IsLeft;
    HashDoesNotNameItsKey();
  }

  lemma MissingFrom(s: set<Key>, t: set<Key>) returns (x: Key)
    requires |t| < |s|
    ensures x in s && x !in t
  {
    if s <= t {
      SubsetIsNotLarger(s, t);
    }
    x :| x in s && x !in t;
  }
}
