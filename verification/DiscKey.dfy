/** dvdcss_disckey and dvdcss_titlekey (src/css.c): from what the drive sends to the disc key and the
    title keys. */
module DiscKey {
  import opened Combiner
  import opened Mangling
  import opened Sector
  import opened DiscKeyAttack
  import opened DiscKeySearch

  const DISCKEY_SIZE := 2048

  // ---------------------------------------------------------------------------------------
  // Player keys
  // ---------------------------------------------------------------------------------------

  // The disc key that a player key gives from one of the slots 1 to 408; slot 0 holds the disc key
  // encrypted with itself.
  function Candidate(s: seq<bv8>, player: Key, slot: nat): Key
    requires |s| == DISCKEY_SIZE && slot < 409
  {
    Decrypted(0, player, KeyAt(s, 5 * slot))
  }
  ghost predicate Works(s: seq<bv8>, player: Key, slot: nat)
    requires |s| == DISCKEY_SIZE && slot < 409
  {
    IsFixedPoint(KeyAt(s, 0), Candidate(s, player, slot))
  }

  // The pairs that come before a pair in the order of the search
  predicate IsEarlier(m: nat, j: nat, n: nat, i: nat) { m < n || (m == n && j < i) }

  // No pair before this one works.
  ghost predicate NoneBefore(s: seq<bv8>, players: seq<Key>, n: nat, i: nat)
    requires |s| == DISCKEY_SIZE
  {
    forall m: nat, j: nat :: m < |players| && 1 <= j < 409 && IsEarlier(m, j, n, i) ==> !Works(s, players[m], j)
  }

  // The first pair that works
  ghost predicate IsFirst(s: seq<bv8>, players: seq<Key>, n: nat, i: nat)
    requires |s| == DISCKEY_SIZE
  {
    n < |players| && 1 <= i < 409 && Works(s, players[n], i) && NoneBefore(s, players, n, i)
  }

  // The key of that pair
  ghost predicate IsFirstKey(s: seq<bv8>, players: seq<Key>, k: Key)
    requires |s| == DISCKEY_SIZE
  {
    exists n: nat, i: nat :: IsFirst(s, players, n, i) && k == Candidate(s, players[n], i)
  }

  // No pair at all works.
  ghost predicate NoneWorks(s: seq<bv8>, players: seq<Key>)
    requires |s| == DISCKEY_SIZE
  {
    forall m, j :: 0 <= m < |players| && 1 <= j < 409 ==> !Works(s, players[m], j)
  }

  // Players are tried one after the other, and the slots of each from the first on.
  lemma FirstPairIsFirst(s: seq<bv8>, players: seq<Key>, n: nat, i: nat, m: nat, j: nat)
    requires |s| == DISCKEY_SIZE && IsFirst(s, players, n, i) && m < |players| && 1 <= j < 409
    requires Works(s, players[m], j)
    ensures n < m || (n == m && i <= j)
  {
    hide Works;
  }

  // On a disc with this key, a player whose slot holds the key encrypted with its own works.
  lemma PlayerOfDiscWorks(s: seq<bv8>, player: Key, disc: Key, i: nat, hash: Key, slot: Key)
    requires |s| == 2048 && 1 <= i < 409 && KeyAt(s, 0) == hash && KeyAt(s, 5 * i) == slot
    requires hash == Encrypted(0, disc, disc) && slot == Encrypted(0, player, disc)
    ensures Works(s, player, i) && Candidate(s, player, i) == disc
  {
    hide Encrypted, Decrypted;
    DecryptionIsBijective(0, player, disc);
    DecryptionIsBijective(0, disc, disc);
  }

  // DecryptDiscKey. A result of 0 comes with the key of the first pair that works, a result of -1
  // with a zero key and only if there is no such pair.
  method DecryptDiscKey(playerKeys: seq<Key>, discKeyBlock: array<bv8>, discKey: array<bv8>)
    returns (ret: int, ghost player: nat, ghost slot: nat)
    requires discKeyBlock.Length == DISCKEY_SIZE && discKey.Length == 5 && discKey != discKeyBlock
    modifies discKey
    ensures ret == 0 || ret == -1
    ensures ret == 0 ==> IsFirst(discKeyBlock[..], playerKeys, player, slot) &&
                         KeyOf(discKey[..]) == Candidate(discKeyBlock[..], playerKeys[player], slot)
    ensures ret == -1 ==> KeyOf(discKey[..]) == NO_KEY && NoneWorks(discKeyBlock[..], playerKeys)
  {
    hide Decrypted;
    ghost var s := discKeyBlock[..];
    var verified := new bv8[5];
    var n := 0;
    while n < |playerKeys|
      invariant 0 <= n <= |playerKeys| && discKeyBlock[..] == s && NoneBefore(s, playerKeys, n, 1)
    {
      var playerKey := ToArray(playerKeys[n]);
      var i := 1;
      while i < 409
        invariant 1 <= i <= 409 && discKeyBlock[..] == s && NoneBefore(s, playerKeys, n, i)
        invariant KeyOf(playerKey[..]) == playerKeys[n] && fresh(playerKey)
      {
        DecryptKey(0, playerKey, discKeyBlock, 5 * i, discKey);
        DecryptKey(0, discKey, discKeyBlock, 0, verified);
        if KeyOf(discKey[..]) == KeyOf(verified[..]) {
          return 0, n, i;
        }
        i := i + 1;
      }
      n := n + 1;
    }
    forall m, j | 0 <= m < |playerKeys| && 1 <= j < 409 ensures !Works(s, playerKeys[m], j) {
      assert IsEarlier(m, j, n, 1);
    }
    forall j | 0 <= j < 5 { discKey[j] := 0; }
    assert discKeyBlock[..] == s;
    return -1, 0, 0;
  }

  method ToArray(k: Key) returns (a: array<bv8>)
    ensures fresh(a) && a.Length == 5 && KeyOf(a[..]) == k
  {
    a := new bv8[5];
    a[0], a[1], a[2], a[3], a[4] := k.b0, k.b1, k.b2, k.b3, k.b4;
  }

  // ---------------------------------------------------------------------------------------
  // The mask of the bus key
  // ---------------------------------------------------------------------------------------

  // The byte of the bus key that masks byte i of what the drive sends: last byte first, over and over
  function BusByte(bus: seq<bv8>, i: nat): bv8
    requires |bus| == 5
  {
    bus[4 - i % 5]
  }
  function Unmasked(bus: seq<bv8>, s: seq<bv8>): (r: seq<bv8>)
    requires |bus| == 5
    ensures |r| == |s|
  {
    seq(|s|, i requires 0 <= i < |s| => s[i] ^ BusByte(bus, i))
  }

  lemma UnmaskedTwice(bus: seq<bv8>, s: seq<bv8>)
    requires |bus| == 5
    ensures Unmasked(bus, Unmasked(bus, s)) == s
  {
    hide BusByte;
    forall i | 0 <= i < |s| ensures Unmasked(bus, Unmasked(bus, s))[i] == s[i] {
      XorTwice(s[i], BusByte(bus, i));
    }
  }

  // The bus key itself, last byte first and over and over, is what unmasks to zeros.
  function MaskOf(bus: seq<bv8>, n: nat): (r: seq<bv8>)
    requires |bus| == 5
    ensures |r| == 5 * n
    decreases n
  {
    if n == 0 then [] else [bus[4], bus[3], bus[2], bus[1], bus[0]] + MaskOf(bus, n - 1)
  }

  lemma {:induction false} MaskByte(bus: seq<bv8>, n: nat, i: nat)
    requires |bus| == 5 && i < 5 * n
    ensures MaskOf(bus, n)[i] == BusByte(bus, i)
  {
    hide BusByte;
    BusBytesRepeat(bus, i);
    if i >= 5 {
      MaskByte(bus, n - 1, i - 5);
      assert MaskOf(bus, n)[i] == MaskOf(bus, n - 1)[i - 5];
    }
  }

  lemma BusBytesRepeat(bus: seq<bv8>, i: nat)
    requires |bus| == 5
    ensures BusByte(bus, i) == if i < 5 then bus[4 - i] else BusByte(bus, i - 5)
  {
  }

  lemma MaskUnmasksToZeros(bus: seq<bv8>, n: nat, s: seq<bv8>)
    requires |bus| == 5 && |s| <= 5 * n && s == MaskOf(bus, n)[..|s|]
    ensures forall i :: 0 <= i < |s| ==> Unmasked(bus, s)[i] == 0
  {
    hide BusByte, MaskOf;
    forall i | 0 <= i < |s| ensures Unmasked(bus, s)[i] == 0 {
      MaskByte(bus, n, i);
      XorOfSame(BusByte(bus, i));
    }
  }

  lemma XorOfSame(x: bv8)
    ensures x ^ x == 0
  {
  }

  method Unmask(busKey: array<bv8>, buffer: array<bv8>)
    requires busKey.Length == 5 && busKey != buffer
    modifies buffer
    ensures buffer[..] == Unmasked(busKey[..], old(buffer[..]))
  {
    for i := 0 to buffer.Length
      invariant forall j :: 0 <= j < i ==> buffer[j] == old(buffer[j]) ^ BusByte(busKey[..], j)
      invariant forall j :: i <= j < buffer.Length ==> buffer[j] == old(buffer[j])
    {
      buffer[i] := buffer[i] ^ busKey[4 - i % 5];
    }
  }

  // ---------------------------------------------------------------------------------------
  // Title keys
  // ---------------------------------------------------------------------------------------

  // DecryptTitleKey, in place
  method DecryptTitleKey(discKey: array<bv8>, titleKey: array<bv8>)
    requires discKey.Length == 5 && titleKey.Length == 5
    modifies titleKey
    ensures KeyOf(titleKey[..]) == Decrypted(0xff, old(KeyOf(discKey[..])), old(KeyOf(titleKey[..])))
  {
    hide Decrypted;
    DecryptKey(0xff, discKey, titleKey, 0, titleKey);
  }

  // What dvdcss_titlekey makes of a title key that the drive has sent
  function Received(bus: seq<bv8>, disc: Key, sent: seq<bv8>): Key
    requires |bus| == 5 && |sent| == 5
  {
    var k := KeyOf(Unmasked(bus, sent));
    if k == NO_KEY then NO_KEY else Decrypted(0xff, disc, k)
  }

  method ReceiveTitleKey(busKey: array<bv8>, discKey: array<bv8>, keyBytes: array<bv8>) returns (ret: int)
    requires busKey.Length == 5 && discKey.Length == 5 && keyBytes.Length == 5
    requires keyBytes != busKey && keyBytes != discKey
    modifies keyBytes
    ensures KeyOf(keyBytes[..]) == Received(busKey[..], KeyOf(discKey[..]), old(keyBytes[..]))
    ensures ret == if KeyOf(Unmasked(busKey[..], old(keyBytes[..]))) == NO_KEY then 0 else 1
  {
    hide Decrypted, Unmasked;
    Unmask(busKey, keyBytes);
    if KeyOf(keyBytes[..]) == NO_KEY {
      return 0;
    }
    DecryptTitleKey(discKey, keyBytes);
    ret := 1;
  }

  // The bytes of the bus key, last byte first, stand for no key.
  lemma MaskIsNoKey(bus: seq<bv8>, disc: Key)
    requires |bus| == 5
    ensures Received(bus, disc, [bus[4], bus[3], bus[2], bus[1], bus[0]]) == NO_KEY
  {
    hide Decrypted, Unmasked;
    var s := [bus[4], bus[3], bus[2], bus[1], bus[0]];
    assert MaskOf(bus, 0) == [] && MaskOf(bus, 1) == s;
    MaskUnmasksToZeros(bus, 1, s);
  }

  // What a drive sends that encrypts a title key with the disc key and masks it with the bus key
  function Sent(bus: seq<bv8>, disc: Key, title: Key): seq<bv8>
    requires |bus| == 5
  {
    Unmasked(bus, Encrypted(0xff, disc, title).Bytes())
  }

  // The title key arrives, except that a key which happens to encrypt to zero is taken for none.
  lemma TitleKeyArrivesExactly(bus: seq<bv8>, disc: Key, title: Key)
    requires |bus| == 5
    ensures |Sent(bus, disc, title)| == 5
    ensures Received(bus, disc, Sent(bus, disc, title)) == title <==>
            (Encrypted(0xff, disc, title) != NO_KEY || title == NO_KEY)
  {
    hide Decrypted, Encrypted;
    var e := Encrypted(0xff, disc, title);
    UnmaskedTwice(bus, e.Bytes());
    DecryptionIsBijective(0xff, disc, title);
    assert KeyOf(e.Bytes()) == e;
  }

  // Such a key: with a zero disc key it is this one that is lost.
  const LOST_KEY := Key(0x1b, 0x9f, 0xc2, 0x1a, 0x6f)

  lemma LostKeyEncryptsToNone()
    ensures Encrypted(0xff, NO_KEY, LOST_KEY) == NO_KEY
  {
    hide Encrypted;
    StreamOfNoKey();
    assert FirstPass(Key(0xff, 0x46, 0x2c, 0xa6, 0x21), NO_KEY) == Key(0xde, 0x75, 0x1f, 0x95, 0x12);
    assert Decrypted(0xff, NO_KEY, NO_KEY) == LOST_KEY;
    DecryptionIsBijective(0xff, NO_KEY, NO_KEY);
  }

  lemma StreamOfNoKey()
    ensures Stream(0xff, NO_KEY) == Key(0xff, 0x46, 0x2c, 0xa6, 0x21)
  {
    hide At;
    FiveBytesAre(Seeded(NO_KEY), 0xff, 0);
    assert FiveBytes(Seeded(NO_KEY), 0xff, 0) == Key(0xff, 0x46, 0x2c, 0xa6, 0x21);
  }

  lemma LostKeyDoesNotArrive(bus: seq<bv8>)
    requires |bus| == 5
    ensures |Sent(bus, NO_KEY, LOST_KEY)| == 5
    ensures Received(bus, NO_KEY, Sent(bus, NO_KEY, LOST_KEY)) != LOST_KEY
  {
    hide Decrypted, Encrypted, Unmasked;
    LostKeyEncryptsToNone();
    TitleKeyArrivesExactly(bus, NO_KEY, LOST_KEY);
  }

  // ---------------------------------------------------------------------------------------
  // The disc key
  // ---------------------------------------------------------------------------------------

  datatype Method = ByKey | ByDisc | ByTitle

  // The part of dvdcss_disckey after the drive has sent its block. Without a key from the players the
  // method becomes the slow one. The crack falls back only if it runs out of memory: when it finds
  // nothing it still returns 0, so the key is one, the first, exactly if the hash has any at all.
  method ReceiveDiscKey(busKey: array<bv8>, playerKeys: seq<Key>, buffer: array<bv8>, chosen: Method,
                        k1Memory: bool, bigMemory: bool)
    returns (now: Method, discKey: array<bv8>)
    requires busKey.Length == 5 && buffer.Length == DISCKEY_SIZE && busKey != buffer
    modifies buffer
    ensures discKey.Length == 5 && buffer[..] == Unmasked(busKey[..], old(buffer[..]))
    ensures now == chosen || now == ByTitle
    ensures now == ByTitle ==> KeyOf(discKey[..]) == NO_KEY
    ensures now == ByKey ==> IsFixedPoint(KeyAt(buffer[..], 0), KeyOf(discKey[..]))
    ensures chosen == ByKey ==> (now == ByTitle <==> NoneWorks(buffer[..], playerKeys))
    ensures now == ByKey ==> IsFirstKey(buffer[..], playerKeys, KeyOf(discKey[..]))
    ensures chosen == ByDisc ==> now == if k1Memory && bigMemory then ByDisc else ByTitle
    ensures now == ByDisc ==> IsCracked(KeyAt(buffer[..], 0), true, true, 0, KeyOf(discKey[..]))
  {
    hide IsFixedPoint, Works, Candidate, Unmasked, ComesFirst, IsLeft;
    Unmask(busKey, buffer);
    ghost var s, bus := buffer[..], busKey[..];
    discKey := new bv8[5](_ => 0);
    now := chosen;
    var ret: int;
    match chosen {
      case ByKey =>
        ghost var player, slot;
        ret, player, slot := DecryptDiscKey(playerKeys, buffer, discKey);
        if ret == 0 {
          FirstIsFixedPoint(buffer[..], playerKeys, player, slot);
        } else {
          now := ByTitle;
        }
      case ByDisc =>
        forall i | 0 <= i < 5 { discKey[i] := buffer[i]; }
        assert KeyOf(discKey[..]) == KeyAt(buffer[..], 0);
        ret := CrackDiscKey(discKey, k1Memory, bigMemory);
        if ret != 0 {
          forall i | 0 <= i < 5 { discKey[i] := 0; }
          now := ByTitle;
        }
      case ByTitle =>
    }
    assert buffer[..] == s && busKey[..] == bus;
  }

  lemma FirstIsFixedPoint(s: seq<bv8>, players: seq<Key>, n: nat, i: nat)
    requires |s| == DISCKEY_SIZE && IsFirst(s, players, n, i)
    ensures IsFixedPoint(KeyAt(s, 0), Candidate(s, players[n], i))
    ensures !NoneWorks(s, players)
  {
    hide IsFixedPoint, Candidate;
  }
}
