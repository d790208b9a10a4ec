/** One authentication worked out byte by byte (GetBusKey and CryptKey in src/css.c): what crosses the
    interface between the host and a drive of variant 5, and the key of the bus they end with. */
module KnownSession {
  import opened CssTables
  import opened Combiner
  import opened KeyCipher
  import opened Handshake
  import opened HostAnswers

  // ---------------------------------------------------------------------------------------
  // The cipher without tables and branches
  // ---------------------------------------------------------------------------------------

  function LinkedRound(bits: Key, m: bv8, k: Key): Key {
    Key(Linked(k.b0, bits.b0, m, k.b1), Linked(k.b1, bits.b1, m, k.b2), Linked(k.b2, bits.b2, m, k.b3),
        Linked(k.b3, bits.b3, m, k.b4), Linked(k.b4, bits.b4, m, 0))
  }
  function TurnedKey(k: Key): Key { Key(Turned(k.b0), Turned(k.b1), Turned(k.b2), Turned(k.b3), Turned(k.b4)) }

  function Worked(seed: Key, m: bv8, input: Key): Key {
    var f0 := Five(Seeded(RegisterSeed(seed)));
    var f1 := Five(f0.1);
    var f2 := Five(f1.1);
    var f3 := Five(f2.1);
    var f4 := Five(f3.1);
    var f5 := Five(f4.1);
    var a := LinkedRound(f0.0, m, input);
    var b := LinkedRound(f1.0, m, Folded(a));
    var c := TurnedKey(LinkedRound(f2.0, m, Folded(b)));
    var d := TurnedKey(LinkedRound(f3.0, m, Folded(c)));
    var e := LinkedRound(f4.0, m, Folded(d));
    LinkedRound(f5.0, m, Folded(e))
  }

  lemma WorkedIsCrypted(seed: Key, m: bv8, input: Key)
    ensures Crypted(seed, m, input) == Worked(seed, m, input)
  {
    hide Chained, Linked, Turned, Combined02, Masked, Bits, Five, Folded, SeedGen;
    SeedBits(seed, 0);
    SeedBits(seed, 5);
    SeedBits(seed, 10);
    SeedBits(seed, 15);
    SeedBits(seed, 20);
    SeedBits(seed, 25);
    assert SeedGen(seed, 0) == Seeded(RegisterSeed(seed)) by { SeedStart(seed); }
    forall x, b, term ensures Chained(x, b, m, term) == Linked(x, b, m, term) { LinkedIsChained(x, b, m, term); }
    forall x ensures Combined02(x) == Turned(x) { TurnedIsCombined02(x); }
  }

  lemma SeedStart(seed: Key)
    ensures SeedGen(seed, 0) == Seeded(RegisterSeed(seed))
  {
    hide Seeded, RegisterSeed;
  }

  // ---------------------------------------------------------------------------------------
  // The session
  // ---------------------------------------------------------------------------------------

  // What the drive makes up
  const DRIVE_CHALLENGE: Challenge := [0x9e, 0x37, 0x79, 0xb9, 0x7f, 0x4a, 0x7c, 0x15, 0xf3, 0x9c]

  lemma Key1IsWorked()
    ensures Worked(Key(0x02, 0x09, 0x06, 0x04, 0x08), 0x11, Key(0x01, 0x03, 0x00, 0x07, 0x05))
         == Key(0xb1, 0x93, 0x74, 0xa2, 0x3e)
  {
  }
  lemma Key1IsKnown()
    ensures CryptedKey(0, 5, HOST_CHALLENGE) == Key(0xb1, 0x93, 0x74, 0xa2, 0x3e)
  {
    hide Crypted, Worked, SpreadMask, Variants, CryptTab2;
    var c: Challenge := HOST_CHALLENGE;
    FirstTypeUsesNoRow(5, c);
    Key1Mask();
    Key1Halves();
    WorkedIsCrypted(Key(0x02, 0x09, 0x06, 0x04, 0x08), 0x11, Key(0x01, 0x03, 0x00, 0x07, 0x05));
    Key1IsWorked();
  }
  lemma Key1Mask()
    ensures SpreadMask(ToByte(5)) == 0x11
  {
  }
  lemma Key1Halves()
    ensures Input(0, HOST_CHALLENGE) == Key(0x01, 0x03, 0x00, 0x07, 0x05)
    ensures Seed(0, HOST_CHALLENGE) == Key(0x02, 0x09, 0x06, 0x04, 0x08)
  {
  }

  lemma Key2IsWorked()
    ensures Worked(Key(0x4a, 0x15, 0x7f, 0x9e, 0x79), 0x21, Key(0x7c, 0x37, 0x9c, 0xb9, 0xf3))
         == Key(0xe4, 0x56, 0x31, 0xff, 0x0a)
  {
  }
  lemma Key2IsKnown()
    ensures CryptedKey(1, 5, DRIVE_CHALLENGE) == Key(0xe4, 0x56, 0x31, 0xff, 0x0a)
  {
    hide Crypted, Worked, SpreadMask, Variants, CryptTab2;
    var c: Challenge := DRIVE_CHALLENGE;
    SecondTypeUsesFirstRow(5, c);
    Key2Mask();
    Key2Halves();
    WorkedIsCrypted(Key(0x4a, 0x15, 0x7f, 0x9e, 0x79), 0x21, Key(0x7c, 0x37, 0x9c, 0xb9, 0xf3));
    Key2IsWorked();
  }
  lemma Key2Mask()
    ensures SpreadMask(FirstRow(ToByte(5))) == 0x21
  {
  }
  lemma Key2Halves()
    ensures Input(1, DRIVE_CHALLENGE) == Key(0x7c, 0x37, 0x9c, 0xb9, 0xf3)
    ensures Seed(1, DRIVE_CHALLENGE) == Key(0x4a, 0x15, 0x7f, 0x9e, 0x79)
  {
  }

  lemma BusIsWorked()
    ensures Worked(Key(0x74, 0xff, 0x56, 0x93, 0x0a), 0x24, Key(0x3e, 0xb1, 0xa2, 0xe4, 0x31))
         == Key(0x8d, 0xb9, 0xd4, 0x0b, 0x47)
  {
  }
  lemma BusIsKnown()
    ensures CryptedKey(2, 5, [0xb1, 0x93, 0x74, 0xa2, 0x3e, 0xe4, 0x56, 0x31, 0xff, 0x0a])
         == Key(0x8d, 0xb9, 0xd4, 0x0b, 0x47)
  {
    hide Crypted, Worked, SpreadMask, Variants, CryptTab2;
    var c: Challenge := [0xb1, 0x93, 0x74, 0xa2, 0x3e, 0xe4, 0x56, 0x31, 0xff, 0x0a];
    ThirdTypeUsesSecondRow(5, c);
    BusMask();
    BusHalves();
    WorkedIsCrypted(Key(0x74, 0xff, 0x56, 0x93, 0x0a), 0x24, Key(0x3e, 0xb1, 0xa2, 0xe4, 0x31));
    BusIsWorked();
  }
  lemma BusMask()
    ensures SpreadMask(SecondRow(ToByte(5))) == 0x24
  {
  }
  lemma BusHalves()
    ensures Input(2, [0xb1, 0x93, 0x74, 0xa2, 0x3e, 0xe4, 0x56, 0x31, 0xff, 0x0a]) == Key(0x3e, 0xb1, 0xa2, 0xe4, 0x31)
    ensures Seed(2, [0xb1, 0x93, 0x74, 0xa2, 0x3e, 0xe4, 0x56, 0x31, 0xff, 0x0a]) == Key(0x74, 0xff, 0x56, 0x93, 0x0a)
  {
  }

  // The buffers of a completed session with an honest drive
  ghost predicate HasBuffers(u: Unit, t: seq<Event>)
    requires IsCompleted(u.cipher, t)
  {
    && t[1].buffer == Reverse(HOST_CHALLENGE)
    && t[2].buffer == Reverse(u.Key1(HOST_CHALLENGE).Bytes())
    && t[3].buffer == Reverse(u.challenge)
    && t[4].buffer == Reverse(u.Key2().Bytes())
  }

  lemma SessionHasBuffers(u: Unit, t: seq<Event>)
    requires IsHonest(u, t) && IsCompleted(u.cipher, t) && IsAgreed(u, t)
    ensures HasBuffers(u, t)
  {
    hide FirstMatch, Reverse, HostBusKey, HostKey2;
    Key1Arrives(u, t);
    ReversedTwice(t[2].buffer);
    ReversedTwice(t[4].buffer);
    assert t[3].ChallengeGot?;
  }

  // What the host and this drive send each other, as it crosses the interface, last byte first; and the
  // key of the bus, first byte first
  datatype Transcript = Transcript(sent: seq<bv8>, key1: seq<bv8>, asked: seq<bv8>, key2: seq<bv8>, bus: Key)
  const KNOWN := Transcript(
    [9, 8, 7, 6, 5, 4, 3, 2, 1, 0],
    [0x3e, 0xa2, 0x74, 0x93, 0xb1],
    [0x9c, 0xf3, 0x15, 0x7c, 0x4a, 0x7f, 0xb9, 0x79, 0x37, 0x9e],
    [0x0a, 0xff, 0x31, 0x56, 0xe4],
    Key(0x8d, 0xb9, 0xd4, 0x0b, 0x47))

  ghost function TranscriptOf(u: Unit, t: seq<Event>): Transcript
    requires IsCompleted(u.cipher, t)
  {
    Transcript(t[1].buffer, t[2].buffer, t[3].buffer, t[4].buffer, HostBusKey(u.cipher, t[2].buffer, t[3].buffer))
  }

  lemma SessionIsKnown(u: Unit, t: seq<Event>)
    requires IsHonest(u, t) && IsCompleted(u.cipher, t) && u == Unit(CryptedKey, 5, DRIVE_CHALLENGE)
    ensures TranscriptOf(u, t) == KNOWN
  {
    hide CryptedKey, IsHonest, IsCompleted, FirstMatch, HostBusKey, HostKey2;
    LibraryAndDriveAgree(u, t);
    SessionHasBuffers(u, t);
    Key1IsKnown();
    Key2IsKnown();
    BusIsKnown();
    BusChallengeIs();
  }

  lemma BusChallengeIs()
    ensures Key(0xb1, 0x93, 0x74, 0xa2, 0x3e).Bytes() + Key(0xe4, 0x56, 0x31, 0xff, 0x0a).Bytes()
         == [0xb1, 0x93, 0x74, 0xa2, 0x3e, 0xe4, 0x56, 0x31, 0xff, 0x0a]
  {
  }
}
