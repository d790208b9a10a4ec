/** GetBusKey (src/css.c): mutual authentication of the host and the drive.

    The drive is an object whose every reply is a free choice; it records the calls it receives and
    the replies it gives. What a run of the protocol does is stated about that record. */
module Handshake {
  import opened Combiner
  import opened KeyCipher

  // A call to the drive and what it returned. Buffers are recorded as they cross the interface,
  // last byte first.
  datatype Event =
    | AgidAsked(ret: int, agid: int)
    | Invalidated(agid: int)
    | ChallengeSent(ret: int, agid: int, buffer: seq<bv8>)
    | Key1Got(ret: int, agid: int, buffer: seq<bv8>)
    | ChallengeGot(ret: int, agid: int, buffer: seq<bv8>)
    | Key2Sent(ret: int, agid: int, buffer: seq<bv8>)

  class Drive {
    var log: seq<Event>

    method ReportAgid() returns (ret: int, agid: int)
      modifies this
      ensures log == old(log) + [AgidAsked(ret, agid)]
    {
      ret, agid := *, *;
      log := log + [AgidAsked(ret, agid)];
    }

    method InvalidateAgid(agid: int)
      modifies this
      ensures log == old(log) + [Invalidated(agid)]
    {
      log := log + [Invalidated(agid)];
    }

    method SendChallenge(agid: int, buffer: array<bv8>) returns (ret: int)
      requires buffer.Length == 10
      modifies this
      ensures log == old(log) + [ChallengeSent(ret, agid, buffer[..])]
    {
      ret := *;
      log := log + [ChallengeSent(ret, agid, buffer[..])];
    }

    method ReportKey1(agid: int, buffer: array<bv8>) returns (ret: int)
      requires buffer.Length == 10
      modifies this, buffer
      ensures log == old(log) + [Key1Got(ret, agid, buffer[..5])]
    {
      ret := *;
      Fill(buffer, 5);
      log := log + [Key1Got(ret, agid, buffer[..5])];
    }

    method ReportChallenge(agid: int, buffer: array<bv8>) returns (ret: int)
      requires buffer.Length == 10
      modifies this, buffer
      ensures log == old(log) + [ChallengeGot(ret, agid, buffer[..])]
    {
      ret := *;
      Fill(buffer, 10);
      log := log + [ChallengeGot(ret, agid, buffer[..])];
    }

    method SendKey2(agid: int, buffer: array<bv8>) returns (ret: int)
      requires buffer.Length == 10
      modifies this
      ensures log == old(log) + [Key2Sent(ret, agid, buffer[..5])]
    {
      ret := *;
      log := log + [Key2Sent(ret, agid, buffer[..5])];
    }

    // Any bytes
    method Fill(buffer: array<bv8>, n: nat)
      requires n <= buffer.Length
      modifies buffer
      ensures buffer[n..] == old(buffer[n..])
    {
      for i := 0 to n
        invariant buffer[n..] == old(buffer[n..])
      {
        buffer[i] := *;
      }
    }
  }

  // ---------------------------------------------------------------------------------------
  // What the record of a session must look like
  // ---------------------------------------------------------------------------------------

  function Reverse(s: seq<bv8>): (r: seq<bv8>)
    ensures |r| == |s| && forall i :: 0 <= i < |s| ==> r[i] == s[|s| - 1 - i]
  {
    seq(|s|, i requires 0 <= i < |s| => s[|s| - 1 - i])
  }

  lemma ReversedTwice(s: seq<bv8>)
    ensures Reverse(Reverse(s)) == s
  {
  }

  // The challenge of the host, which any values would do for
  const HOST_CHALLENGE: Challenge := [0, 1, 2, 3, 4, 5, 6, 7, 8, 9]

  // The protocol is the same whatever cipher it uses; the library uses CryptKey.
  type Cipher = (KeyType, Variant, Challenge) -> Key

  // The first variant, from the given one on, that answers the host's challenge with this key; 32 if none does
  function FirstMatch(cipher: Cipher, key1: Key, from: nat): (v: nat)
    requires from <= 32
    ensures from <= v <= 32
    ensures v < 32 ==> cipher(0, v, HOST_CHALLENGE) == key1
    ensures forall w: Variant :: from <= w < v ==> cipher(0, w, HOST_CHALLENGE) != key1
    decreases 32 - from
  {
    if from == 32 || cipher(0, from, HOST_CHALLENGE) == key1 then from else FirstMatch(cipher, key1, from + 1)
  }

  // The host's second key and the key of the bus, from the two buffers that the drive sent
  function HostKey2(cipher: Cipher, key1: seq<bv8>, challenge: seq<bv8>): Key
    requires |key1| == 5 && |challenge| == 10 && FirstMatch(cipher, KeyOf(Reverse(key1)), 0) < 32
  {
    cipher(1, FirstMatch(cipher, KeyOf(Reverse(key1)), 0), Reverse(challenge))
  }
  function HostBusKey(cipher: Cipher, key1: seq<bv8>, challenge: seq<bv8>): Key
    requires |key1| == 5 && |challenge| == 10 && FirstMatch(cipher, KeyOf(Reverse(key1)), 0) < 32
  {
    cipher(2, FirstMatch(cipher, KeyOf(Reverse(key1)), 0), Reverse(key1) + HostKey2(cipher, key1, challenge).Bytes())
  }

  // The first events of a session, in their order and under one AGID
  ghost predicate IsExchange(cipher: Cipher, t: seq<Event>) {
    && 1 <= |t| <= 5
    && t[0].AgidAsked? && t[0].ret != -1
    && (|t| > 1 ==> t[1].ChallengeSent? && t[1].agid == t[0].agid && t[1].buffer == Reverse(HOST_CHALLENGE))
    && (|t| > 2 ==> t[2].Key1Got? && t[2].agid == t[0].agid && |t[2].buffer| == 5 && t[1].ret >= 0)
    && (|t| > 3 ==> t[3].ChallengeGot? && t[3].agid == t[0].agid && |t[3].buffer| == 10 && t[2].ret >= 0
                    && FirstMatch(cipher, KeyOf(Reverse(t[2].buffer)), 0) < 32)
    && (|t| > 4 ==> t[4].Key2Sent? && t[4].agid == t[0].agid && t[3].ret >= 0
                    && t[4].buffer == Reverse(HostKey2(cipher, t[2].buffer, t[3].buffer).Bytes()))
  }

  // All five calls were made and succeeded.
  ghost predicate IsCompleted(cipher: Cipher, t: seq<Event>) {
    IsExchange(cipher, t) && |t| == 5 && t[4].ret >= 0
  }

  // The session ended with this key of the bus.
  ghost predicate EndsWithBusKey(cipher: Cipher, t: seq<Event>, key: seq<bv8>) {
    IsCompleted(cipher, t) && |key| == 5 && KeyOf(key) == HostBusKey(cipher, t[2].buffer, t[3].buffer)
  }

  // A call failed, or no variant matches, and then the AGID was invalidated.
  ghost predicate IsAbandoned(cipher: Cipher, t: seq<Event>) {
    && 3 <= |t| && IsExchange(cipher, t[..|t| - 1])
    && t[|t| - 1] == Invalidated(t[0].agid)
    && (t[|t| - 2].ret < 0 || (|t| == 4 && FirstMatch(cipher, KeyOf(Reverse(t[2].buffer)), 0) == 32))
  }

  // Requests that failed, each followed by the invalidation of the next AGID in sequence
  ghost predicate IsRefusals(t: seq<Event>, n: nat) {
    && |t| == 2 * n
    && forall i :: 0 <= i < n ==> t[2 * i].AgidAsked? && t[2 * i].ret == -1 && t[2 * i + 1] == Invalidated(i)
  }

  // How often an AGID is invalidated
  function Invalidations(t: seq<Event>, agid: int): nat {
    if t == [] then 0 else Invalidations(t[..|t| - 1], agid) + if t[|t| - 1] == Invalidated(agid) then 1 else 0
  }

  lemma {:induction false} NoInvalidations(t: seq<Event>, agid: int)
    requires forall i :: 0 <= i < |t| ==> !t[i].Invalidated?
    ensures Invalidations(t, agid) == 0
  {
    if t != [] {
      NoInvalidations(t[..|t| - 1], agid);
    }
  }

  // Every failure after a grant gives back the AGID that was granted, once, and no other AGID.
  lemma AbandonedIsInvalidatedOnce(cipher: Cipher, t: seq<Event>, agid: int)
    requires IsAbandoned(cipher, t)
    ensures Invalidations(t, agid) == if agid == t[0].agid then 1 else 0
  {
    hide FirstMatch, HostKey2;
    NoInvalidations(t[..|t| - 1], agid);
  }

  // A session that succeeded keeps its AGID.
  lemma CompletedIsNeverInvalidated(cipher: Cipher, t: seq<Event>, agid: int)
    requires IsCompleted(cipher, t)
    ensures Invalidations(t, agid) == 0
  {
    hide FirstMatch, HostKey2;
    NoInvalidations(t, agid);
  }

  // ---------------------------------------------------------------------------------------
  // An honest drive
  // ---------------------------------------------------------------------------------------

  // A drive that knows the cipher: its variant and the challenge it has made up
  datatype Unit = Unit(cipher: Cipher, variant: Variant, challenge: Challenge) {
    // What the drive works out from the host's challenge, in the order of the cipher
    function Key1(host: Challenge): Key { cipher(0, variant, host) }
    function Key2(): Key { cipher(1, variant, challenge) }
    function BusKey(host: Challenge): Key { cipher(2, variant, Key1(host).Bytes() + Key2().Bytes()) }
  }

  // The replies in the record are those of this drive.
  ghost predicate IsHonest(u: Unit, t: seq<Event>) {
    && (forall i, j :: (0 <= i < j < |t| && t[i].ChallengeSent? && t[j].Key1Got? && t[j].ret >= 0
                        && |t[i].buffer| == 10) ==>
          t[j].buffer == Reverse(u.Key1(Reverse(t[i].buffer)).Bytes()))
    && (forall j :: 0 <= j < |t| && t[j].ChallengeGot? && t[j].ret >= 0 ==> t[j].buffer == Reverse(u.challenge))
  }

  // No smaller variant gives the same answer to the host.
  ghost predicate IsLeast(u: Unit) {
    forall w: Variant :: w < u.variant ==> u.cipher(0, w, HOST_CHALLENGE) != u.Key1(HOST_CHALLENGE)
  }

  lemma Key1Arrives(u: Unit, t: seq<Event>)
    requires IsHonest(u, t) && IsExchange(u.cipher, t) && 3 <= |t| && t[2].ret >= 0
    ensures Reverse(t[2].buffer) == u.Key1(HOST_CHALLENGE).Bytes()
  {
    ReversedTwice(HOST_CHALLENGE);
    ReversedTwice(u.Key1(HOST_CHALLENGE).Bytes());
    assert t[1].ChallengeSent? && t[2].Key1Got?;
  }

  // Some variant matches an honest answer, and the least one is found.
  lemma VariantIsFound(u: Unit, key1: Key)
    requires key1 == u.Key1(HOST_CHALLENGE)
    ensures FirstMatch(u.cipher, key1, 0) < 32
    ensures IsLeast(u) ==> FirstMatch(u.cipher, key1, 0) == u.variant
  {
    assert u.cipher(0, u.variant, HOST_CHALLENGE) == key1;
  }

  lemma KeyOfBytes(k: Key)
    ensures KeyOf(k.Bytes()) == k
  {
  }

  // Both sides hold the same key of the bus, and the host sent the very second key that the drive expects.
  lemma BothSidesAgree(u: Unit, t: seq<Event>)
    requires IsHonest(u, t) && IsCompleted(u.cipher, t) && IsLeast(u)
    ensures Reverse(t[4].buffer) == u.Key2().Bytes()
    ensures HostBusKey(u.cipher, t[2].buffer, t[3].buffer) == u.BusKey(HOST_CHALLENGE)
  {
    hide FirstMatch, IsLeast, Reverse;
    Key1Arrives(u, t);
    KeyOfBytes(u.Key1(HOST_CHALLENGE));
    VariantIsFound(u, u.Key1(HOST_CHALLENGE));
    assert t[3].ChallengeGot?;
    ReversedTwice(u.challenge);
    assert HostKey2(u.cipher, t[2].buffer, t[3].buffer) == u.Key2();
    ReversedTwice(u.Key2().Bytes());
  }

  // With an honest drive, a session is abandoned only because a call failed.
  lemma HonestDriveIsAuthenticated(u: Unit, t: seq<Event>)
    requires IsHonest(u, t) && IsAbandoned(u.cipher, t)
    ensures t[|t| - 2].ret < 0
  {
    hide FirstMatch, IsLeast, Reverse;
    if |t| == 4 && t[2].ret >= 0 {
      Key1Arrives(u, t[..3]);
      KeyOfBytes(u.Key1(HOST_CHALLENGE));
      VariantIsFound(u, u.Key1(HOST_CHALLENGE));
    }
  }

  // ---------------------------------------------------------------------------------------
  // The protocol
  // ---------------------------------------------------------------------------------------

  // The loops that turn a buffer around
  method CopyReversed(src: array<bv8>, dst: array<bv8>, n: nat)
    requires n <= src.Length && n <= dst.Length && src != dst
    modifies dst
    ensures dst[..n] == Reverse(old(src[..n]))
  {
    for i := 0 to n
      invariant forall j :: n - i <= j < n ==> dst[j] == src[n - 1 - j]
    {
      dst[n - 1 - i] := src[i];
    }
  }

  // The AGID of a session
  ghost function AgidOf(t: seq<Event>): int { if t == [] then -1 else t[0].agid }

  ghost predicate LastFailed(t: seq<Event>) { t != [] && !t[|t| - 1].Invalidated? && t[|t| - 1].ret < 0 }

  ghost predicate NoneMatches(cipher: Cipher, t: seq<Event>) {
    |t| == 3 && t[2].Key1Got? && |t[2].buffer| == 5 && FirstMatch(cipher, KeyOf(Reverse(t[2].buffer)), 0) == 32
  }

  // The first three calls succeeded and gave this key and this variant.
  ghost predicate IsAnswered(cipher: Cipher, t: seq<Event>, key1: seq<bv8>, v: nat) {
    && |t| == 3 && IsExchange(cipher, t) && t[2].ret >= 0
    && Reverse(t[2].buffer) == key1 && v < 32 && FirstMatch(cipher, KeyOf(key1), 0) == v
  }

  // Giving the AGID back after a failure
  lemma AbandonedAfter(cipher: Cipher, t: seq<Event>)
    requires 2 <= |t| && IsExchange(cipher, t)
    requires LastFailed(t) || NoneMatches(cipher, t)
    ensures IsAbandoned(cipher, t + [Invalidated(AgidOf(t))])
  {
    hide FirstMatch, Reverse, HostKey2;
    assert (t + [Invalidated(t[0].agid)])[..|t|] == t;
  }

  // The five steps of an exchange
  lemma ChallengeFollows(cipher: Cipher, granted: int, agid: int, r: int) returns (t: seq<Event>)
    requires granted != -1
    ensures t == [AgidAsked(granted, agid), ChallengeSent(r, agid, Reverse(HOST_CHALLENGE))]
    ensures IsExchange(cipher, t) && AgidOf(t) == agid && (r < 0 <==> LastFailed(t))
  {
    t := [AgidAsked(granted, agid), ChallengeSent(r, agid, Reverse(HOST_CHALLENGE))];
  }

  lemma Key1Follows(cipher: Cipher, t: seq<Event>, r: int, buffer: seq<bv8>) returns (s: seq<Event>)
    requires |t| == 2 && IsExchange(cipher, t) && !LastFailed(t) && |buffer| == 5
    ensures s == t + [Key1Got(r, AgidOf(t), buffer)]
    ensures IsExchange(cipher, s) && AgidOf(s) == AgidOf(t) && (r < 0 <==> LastFailed(s))
  {
    hide Reverse;
    s := t + [Key1Got(r, AgidOf(t), buffer)];
  }

  lemma Answer(cipher: Cipher, t: seq<Event>, key1: seq<bv8>, v: nat)
    requires |t| == 3 && IsExchange(cipher, t) && !LastFailed(t) && t[2].Key1Got? && key1 == Reverse(t[2].buffer)
    requires |key1| == 5 && v == FirstMatch(cipher, KeyOf(key1), 0)
    ensures v < 32 ==> IsAnswered(cipher, t, key1, v)
    ensures v == 32 ==> NoneMatches(cipher, t)
  {
    hide Reverse, FirstMatch;
  }

  lemma ChallengeArrives(cipher: Cipher, t: seq<Event>, key1: seq<bv8>, v: nat, r: int, buffer: seq<bv8>)
    returns (s: seq<Event>)
    requires IsAnswered(cipher, t, key1, v) && |buffer| == 10
    ensures |s| == 4 && s == t + [ChallengeGot(r, AgidOf(t), buffer)]
    ensures IsExchange(cipher, s) && AgidOf(s) == AgidOf(t) && (r < 0 <==> LastFailed(s))
  {
    hide Reverse, FirstMatch;
    s := t + [ChallengeGot(r, AgidOf(t), buffer)];
  }

  lemma Key2Follows(cipher: Cipher, t: seq<Event>, s: seq<Event>, key1: seq<bv8>, v: nat, buffer: seq<bv8>,
                    key2: seq<bv8>, r: int) returns (u: seq<Event>)
    requires IsAnswered(cipher, t, key1, v) && |buffer| == 10 && |key2| == 5
    requires |s| == |t| + 1 && s == t + [s[|t|]] && s[|t|].ChallengeGot? && s[|t|].buffer == buffer
    requires IsExchange(cipher, s) && !LastFailed(s)
    requires KeyOf(key2) == cipher(1, v, Reverse(buffer))
    ensures u == s + [Key2Sent(r, AgidOf(s), Reverse(key2))]
    ensures IsExchange(cipher, u) && AgidOf(u) == AgidOf(s) && (r < 0 <==> LastFailed(u))
    ensures forall key: seq<bv8> :: r >= 0 && |key| == 5 && KeyOf(key) == cipher(2, v, key1 + key2) ==>
              EndsWithBusKey(cipher, u, key)
  {
    hide Reverse, FirstMatch;
    BytesOfKey(key2);
    u := s + [Key2Sent(r, AgidOf(s), Reverse(key2))];
    assert s[2] == t[2];
    assert HostKey2(cipher, s[2].buffer, s[3].buffer) == KeyOf(key2);
  }

  lemma BytesOfKey(s: seq<bv8>)
    requires |s| == 5
    ensures KeyOf(s).Bytes() == s
  {
  }

  // The bytes 0 to 9
  method SetUpChallenge(challengeBytes: array<bv8>)
    requires challengeBytes.Length == 10
    modifies challengeBytes
    ensures challengeBytes[..] == HOST_CHALLENGE
  {
    for i := 0 to 10
      invariant forall j :: 0 <= j < i ==> challengeBytes[j] == HOST_CHALLENGE[j]
    {
      challengeBytes[i] := ToByte(i);
    }
  }

  // The loop over all variants
  method FindVariant(challengeBytes: array<bv8>, key1Bytes: array<bv8>) returns (i: nat)
    requires challengeBytes.Length == 10 && challengeBytes[..] == HOST_CHALLENGE && key1Bytes.Length == 5
    ensures i == FirstMatch(CryptedKey, KeyOf(key1Bytes[..]), 0)
  {
    hide CryptedKey;
    var check := new bv8[5];
    i := 0;
    while i < 32
      invariant 0 <= i <= 32
      invariant FirstMatch(CryptedKey, KeyOf(key1Bytes[..]), 0) == FirstMatch(CryptedKey, KeyOf(key1Bytes[..]), i)
      decreases 32 - i
    {
      CryptKey(0, i, challengeBytes, check);
      EqualBytesAreEqualKeys(check[..], key1Bytes[..]);
      if check[..] == key1Bytes[..] {
        return;
      }
      i := i + 1;
    }
  }

  lemma EqualBytesAreEqualKeys(s: seq<bv8>, t: seq<bv8>)
    requires |s| == 5 && |t| == 5
    ensures s == t <==> KeyOf(s) == KeyOf(t)
  {
    if KeyOf(s) == KeyOf(t) {
      assert s[0] == t[0] && s[1] == t[1] && s[2] == t[2] && s[3] == t[3] && s[4] == t[4];
    }
  }

  // The second key answers the challenge in buffer and takes its place there.
  method MakeKey2(variant: Variant, buffer: array<bv8>, challengeBytes: array<bv8>, key2Bytes: array<bv8>)
    requires buffer.Length == 10 && challengeBytes.Length == 10 && key2Bytes.Length == 5
    requires buffer != challengeBytes && buffer != key2Bytes && challengeBytes != key2Bytes
    modifies buffer, challengeBytes, key2Bytes
    ensures KeyOf(key2Bytes[..]) == CryptedKey(1, variant, Reverse(old(buffer[..])))
    ensures buffer[..5] == Reverse(key2Bytes[..])
  {
    hide CryptedKey, Reverse;
    assert buffer[..10] == buffer[..];
    CopyReversed(buffer, challengeBytes, 10);
    assert challengeBytes[..10] == challengeBytes[..];
    CryptKey(1, variant, challengeBytes, key2Bytes);
    assert key2Bytes[..5] == key2Bytes[..];
    CopyReversed(key2Bytes, buffer, 5);
  }

  // The two copies that make the last challenge
  method Concatenate(key1Bytes: array<bv8>, key2Bytes: array<bv8>, challengeBytes: array<bv8>)
    requires key1Bytes.Length == 5 && key2Bytes.Length == 5 && challengeBytes.Length == 10
    requires challengeBytes != key1Bytes && challengeBytes != key2Bytes
    modifies challengeBytes
    ensures challengeBytes[..] == key1Bytes[..] + key2Bytes[..]
  {
    forall i | 0 <= i < 5 { challengeBytes[i] := key1Bytes[i]; }
    forall i | 0 <= i < 5 { challengeBytes[5 + i] := key2Bytes[i]; }
  }

  // The part of a dvdcss_t that holds the state of the authentication
  class Css {
    const drive: Drive
    var agid: int
    const busKey: array<bv8>

    constructor (d: Drive)
      ensures drive == d && fresh(busKey) && busKey.Length == 5
    {
      drive := d;
      agid := 0;
      busKey := new bv8[5](_ => 0);
    }

    // Asks for an AGID, invalidating up to four of them on the way.
    method AcquireAgid() returns (ret: int, ghost refusals: seq<Event>)
      modifies this`agid, drive
      ensures |refusals| <= 8 && IsRefusals(refusals, |refusals| / 2)
      ensures drive.log == old(drive.log) + refusals + [AgidAsked(ret, agid)]
      ensures ret == -1 ==> |refusals| == 8
    {
      ret, agid := drive.ReportAgid();
      refusals := [];
      var i := 0;
      while ret == -1 && i < 4
        invariant 0 <= i <= 4 && |refusals| == 2 * i && IsRefusals(refusals, i)
        invariant drive.log == old(drive.log) + refusals + [AgidAsked(ret, agid)]
      {
        refusals := refusals + [AgidAsked(ret, agid), Invalidated(i)];
        agid := i;
        drive.InvalidateAgid(agid);
        assert drive.log == old(drive.log) + refusals;
        ret, agid := drive.ReportAgid();
        i := i + 1;
      }
    }

    // GetBusKey. The result is 0 exactly when the whole exchange went through; only then is the key
    // of the bus written. After a failure the AGID, if one was granted, has been given back.
    method GetBusKey() returns (ret: int, ghost refusals: seq<Event>, ghost session: seq<Event>)
      requires busKey.Length == 5
      modifies this`agid, drive, busKey
      ensures drive.log == old(drive.log) + refusals + session
      ensures |refusals| <= 8 && IsRefusals(refusals, |refusals| / 2)
      ensures ret == 0 || ret == -1
      ensures ret == 0 ==> EndsWithBusKey(CryptedKey, session, busKey[..])
      ensures ret == -1 ==> busKey[..] == old(busKey[..])
      ensures ret == -1 ==> IsAbandoned(CryptedKey, session) || (|refusals| == 8 && session == [AgidAsked(-1, agid)])
    {
      hide CryptedKey, EndsWithBusKey, IsAbandoned;
      ret, refusals := AcquireAgid();
      session := [AgidAsked(ret, agid)];
      if ret == -1 {
        return;
      }
      ghost var before := drive.log[..|drive.log| - 1];
      ret, session := Converse(before, ret);
    }

    // The part of GetBusKey after the grant
    method Converse(ghost before: seq<Event>, granted: int) returns (ret: int, ghost session: seq<Event>)
      requires busKey.Length == 5
      requires granted != -1 && drive.log == before + [AgidAsked(granted, agid)]
      modifies drive, busKey
      ensures drive.log == before + session
      ensures ret == 0 || ret == -1
      ensures ret == 0 ==> EndsWithBusKey(CryptedKey, session, busKey[..])
      ensures ret == -1 ==> busKey[..] == old(busKey[..]) && IsAbandoned(CryptedKey, session)
    {
      hide *;
      var key1Bytes := new bv8[5];
      var variant;
      variant, session := AskDrive(before, granted, key1Bytes);
      if variant == 32 {
        return -1, session;
      }
      ret, session := AnswerDrive(before, session, variant, key1Bytes);
    }

    // The exits that give the AGID back
    method GiveUp(ghost before: seq<Event>, ghost t: seq<Event>) returns (ghost session: seq<Event>)
      requires drive.log == before + t && 2 <= |t| && IsExchange(CryptedKey, t) && AgidOf(t) == agid
      requires LastFailed(t) || NoneMatches(CryptedKey, t)
      modifies drive
      ensures drive.log == before + session && IsAbandoned(CryptedKey, session)
    {
      hide *;
      drive.InvalidateAgid(agid);
      AbandonedAfter(CryptedKey, t);
      session := t + [Invalidated(agid)];
    }

    // Sends the challenge and looks for the variant that the drive answers with.
    method AskDrive(ghost before: seq<Event>, granted: int, key1Bytes: array<bv8>)
      returns (variant: nat, ghost session: seq<Event>)
      requires key1Bytes.Length == 5 && granted != -1 && drive.log == before + [AgidAsked(granted, agid)]
      modifies drive, key1Bytes
      ensures drive.log == before + session && variant <= 32
      ensures variant < 32 ==> IsAnswered(CryptedKey, session, key1Bytes[..], variant) && AgidOf(session) == agid
      ensures variant == 32 ==> IsAbandoned(CryptedKey, session)
    {
      hide *;
      var buffer, challengeBytes := new bv8[10], new bv8[10];
      SetUpChallenge(challengeBytes);
      assert challengeBytes[..10] == challengeBytes[..];
      CopyReversed(challengeBytes, buffer, 10);
      assert buffer[..10] == buffer[..];
      var r := drive.SendChallenge(agid, buffer);
      session := ChallengeFollows(CryptedKey, granted, agid, r);
      assert drive.log == before + session;
      if r < 0 {
        session := GiveUp(before, session);
        return 32, session;
      }
      r := drive.ReportKey1(agid, buffer);
      session := Key1Follows(CryptedKey, session, r, buffer[..5]);
      assert drive.log == before + session;
      if r < 0 {
        session := GiveUp(before, session);
        return 32, session;
      }
      CopyReversed(buffer, key1Bytes, 5);
      assert key1Bytes[..5] == key1Bytes[..];
      variant := FindVariant(challengeBytes, key1Bytes);
      Answer(CryptedKey, session, key1Bytes[..], variant);
      if variant == 32 {
        session := GiveUp(before, session);
      }
    }

    // Answers the challenge of the drive and works out the key of the bus.
    method AnswerDrive(ghost before: seq<Event>, ghost answered: seq<Event>, variant: nat, key1Bytes: array<bv8>)
      returns (ret: int, ghost session: seq<Event>)
      requires busKey.Length == 5 && key1Bytes.Length == 5 && variant < 32 && key1Bytes != busKey
      requires drive.log == before + answered && AgidOf(answered) == agid
      requires IsAnswered(CryptedKey, answered, key1Bytes[..], variant)
      modifies drive, busKey
      ensures drive.log == before + session
      ensures ret == 0 || ret == -1
      ensures ret == 0 ==> EndsWithBusKey(CryptedKey, session, busKey[..])
      ensures ret == -1 ==> busKey[..] == old(busKey[..]) && IsAbandoned(CryptedKey, session)
    {
      hide *;
      var buffer, challengeBytes, key2Bytes := new bv8[10], new bv8[10], new bv8[5];
      var r := drive.ReportChallenge(agid, buffer);
      session := ChallengeArrives(CryptedKey, answered, key1Bytes[..], variant, r, buffer[..]);
      assert drive.log == before + session;
      if r < 0 {
        session := GiveUp(before, session);
        return -1, session;
      }
      ghost var arrived := buffer[..];
      MakeKey2(variant, buffer, challengeBytes, key2Bytes);
      r := drive.SendKey2(agid, buffer);
      session := Key2Follows(CryptedKey, answered, session, key1Bytes[..], variant, arrived, key2Bytes[..], r);
      assert drive.log == before + session;
      if r < 0 {
        session := GiveUp(before, session);
        return -1, session;
      }
      Concatenate(key1Bytes, key2Bytes, challengeBytes);
      CryptKey(2, variant, challengeBytes, busKey);
      ret := 0;
    }
  }
}
