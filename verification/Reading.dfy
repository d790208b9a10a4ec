/** dvdcss_read and dvdcss_readv (src/libdvdcss.c): reading blocks and descrambling them in place, in
    one buffer or scattered over several.

    The raw read of the device is a free choice, any number of blocks and any bytes, and the device
    records what it delivered. */
module Reading {
  import opened Combiner
  import opened Sector

  // ---------------------------------------------------------------------------------------
  // A run of blocks
  // ---------------------------------------------------------------------------------------

  function Block(s: seq<bv8>, i: nat): SectorBytes
    requires BLOCK_SIZE * (i + 1) <= |s|
  {
    s[BLOCK_SIZE * i..BLOCK_SIZE * (i + 1)]
  }

  // The bytes with block i replaced
  function WithBlock(s: seq<bv8>, i: nat, b: SectorBytes): (r: seq<bv8>)
    requires BLOCK_SIZE * (i + 1) <= |s|
    ensures |r| == |s| && Block(r, i) == b
    ensures forall j :: 0 <= j < |s| && !(BLOCK_SIZE * i <= j < BLOCK_SIZE * (i + 1)) ==> r[j] == s[j]
  {
    s[..BLOCK_SIZE * i] + b + s[BLOCK_SIZE * (i + 1)..]
  }

  // The bytes with the first n blocks descrambled
  function DescrambledBlocks(key: Key, s: seq<bv8>, n: nat): (r: seq<bv8>)
    requires BLOCK_SIZE * n <= |s|
    ensures |r| == |s| && r[BLOCK_SIZE * n..] == s[BLOCK_SIZE * n..]
    decreases n
  {
    if n == 0 then s
    else WithBlock(DescrambledBlocks(key, s, n - 1), n - 1, Descrambled(key, Block(s, n - 1)))
  }

  // Every block on its own
  lemma {:induction false} BlockOfDescrambled(key: Key, s: seq<bv8>, n: nat, i: nat)
    requires BLOCK_SIZE * n <= |s| && BLOCK_SIZE * (i + 1) <= |s|
    ensures Block(DescrambledBlocks(key, s, n), i) == if i < n then Descrambled(key, Block(s, i)) else Block(s, i)
  {
    hide Descrambled;
    if n > 0 {
      BlockOfDescrambled(key, s, n - 1, i);
      var was, now := DescrambledBlocks(key, s, n - 1), DescrambledBlocks(key, s, n);
      if i != n - 1 {
        assert Block(now, i) == Block(was, i);
      }
    }
  }

  // Two runs that have the same blocks and the same tail are the same.
  lemma SameBlocks(s: seq<bv8>, t: seq<bv8>, n: nat)
    requires |s| == |t| && BLOCK_SIZE * n <= |s| && s[BLOCK_SIZE * n..] == t[BLOCK_SIZE * n..]
    requires forall i :: 0 <= i < n ==> Block(s, i) == Block(t, i)
    ensures s == t
  {
    forall j | 0 <= j < |s| ensures s[j] == t[j] {
      if j < BLOCK_SIZE * n {
        var i := j / BLOCK_SIZE;
        assert Block(s, i)[j - BLOCK_SIZE * i] == Block(t, i)[j - BLOCK_SIZE * i];
      } else {
        assert s[BLOCK_SIZE * n..][j - BLOCK_SIZE * n] == t[BLOCK_SIZE * n..][j - BLOCK_SIZE * n];
      }
    }
  }

  // Descrambling what is descrambled already changes nothing, whatever the key.
  lemma DescrambledBlocksOnce(key: Key, other: Key, s: seq<bv8>, n: nat)
    requires BLOCK_SIZE * n <= |s|
    ensures DescrambledBlocks(other, DescrambledBlocks(key, s, n), n) == DescrambledBlocks(key, s, n)
  {
    hide Descrambled, DescrambledBlocks, Block;
    var t := DescrambledBlocks(key, s, n);
    forall i | 0 <= i < n ensures Block(DescrambledBlocks(other, t, n), i) == Block(t, i) {
      BlockOfDescrambled(other, t, n, i);
      BlockOfDescrambled(key, s, n, i);
      DescrambledOnce(key, other, Block(s, i));
    }
    SameBlocks(DescrambledBlocks(other, t, n), t, n);
  }

  // ---------------------------------------------------------------------------------------
  // What the two calls leave in memory
  // ---------------------------------------------------------------------------------------

  function ReadResult(descrambling: bool, key: Key, raw: seq<bv8>, ret: int): seq<bv8>
    requires BLOCK_SIZE * ret <= |raw|
  {
    if ret <= 0 || !descrambling || key == NO_KEY then raw else DescrambledBlocks(key, raw, ret)
  }

  function ReadvResult(descrambling: bool, key: Key, raw: seq<bv8>, ret: int): seq<bv8>
    requires BLOCK_SIZE * ret <= |raw|
  {
    if ret <= 0 || !descrambling then raw else DescrambledBlocks(key, raw, ret)
  }

  // Bits 0x70 of byte 0x14, the ones that a descrambled block has cleared
  predicate HasClearBits(b: SectorBytes) { b[0x14] & 0x70 == 0 }

  // Descrambling leaves a block as it is exactly if it has those bits clear.
  lemma UnchangedExactly(key: Key, b: SectorBytes)
    ensures Descrambled(key, b) == b <==> HasClearBits(b)
  {
    hide Pad, Decode;
    UnscrambledKeepsHeader(key, b);
    MaskBits(b[0x14]);
    assert Descrambled(key, b)[0x14] == b[0x14] & 0x8f;
    if HasClearBits(b) {
      assert !IsScrambled(b);
      assert b[0x14 := b[0x14]] == b;
    }
  }

  lemma UnscrambledKeepsHeader(key: Key, b: SectorBytes)
    ensures Unscrambled(key, b)[0x14] == b[0x14]
  {
    hide Pad, Decode;
  }

  lemma MaskBits(x: bv8)
    ensures x & 0x8f == x <==> x & 0x70 == 0
    ensures x & 0x70 == 0 ==> x & 0x30 == 0
  {
  }

  // The scattered read gives what the contiguous read gives for every real key. The first does not
  // look for the all-zero key, so with that key they agree exactly if no block that was read has
  // anything to clear.
  lemma ScatteredIsContiguous(descrambling: bool, key: Key, raw: seq<bv8>, ret: int)
    requires BLOCK_SIZE * ret <= |raw|
    ensures ReadvResult(descrambling, key, raw, ret) == ReadResult(descrambling, key, raw, ret) <==>
            (!descrambling || key != NO_KEY || forall i :: 0 <= i < ret ==> HasClearBits(Block(raw, i)))
  {
    hide DescrambledBlocks, Descrambled, HasClearBits, Block;
    if ret > 0 && descrambling && key == NO_KEY {
      var t := DescrambledBlocks(key, raw, ret);
      forall i | 0 <= i < ret ensures Block(t, i) == Block(raw, i) <==> HasClearBits(Block(raw, i)) {
        BlockOfDescrambled(key, raw, ret, i);
        UnchangedExactly(key, Block(raw, i));
      }
      if forall i :: 0 <= i < ret ==> HasClearBits(Block(raw, i)) {
        SameBlocks(t, raw, ret);
      }
    }
  }

  // One block with its scrambling bits set is enough for them to differ.
  lemma ScatteredNeedNotBeContiguous() returns (raw: seq<bv8>)
    ensures |raw| == BLOCK_SIZE && ReadvResult(true, NO_KEY, raw, 1) != ReadResult(true, NO_KEY, raw, 1)
  {
    hide DescrambledBlocks, Descrambled;
    raw := seq(BLOCK_SIZE, i => if i == 0x14 then 0x30 else 0);
    ScatteredIsContiguous(true, NO_KEY, raw, 1);
    assert Block(raw, 0)[0x14] == 0x30;
    assert !HasClearBits(Block(raw, 0));
  }

  // With a real key every block that was read is descrambled on its own, and the rest stays raw.
  lemma EveryBlockIsDescrambled(key: Key, raw: seq<bv8>, ret: nat, i: nat)
    requires 2048 * ret <= |raw| && key != NO_KEY
    ensures |ReadResult(true, key, raw, ret)| == |raw|
    ensures i < ret ==> ReadResult(true, key, raw, ret)[2048 * i..2048 * i + 2048]
                        == Descrambled(key, raw[2048 * i..2048 * i + 2048])
    ensures ReadResult(true, key, raw, ret)[2048 * ret..] == raw[2048 * ret..]
  {
    hide Descrambled, DescrambledBlocks;
    if i < ret { BlockOfDescrambled(key, raw, ret, i); }
  }

  // ---------------------------------------------------------------------------------------
  // Reading into one buffer
  // ---------------------------------------------------------------------------------------

  // Descrambles the block at a position of a buffer.
  method DescrambleAt(key: Key, buffer: array<bv8>, at: nat)
    requires at + BLOCK_SIZE <= buffer.Length
    modifies buffer
    ensures buffer[..] == old(buffer[..at]) + Descrambled(key, old(buffer[at..at + BLOCK_SIZE]))
                          + old(buffer[at + BLOCK_SIZE..])
  {
    hide Unscrambled;
    ghost var u := Unscrambled(key, buffer[at..at + BLOCK_SIZE]);
    ghost var was := buffer[..];
    Unscramble(key, buffer, at);
    assert buffer[at + 0x14] == u[0x14];
    buffer[at + 0x14] := buffer[at + 0x14] & 0x8f;
    assert buffer[..] == was[..at] + Cleared(u) + was[at + BLOCK_SIZE..];
  }

  // One raw read: the number of blocks asked for, the number that came or an error, and the memory as
  // the device left it
  datatype Delivery = Delivery(asked: nat, count: int, bytes: seq<bv8>)

  // The raw read functions of a device
  class Device {
    ghost var log: seq<Delivery>

    // pf_read
    method PfRead(buffer: array<bv8>, blocks: nat) returns (ret: int)
      requires BLOCK_SIZE * blocks <= buffer.Length
      modifies this, buffer
      ensures ret <= blocks && log == old(log) + [Delivery(blocks, ret, buffer[..])]
      ensures buffer[BLOCK_SIZE * blocks..] == old(buffer[BLOCK_SIZE * blocks..])
    {
      for j := 0 to BLOCK_SIZE * blocks
        invariant log == old(log) && buffer[BLOCK_SIZE * blocks..] == old(buffer[BLOCK_SIZE * blocks..])
      {
        buffer[j] := *;
      }
      ret := *;
      if ret > blocks {
        ret := blocks;
      }
      log := log + [Delivery(blocks, ret, buffer[..])];
    }

    // pf_readv
    method PfReadv(iov: seq<array<bv8>>, blocks: nat) returns (ret: int)
      modifies this, iov
      ensures ret <= blocks && log == old(log) + [Delivery(blocks, ret, Concat(Pieces(iov)))]
    {
      for k := 0 to |iov|
        invariant log == old(log)
      {
        for j := 0 to iov[k].Length
          invariant log == old(log)
        {
          iov[k][j] := *;
        }
      }
      ret := *;
      if ret > blocks {
        ret := blocks;
      }
      log := log + [Delivery(blocks, ret, Concat(Pieces(iov)))];
    }
  }

  // The part of a dvdcss_t that reading uses
  class Dvdcss {
    const device: Device
    var scrambled: bool
    var titleKey: Key

    constructor (d: Device)
      ensures device == d
    {
      device := d;
      scrambled, titleKey := false, NO_KEY;
    }

    // dvdcss_read. The device is read once; its count is the result, and the buffer ends with the
    // descrambled form of what it left there. The warning is the message about an encrypted block
    // without a key.
    method Read(buffer: array<bv8>, blocks: nat, decrypt: bool) returns (ret: int, warned: bool, ghost raw: seq<bv8>)
      requires BLOCK_SIZE * blocks <= buffer.Length
      modifies device, buffer
      ensures device.log == old(device.log) + [Delivery(blocks, ret, raw)]
      ensures ret <= blocks && |raw| == buffer.Length
      ensures raw[BLOCK_SIZE * blocks..] == old(buffer[BLOCK_SIZE * blocks..])
      ensures buffer[..] == ReadResult(scrambled && decrypt, titleKey, raw, ret)
      ensures warned <==> scrambled && decrypt && titleKey == NO_KEY &&
                          exists i :: 0 <= i < ret && IsScrambled(Block(raw, i))
    {
      hide DescrambledBlocks, Descrambled;
      ret := device.PfRead(buffer, blocks);
      raw := buffer[..];
      warned := false;
      if ret <= 0 || !scrambled || !decrypt {
        return;
      }
      if titleKey == NO_KEY {
        warned := FindScrambled(buffer, ret);
      } else {
        DescrambleAll(buffer, ret);
      }
    }

    // Checks that there are no encrypted blocks.
    method FindScrambled(buffer: array<bv8>, ret: nat) returns (found: bool)
      requires BLOCK_SIZE * ret <= buffer.Length
      ensures found <==> exists i :: 0 <= i < ret && IsScrambled(Block(buffer[..], i))
    {
      var index, at := ret, 0;
      while index != 0
        invariant 0 <= index <= ret && at == BLOCK_SIZE * (ret - index)
        invariant forall i :: 0 <= i < ret - index ==> !IsScrambled(Block(buffer[..], i))
      {
        assert buffer[at + 0x14] == Block(buffer[..], ret - index)[0x14];
        if buffer[at + 0x14] & 0x30 != 0 {
          return true;
        }
        at := at + BLOCK_SIZE;
        index := index - 1;
      }
      found := false;
    }

    // Decrypts the blocks that were read.
    method DescrambleAll(buffer: array<bv8>, ret: nat)
      requires BLOCK_SIZE * ret <= buffer.Length
      modifies buffer
      ensures buffer[..] == DescrambledBlocks(titleKey, old(buffer[..]), ret)
    {
      hide Descrambled, DescrambledBlocks;
      ghost var raw := buffer[..];
      assert DescrambledBlocks(titleKey, raw, 0) == raw by { NoneDescrambled(titleKey, raw); }
      var index, at := ret, 0;
      while index != 0
        invariant 0 <= index <= ret && at == BLOCK_SIZE * (ret - index)
        invariant buffer[..] == DescrambledBlocks(titleKey, raw, ret - index)
      {
        ghost var n := ret - index;
        ghost var was := buffer[..];
        DescrambleAt(titleKey, buffer, at);
        NextBlock(titleKey, raw, n, was, buffer[..]);
        at := at + BLOCK_SIZE;
        index := index - 1;
      }
    }
  }

  // Descrambling the next block in place
  lemma NextBlock(key: Key, raw: seq<bv8>, n: nat, was: seq<bv8>, now: seq<bv8>)
    requires BLOCK_SIZE * (n + 1) <= |raw| == |was| && was == DescrambledBlocks(key, raw, n)
    requires now == was[..BLOCK_SIZE * n] + Descrambled(key, was[BLOCK_SIZE * n..BLOCK_SIZE * n + BLOCK_SIZE])
                    + was[BLOCK_SIZE * n + BLOCK_SIZE..]
    ensures now == DescrambledBlocks(key, raw, n + 1)
  {
    hide Descrambled, DescrambledBlocks;
    SameBlockBeyond(key, raw, n);
  }

  // The next block is still raw.
  lemma SameBlockBeyond(key: Key, raw: seq<bv8>, n: nat)
    requires BLOCK_SIZE * (n + 1) <= |raw|
    ensures Block(DescrambledBlocks(key, raw, n), n) == Block(raw, n)
    ensures DescrambledBlocks(key, raw, n + 1)
         == WithBlock(DescrambledBlocks(key, raw, n), n, Descrambled(key, Block(raw, n)))
  {
    hide Descrambled;
    BlockOfDescrambled(key, raw, n, n);
  }

  // ---------------------------------------------------------------------------------------
  // Reading into several buffers
  // ---------------------------------------------------------------------------------------

  // The bytes of several pieces, one after the other, and the number of those before piece k
  function Concat(pieces: seq<seq<bv8>>): seq<bv8> {
    if pieces == [] then [] else pieces[0] + Concat(pieces[1..])
  }
  function Before(pieces: seq<seq<bv8>>, k: nat): nat
    requires k <= |pieces|
  {
    if k == 0 then 0 else |pieces[0]| + Before(pieces[1..], k - 1)
  }

  lemma {:induction false} PieceInConcat(pieces: seq<seq<bv8>>, k: nat)
    requires k < |pieces|
    ensures Before(pieces, k + 1) == Before(pieces, k) + |pieces[k]| <= |Concat(pieces)|
    ensures Concat(pieces)[Before(pieces, k)..Before(pieces, k + 1)] == pieces[k]
  {
    if k > 0 {
      PieceInConcat(pieces[1..], k - 1);
      assert Concat(pieces)[Before(pieces, k)..Before(pieces, k + 1)]
          == Concat(pieces[1..])[Before(pieces[1..], k - 1)..Before(pieces[1..], k)];
    }
  }

  lemma {:induction false} WholeConcat(pieces: seq<seq<bv8>>)
    ensures Before(pieces, |pieces|) == |Concat(pieces)|
  {
    if pieces != [] {
      WholeConcat(pieces[1..]);
    }
  }

  // Changing one piece changes its stretch of the bytes and nothing else.
  lemma {:induction false} ConcatUpdated(pieces: seq<seq<bv8>>, k: nat, p: seq<bv8>)
    requires k < |pieces| && |p| == |pieces[k]|
    ensures Before(pieces, k) + |p| <= |Concat(pieces)|
    ensures Concat(pieces[k := p])
         == Concat(pieces)[..Before(pieces, k)] + p + Concat(pieces)[Before(pieces, k) + |p|..]
  {
    PieceInConcat(pieces, k);
    var changed := pieces[k := p];
    if k == 0 {
      assert changed[1..] == pieces[1..];
    } else {
      var rest, at := Concat(pieces[1..]), Before(pieces[1..], k - 1);
      ConcatUpdated(pieces[1..], k - 1, p);
      assert changed[1..] == pieces[1..][k - 1 := p];
      assert Concat(changed) == pieces[0] + (rest[..at] + p + rest[at + |p|..]);
      Prepended(pieces[0], rest, at, p);
    }
  }

  lemma Prepended(head: seq<bv8>, rest: seq<bv8>, at: nat, p: seq<bv8>)
    requires at + |p| <= |rest|
    ensures head + (rest[..at] + p + rest[at + |p|..])
         == (head + rest)[..|head| + at] + p + (head + rest)[|head| + at + |p|..]
  {
  }

  // A whole block within one piece, replaced
  lemma BlockInPiece(pieces: seq<seq<bv8>>, k: nat, off: nat, n: nat, b: SectorBytes)
    requires k < |pieces| && off + BLOCK_SIZE <= |pieces[k]| && Before(pieces, k) + off == BLOCK_SIZE * n
    ensures BLOCK_SIZE * (n + 1) <= |Concat(pieces)|
    ensures Block(Concat(pieces), n) == pieces[k][off..off + BLOCK_SIZE]
    ensures Concat(pieces[k := pieces[k][..off] + b + pieces[k][off + BLOCK_SIZE..]]) == WithBlock(Concat(pieces), n, b)
  {
    hide Concat, Before;
    var all, at, piece := Concat(pieces), Before(pieces, k), pieces[k];
    PieceInConcat(pieces, k);
    Splice(all, at, at + |piece|, off, b);
    ConcatUpdated(pieces, k, piece[..off] + b + piece[off + BLOCK_SIZE..]);
  }

  lemma Splice(all: seq<bv8>, from: nat, to: nat, off: nat, b: SectorBytes)
    requires from + off + BLOCK_SIZE <= to <= |all|
    ensures all[from..to][off..off + BLOCK_SIZE] == all[from + off..from + off + BLOCK_SIZE]
    ensures all[..from] + (all[from..to][..off] + b + all[from..to][off + BLOCK_SIZE..]) + all[to..]
         == all[..from + off] + b + all[from + off + BLOCK_SIZE..]
  {
    var inner, outer := all[from..to][off..off + BLOCK_SIZE], all[from + off..from + off + BLOCK_SIZE];
    assert forall j :: 0 <= j < BLOCK_SIZE ==> inner[j] == outer[j];
    assert all[..from] + all[from..to][..off] == all[..from + off];
    assert all[from..to][off + BLOCK_SIZE..] + all[to..] == all[from + off + BLOCK_SIZE..];
  }

  // The buffers of an iovec array. Each has its own memory.
  ghost predicate AreDistinct(iov: seq<array<bv8>>) {
    forall i, j :: 0 <= i < j < |iov| ==> iov[i] != iov[j]
  }

  ghost function Pieces(iov: seq<array<bv8>>): (r: seq<seq<bv8>>)
    reads iov
    ensures |r| == |iov| && forall i :: 0 <= i < |iov| ==> r[i] == iov[i][..]
  {
    seq(|iov|, i requires 0 <= i < |iov| reads iov => iov[i][..])
  }

  lemma {:induction false} SameLengths(p: seq<seq<bv8>>, q: seq<seq<bv8>>, k: nat)
    requires |p| == |q| && k <= |p| && forall i :: 0 <= i < |p| ==> |p[i]| == |q[i]|
    ensures Before(p, k) == Before(q, k) && |Concat(p)| == |Concat(q)|
  {
    if p != [] {
      SameLengths(p[1..], q[1..], if k == 0 then 0 else k - 1);
    }
  }

  // A buffer that is used up is not the last one as long as a block is missing.
  lemma MoreBuffers(pieces: seq<seq<bv8>>, v: nat, n: nat)
    requires v < |pieces| && BLOCK_SIZE * (n + 1) <= |Concat(pieces)|
    requires Before(pieces, v) + |pieces[v]| == BLOCK_SIZE * n
    ensures v + 1 < |pieces| && Before(pieces, v + 1) == BLOCK_SIZE * n
  {
    PieceInConcat(pieces, v);
    WholeConcat(pieces);
  }

  // The first buffer that is not whole blocks, or the number of buffers
  function FirstOdd(pieces: seq<seq<bv8>>): (w: nat)
    ensures w <= |pieces|
    ensures forall k :: 0 <= k < w ==> |pieces[k]| % BLOCK_SIZE == 0
    ensures w < |pieces| ==> |pieces[w]| % BLOCK_SIZE != 0
  {
    if pieces == [] || |pieces[0]| % BLOCK_SIZE != 0 then 0 else 1 + FirstOdd(pieces[1..])
  }

  // Where the walk gets to such a buffer before n blocks are done
  predicate EntersOdd(pieces: seq<seq<bv8>>, n: nat) {
    var w := FirstOdd(pieces);
    w < |pieces| && Before(pieces, w) < BLOCK_SIZE * n
  }

  // The code looks at the length of a buffer only when it already stands in it. So it runs past a
  // buffer that it enters with less than a block, unless that is the very first one.
  predicate Overruns(pieces: seq<seq<bv8>>, n: nat) {
    EntersOdd(pieces, n) && FirstOdd(pieces) > 0 && |pieces[FirstOdd(pieces)]| < BLOCK_SIZE
  }

  // How many of n blocks are descrambled: all of them, or those of the buffers before the odd one and,
  // because the check comes late, one more from a later odd buffer that has room for it
  function Reached(pieces: seq<seq<bv8>>, n: nat): nat {
    var w := FirstOdd(pieces);
    if !EntersOdd(pieces, n) then n
    else if w == 0 then 0
    else Before(pieces, w) / BLOCK_SIZE + if |pieces[w]| < BLOCK_SIZE then 0 else 1
  }

  // The walk over the buffers. It never leaves the array: the inner loop stops at the latest at the
  // buffer that holds the next block. Where the code would run past a buffer the model stops.
  method DescrambleVectors(key: Key, iov: seq<array<bv8>>, ret: nat) returns (r: int, overrun: bool)
    requires AreDistinct(iov)
    requires 0 < ret && BLOCK_SIZE * ret <= |Concat(Pieces(iov))|
    modifies iov
    ensures overrun <==> Overruns(old(Pieces(iov)), ret)
    ensures Reached(old(Pieces(iov)), ret) <= ret
    ensures Concat(Pieces(iov)) == DescrambledBlocks(key, old(Concat(Pieces(iov))), Reached(old(Pieces(iov)), ret))
    ensures !overrun ==> r == if Reached(old(Pieces(iov)), ret) < ret then -1 else ret
  {
    hide Descrambled, DescrambledBlocks, Block, WithBlock, Concat, Before, FirstOdd, Overruns, Reached, StandsAt,
         AreDistinct, AreSized;
    ghost var first := Pieces(iov);
    PiecesAreSized(iov);
    ghost var raw := Concat(first);
    SomeBuffer(first);
    StartsAt(first);
    var v: nat, off: nat := 0, 0;
    var length: nat := iov[0].Length;
    var index := ret;
    r, overrun := -1, false;
    assert DescrambledBlocks(key, raw, 0) == raw by { NoneDescrambled(key, raw); }
    while index != 0
      invariant 0 <= index <= ret && AreSized(iov, first)
      invariant StandsAt(first, v, off, length, ret - index)
      invariant Concat(Pieces(iov)) == DescrambledBlocks(key, raw, ret - index)
    {
      ghost var n := ret - index;
      if length % BLOCK_SIZE != 0 {
        RefusedAt(first, v, off, length, n, ret);
        return;
      }
      v, off, length := SkipEmpty(iov, v, off, length, n, first);
      if length < BLOCK_SIZE {
        overrun := true;
        OverrunAt(first, n, ret);
        return;
      }
      DescrambleVector(key, iov, v, off, n, raw, first);
      off := off + BLOCK_SIZE;
      length := length - BLOCK_SIZE;
      index := index - 1;
    }
    r := ret;
    DoneAt(first, v, off, length, ret);
  }

  // Where the walk stands after n blocks: in a buffer of whole blocks, or at the start of the first
  // one if that is odd, or one block into a later odd one
  ghost predicate StandsAt(pieces: seq<seq<bv8>>, v: nat, off: nat, length: nat, n: nat) {
    && v < |pieces| && v <= FirstOdd(pieces) && off + length == |pieces[v]|
    && Before(pieces, v) + off == BLOCK_SIZE * n
    && (if v < FirstOdd(pieces) then length % BLOCK_SIZE == 0
        else length % BLOCK_SIZE != 0 && off == if v == 0 then 0 else BLOCK_SIZE)
  }

  // The start of the walk and its three ends
  lemma StartsAt(pieces: seq<seq<bv8>>)
    requires pieces != []
    ensures StandsAt(pieces, 0, 0, |pieces[0]|, 0)
  {
  }

  lemma RefusedAt(pieces: seq<seq<bv8>>, v: nat, off: nat, length: nat, n: nat, ret: nat)
    requires StandsAt(pieces, v, off, length, n) && n < ret && length % BLOCK_SIZE != 0
    ensures Reached(pieces, ret) == n && !Overruns(pieces, ret)
  {
    hide FirstOdd;
    NothingBefore(pieces);
  }

  lemma OverrunAt(pieces: seq<seq<bv8>>, n: nat, ret: nat)
    requires n < ret && 0 < FirstOdd(pieces) < |pieces| && |pieces[FirstOdd(pieces)]| < BLOCK_SIZE
    requires Before(pieces, FirstOdd(pieces)) == BLOCK_SIZE * n
    ensures Reached(pieces, ret) == n && Overruns(pieces, ret)
  {
    hide FirstOdd;
  }

  lemma DoneAt(pieces: seq<seq<bv8>>, v: nat, off: nat, length: nat, ret: nat)
    requires StandsAt(pieces, v, off, length, ret) && ret > 0
    ensures Reached(pieces, ret) == ret && !Overruns(pieces, ret)
  {
    hide FirstOdd, Before;
    FirstOddIsFirst(pieces);
    NothingBefore(pieces);
    if v < FirstOdd(pieces) {
      BeforeGrows(pieces, v, FirstOdd(pieces));
    }
  }

  // The inner loop, which moves on from used up buffers
  method SkipEmpty(iov: seq<array<bv8>>, v0: nat, off0: nat, length0: nat, ghost n: nat, ghost first: seq<seq<bv8>>)
    returns (v: nat, off: nat, length: nat)
    requires AreSized(iov, first) && BLOCK_SIZE * (n + 1) <= |Concat(first)|
    requires StandsAt(first, v0, off0, length0, n) && length0 % BLOCK_SIZE == 0
    ensures v < |iov| && off + length == iov[v].Length && Before(first, v) + off == BLOCK_SIZE * n && length != 0
    ensures length < BLOCK_SIZE ==> 0 < v == FirstOdd(first) && off == 0 && |first[v]| == length
    ensures length >= BLOCK_SIZE ==> StandsAt(first, v, off + BLOCK_SIZE, length - BLOCK_SIZE, n + 1)
  {
    hide FirstOdd, Before, Concat;
    FirstOddIsFirst(first);
    v, off, length := v0, off0, length0;
    while length == 0
      invariant v < |iov| && v <= FirstOdd(first) && off + length == |first[v]|
      invariant if v < FirstOdd(first) then length % BLOCK_SIZE == 0
                else length % BLOCK_SIZE != 0 && off == 0 && v > 0
      invariant Before(first, v) + off == BLOCK_SIZE * n
      decreases |iov| - v
    {
      MoreBuffers(first, v, n);
      v := v + 1;
      off := 0;
      length := iov[v].Length;
    }
  }

  // The buffers have the lengths of these pieces.
  ghost predicate AreSized(iov: seq<array<bv8>>, pieces: seq<seq<bv8>>) {
    |iov| == |pieces| && forall i :: 0 <= i < |iov| ==> iov[i].Length == |pieces[i]|
  }

  lemma PiecesAreSized(iov: seq<array<bv8>>)
    ensures AreSized(iov, Pieces(iov))
  {
  }

  lemma FirstOddIsFirst(pieces: seq<seq<bv8>>)
    ensures FirstOdd(pieces) <= |pieces|
    ensures forall k :: 0 <= k < FirstOdd(pieces) ==> |pieces[k]| % BLOCK_SIZE == 0
    ensures FirstOdd(pieces) < |pieces| ==> |pieces[FirstOdd(pieces)]| % BLOCK_SIZE != 0
  {
  }

  lemma {:induction false} BeforeGrows(pieces: seq<seq<bv8>>, v: nat, w: nat)
    requires v < w <= |pieces|
    ensures Before(pieces, v) + |pieces[v]| <= Before(pieces, w)
  {
    if v + 1 < w {
      BeforeGrows(pieces, v, w - 1);
      PieceInConcat(pieces, w - 1);
    } else {
      PieceInConcat(pieces, v);
    }
  }

  lemma NothingBefore(pieces: seq<seq<bv8>>)
    ensures Before(pieces, 0) == 0
  {
  }

  lemma SomeBuffer(pieces: seq<seq<bv8>>)
    ensures |Concat(pieces)| > 0 ==> |pieces| > 0
  {
  }

  lemma NoneDescrambled(key: Key, raw: seq<bv8>)
    ensures DescrambledBlocks(key, raw, 0) == raw
  {
  }

  // One block of the walk
  method DescrambleVector(key: Key, iov: seq<array<bv8>>, v: nat, off: nat, ghost n: nat, ghost raw: seq<bv8>,
                          ghost first: seq<seq<bv8>>)
    requires AreDistinct(iov) && v < |iov| && off + BLOCK_SIZE <= iov[v].Length && AreSized(iov, first)
    requires Before(first, v) + off == BLOCK_SIZE * n && BLOCK_SIZE * (n + 1) <= |raw|
    requires Concat(Pieces(iov)) == DescrambledBlocks(key, raw, n)
    modifies iov[v]
    ensures Concat(Pieces(iov)) == DescrambledBlocks(key, raw, n + 1)
  {
    hide Descrambled, DescrambledBlocks, Block, WithBlock;
    ghost var pieces := Pieces(iov);
    ghost var b := Descrambled(key, iov[v][off..off + BLOCK_SIZE]);
    SameLengths(first, pieces, v);
    BlockInPiece(pieces, v, off, n, b);
    SameBlockBeyond(key, raw, n);
    DescrambleAt(key, iov[v], off);
    assert Pieces(iov) == pieces[v := pieces[v][..off] + b + pieces[v][off + BLOCK_SIZE..]];
  }

  // dvdcss_readv. The device is read once, and the buffers end with the descrambled form of what it
  // left there. The result is its count, or -1 if a buffer that is not whole blocks was noticed.
  method Readv(dvdcss: Dvdcss, iov: seq<array<bv8>>, blocks: nat, decrypt: bool)
    returns (ret: int, overrun: bool, ghost count: int, ghost raw: seq<bv8>)
    requires AreDistinct(iov) && BLOCK_SIZE * blocks <= |Concat(Pieces(iov))|
    modifies dvdcss.device, iov
    ensures dvdcss.device.log == old(dvdcss.device.log) + [Delivery(blocks, count, raw)]
    ensures count <= blocks && |raw| == |Concat(Pieces(iov))| == old(|Concat(Pieces(iov))|)
    ensures var descrambling := dvdcss.scrambled && decrypt && count > 0;
            var reached := if descrambling then Reached(Pieces(iov), count) else count;
            && reached <= count
            && (overrun <==> descrambling && Overruns(Pieces(iov), count))
            && Concat(Pieces(iov)) == ReadvResult(descrambling, dvdcss.titleKey, raw, reached)
            && (!overrun ==> ret == if reached < count then -1 else count)
  {
    hide Descrambled, DescrambledBlocks, Concat, Overruns, Reached;
    ghost var first := Pieces(iov);
    ret := dvdcss.device.PfReadv(iov, blocks);
    ghost var delivered := Pieces(iov);
    count, raw, overrun := ret, Concat(delivered), false;
    SameLengths(first, delivered, 0);
    if ret <= 0 || !dvdcss.scrambled || !decrypt {
      return;
    }
    ret, overrun := DescrambleVectors(dvdcss.titleKey, iov, ret);
    SameWalk(delivered, Pieces(iov), count);
    SameLengths(delivered, Pieces(iov), 0);
  }

  // How far the walk gets depends on the lengths alone.
  lemma SameWalk(p: seq<seq<bv8>>, q: seq<seq<bv8>>, n: nat)
    requires |p| == |q| && forall i :: 0 <= i < |p| ==> |p[i]| == |q[i]|
    ensures Reached(p, n) == Reached(q, n) && (Overruns(p, n) <==> Overruns(q, n))
  {
    SameFirstOdd(p, q);
    SameLengths(p, q, FirstOdd(p));
  }

  lemma SameFirstOdd(p: seq<seq<bv8>>, q: seq<seq<bv8>>)
    requires |p| == |q| && forall i :: 0 <= i < |p| ==> |p[i]| == |q[i]|
    ensures FirstOdd(p) == FirstOdd(q)
  {
    hide FirstOdd;
    FirstOddIsFirst(p);
    FirstOddIsFirst(q);
  }

  // If all buffers are whole blocks, every block is descrambled and nothing is overrun.
  lemma WholeBuffersAreDone(pieces: seq<seq<bv8>>, n: nat)
    requires forall i :: 0 <= i < |pieces| ==> |pieces[i]| % BLOCK_SIZE == 0
    ensures Reached(pieces, n) == n && !Overruns(pieces, n)
  {
    hide FirstOdd;
    FirstOddIsFirst(pieces);
  }

  // A second buffer of a single byte is overrun, and one of a block and a byte passes for whole blocks.
  lemma CheckComesLate() returns (short: seq<seq<bv8>>, long: seq<seq<bv8>>)
    ensures |Concat(short)| == BLOCK_SIZE * 2 && Overruns(short, 2)
    ensures |long| == 2 && |long[1]| == BLOCK_SIZE + 1 && Reached(long, 2) == 2 && !Overruns(long, 2)
  {
    var block: seq<bv8> := seq(BLOCK_SIZE, i => 0);
    short, long := [block, [0], block[1..]], [block, block + [0]];
    assert short[1..] == [[0], block[1..]] && long[1..] == [block + [0]];
    assert short[1..][1..] == [block[1..]] && [block[1..]][1..] == [];
    assert Concat([block[1..]]) == block[1..];
    assert FirstOdd(short) == 1 && FirstOdd(long) == 1;
    assert Before(short, 1) == BLOCK_SIZE && Before(long, 1) == BLOCK_SIZE;
  }
}
