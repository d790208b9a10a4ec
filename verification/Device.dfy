/** libc_seek and libc_read (src/device.c): the position of the device, kept in whole blocks, under
    short reads and failing calls. */
module Device {
  import opened Sector

  // A call to the file and what it returned
  datatype Call = DidSeek(to: int, r: int) | DidRead(n: nat, r: int)

  // The bytes that the reads among these calls delivered
  function Bytes(calls: seq<Call>): nat {
    if calls == [] then 0
    else
      var last := calls[|calls| - 1];
      Bytes(calls[..|calls| - 1]) + if last.DidRead? && last.r > 0 then last.r else 0
  }

  // Only the last call may have failed, and whether it has
  ghost predicate NoneFailed(calls: seq<Call>) { forall c :: c in calls ==> c.r >= 0 }
  ghost predicate LastFailed(calls: seq<Call>) {
    calls != [] && calls[|calls| - 1].r < 0 && NoneFailed(calls[..|calls| - 1])
  }

  lemma OneMoreCall(calls: seq<Call>, c: Call)
    ensures Bytes(calls + [c]) == Bytes(calls) + if c.DidRead? && c.r > 0 then c.r else 0
    ensures NoneFailed(calls) ==> if c.r >= 0 then NoneFailed(calls + [c]) else LastFailed(calls + [c])
  {
    assert (calls + [c])[..|calls|] == calls;
  }

  // An open file. Seeking may fail; reading may fail, and may deliver fewer bytes than asked for,
  // but none only at the end. The file records the calls.
  class File {
    const contents: seq<bv8>
    var offset: nat
    var log: seq<Call>

    constructor (data: seq<bv8>)
      ensures contents == data && offset == 0 && log == []
    {
      contents := data;
      offset := 0;
      log := [];
    }

    // lseek from the start of the file
    method Seek(to: int) returns (r: int)
      modifies this`offset, this`log
      ensures r == -1 || (r == to && to >= 0)
      ensures offset == if r == -1 then old(offset) else to
      ensures log == old(log) + [DidSeek(to, r)]
    {
      r := -1;
      if to >= 0 {
        if * {
          r := to;
          offset := to;
        }
      }
      log := log + [DidSeek(to, r)];
    }

    // read
    method Read(buffer: array<bv8>, at: nat, n: nat) returns (r: int)
      requires 0 < n && at + n <= buffer.Length
      modifies this, buffer
      ensures -1 <= r <= n
      ensures r <= 0 ==> offset == old(offset) && buffer[..] == old(buffer[..])
      ensures r == 0 ==> |contents| <= offset
      ensures r > 0 ==> offset == old(offset) + r <= |contents|
      ensures r > 0 ==> buffer[..] == old(buffer[..at]) + contents[old(offset)..offset] + old(buffer[at + r..])
      ensures log == old(log) + [DidRead(n, r)]
    {
      r := *;
      if r < 0 {
        r := -1;
      } else if |contents| <= offset {
        r := 0;
      } else {
        var most := if n <= |contents| - offset then n else |contents| - offset;
        if r == 0 || r > most {
          r := most;
        }
        ghost var was := buffer[..];
        forall i | 0 <= i < r {
          buffer[at + i] := contents[offset + i];
        }
        offset := offset + r;
        assert buffer[..] == was[..at] + contents[offset - r..offset] + was[at + r..];
      }
      log := log + [DidRead(n, r)];
    }
  }

  // The part of a dvdcss_t that holds the device
  class Dvdcss {
    const file: File
    var position: int

    constructor (f: File)
      requires f.offset == 0
      ensures file == f && position == 0 && PositionIsKnownOrLost()
    {
      file := f;
      position := 0;
    }

    // Either the position is lost, or it is the block at which the file stands.
    ghost predicate PositionIsKnownOrLost()
      reads this, file
    {
      position == -1 || (position >= 0 && file.offset == BLOCK_SIZE * position)
    }

    // libc_seek. It succeeds without touching the file if it is in position already.
    method Seek(blocks: int) returns (r: int)
      requires PositionIsKnownOrLost()
      modifies this`position, file`offset, file`log
      ensures PositionIsKnownOrLost()
      ensures r == position && (r == blocks || r == -1)
      ensures old(position) == blocks ==> r == blocks && file.offset == old(file.offset) && file.log == old(file.log)
      ensures old(position) != blocks ==>
                file.log == old(file.log) + [DidSeek(BLOCK_SIZE * blocks, if r == -1 then -1 else BLOCK_SIZE * blocks)]
    {
      if position == blocks {
        return blocks;
      }
      var sought := file.Seek(blocks * BLOCK_SIZE);
      if sought < 0 {
        position := -1;
        return sought;
      }
      position := sought / BLOCK_SIZE;
      r := position;
    }

    // The loop of libc_read: reads until everything or the end is there, or until a read fails
    method ReadBytes(buffer: array<bv8>, size: nat) returns (ok: bool, got: nat, ghost calls: seq<Call>)
      requires size <= buffer.Length
      modifies file, buffer
      ensures file.log == old(file.log) + calls && got == Bytes(calls)
      ensures file.offset == old(file.offset) + got
      ensures got <= Delivered(file.contents, old(file.offset), size)
      ensures got > 0 ==> buffer[..got] == file.contents[old(file.offset)..old(file.offset) + got]
      ensures buffer[got..] == old(buffer[got..])
      ensures ok ==> got == Delivered(file.contents, old(file.offset), size) && NoneFailed(calls)
      ensures !ok ==> LastFailed(calls) && got < size
    {
      hide Bytes, NoneFailed, LastFailed;
      got := 0;
      ghost var start := file.offset;
      calls := [];
      NoCalls();
      while got < size
        invariant 0 <= got <= size && file.offset == start + got
        invariant file.log == old(file.log) + calls && got == Bytes(calls) && NoneFailed(calls)
        invariant got > 0 ==> start + got <= |file.contents|
        invariant got > 0 ==> buffer[..got] == file.contents[start..start + got]
        invariant buffer[got..] == old(buffer[got..])
      {
        var part := file.Read(buffer, got, size - got);
        OneMoreCall(calls, DidRead(size - got, part));
        calls := calls + [DidRead(size - got, part)];
        if part < 0 {
          return false, got, calls;
        }
        if part == 0 {
          break;
        }
        got := got + part;
      }
      ok := true;
    }

    // libc_read. However the reads are cut up, the bytes are those of one uninterrupted read. From a
    // known position the result counts the whole blocks among them, and the position moves past just
    // these; it is negative exactly if the last of the recorded calls failed. From a lost position, a
    // read of less than one block fails too, and a read that delivers everything claims a position
    // that is wrong.
    method Read(buffer: array<bv8>, blocks: nat) returns (r: int, ghost got: nat, ghost calls: seq<Call>)
      requires BLOCK_SIZE * blocks <= buffer.Length
      requires PositionIsKnownOrLost()
      modifies this`position, file, buffer
      ensures PositionIsKnownOrLost() <==> !(old(position) == -1 && blocks > 0 && got == BLOCK_SIZE * blocks)
      ensures file.log == old(file.log) + calls && got == Bytes(calls)
      ensures got <= Delivered(file.contents, old(file.offset), BLOCK_SIZE * blocks)
      ensures got > 0 ==> buffer[..got] == file.contents[old(file.offset)..old(file.offset) + got]
      ensures buffer[got..] == old(buffer[got..])
      ensures NoneFailed(calls) ==> got == Delivered(file.contents, old(file.offset), BLOCK_SIZE * blocks)
      ensures r >= 0 ==> r == got / BLOCK_SIZE && position == old(position) + r
      ensures r < 0 ==> r == -1 && position == -1
      ensures NoneFailed(calls) || LastFailed(calls)
      ensures r < 0 <==> LastFailed(calls) || (old(position) == -1 && got < BLOCK_SIZE && got < BLOCK_SIZE * blocks)
    {
      hide Bytes, NoneFailed, LastFailed;
      var size := blocks * BLOCK_SIZE;
      var ok, ret;
      ok, ret, calls := ReadBytes(buffer, size);
      got := ret;
      NotBoth(calls);
      if !ok {
        position := -1;
        return -1, got, calls;
      }
      var wholeBlocks := ret / BLOCK_SIZE;
      if ret != size {
        var target := position + wholeBlocks;
        position := -1;
        r := Seek(target);
        if target != -1 {
          ghost var c := DidSeek(BLOCK_SIZE * target, if r == -1 then -1 else BLOCK_SIZE * target);
          OneMoreCall(calls, c);
          calls := calls + [c];
          NotBoth(calls);
        }
        if r >= 0 {
          r := wholeBlocks;
        }
        return r, got, calls;
      }
      position := position + wholeBlocks;
      r := wholeBlocks;
    }
  }

  lemma NoCalls()
    ensures Bytes([]) == 0 && NoneFailed([])
  {
  }

  lemma NotBoth(calls: seq<Call>)
    ensures !(NoneFailed(calls) && LastFailed(calls))
  {
  }

  // How many bytes one uninterrupted read of n bytes delivers from an offset on
  function Delivered(contents: seq<bv8>, offset: nat, n: nat): nat {
    if |contents| <= offset then 0 else if offset + n <= |contents| then n else |contents| - offset
  }
}
