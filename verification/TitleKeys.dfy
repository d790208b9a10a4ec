/** dvdcss_title (src/css.c) and dvdcss_seek (src/libdvdcss.c): the list of title keys, sorted by
    start block, in front of a cache of text files and of the drive. */
module TitleKeys {
  import opened Combiner

  // ---------------------------------------------------------------------------------------
  // The text of a key in the cache
  // ---------------------------------------------------------------------------------------

  // The text of a key without the end of the line, PSZ_KEY_SIZE - 1
  const TEXT_SIZE := 14

  function HexDigit(d: int): char
    requires 0 <= d < 16
  {
    if d < 10 then '0' + d as char else 'a' + (d - 10) as char
  }

  // The value of a hexadecimal digit, -1 for any other character
  function DigitValue(c: char): int {
    if '0' <= c <= '9' then c as int - '0' as int
    else if 'a' <= c <= 'f' then c as int - 'a' as int + 10
    else if 'A' <= c <= 'F' then c as int - 'A' as int + 10
    else -1
  }

  predicate IsSpace(c: char) { c == ' ' || '\t' <= c <= '\r' }

  function PrintByte(x: bv8): string { [HexDigit(ToInt(x) / 16), HexDigit(ToInt(x) % 16)] }

  // What "%02x:%02x:%02x:%02x:%02x" writes; the library adds the end of a line.
  function PrintKey(k: Key): (s: string)
    ensures |s| == TEXT_SIZE
  {
    PrintByte(k.b0) + (":" + (PrintByte(k.b1) + (":" + (PrintByte(k.b2) + (":" +
    (PrintByte(k.b3) + (":" + PrintByte(k.b4))))))))
  }
  const END_OF_LINE := ['\r', '\n']

  datatype Option<T> = None | Some(value: T)

  function SkipSpace(s: string): string { if s != [] && IsSpace(s[0]) then SkipSpace(s[1..]) else s }

  // The longest run of digits at the start of s, read on from value, and what follows it
  function ScanDigits(s: string, value: nat): (nat, string) {
    if s != [] && DigitValue(s[0]) >= 0 then ScanDigits(s[1..], 16 * value + DigitValue(s[0])) else (value, s)
  }

  // The conversion %x: white space, a sign, a prefix, digits. A conversion without digits fails.
  function ScanHex(s: string): Option<(int, string)> {
    var t := SkipSpace(s);
    var negative := t != [] && t[0] == '-';
    var u := if t != [] && (t[0] == '-' || t[0] == '+') then t[1..] else t;
    var v := if |u| >= 2 && u[0] == '0' && (u[1] == 'x' || u[1] == 'X') then u[2..] else u;
    if v == [] || DigitValue(v[0]) < 0 then None
    else
      var (n, rest) := ScanDigits(v, 0);
      var value := (if negative then -1 else 1) * n;
      Some((value, rest))
  }

  // The low byte of the value, and the rest of the text if the separator comes next
  function ScanByte(s: string, separator: bool): Option<(bv8, string)> {
    match ScanHex(s)
    case None => None
    case Some((n, rest)) =>
      if !separator then Some((ToByte(n % 256), rest))
      else if rest != [] && rest[0] == ':' then Some((ToByte(n % 256), rest[1..]))
      else None
  }

  // What "%x:%x:%x:%x:%x" reads, if all five values are there
  function ParseKey(s: string): Option<Key> {
    match ScanByte(s, true)
    case None => None
    case Some((b0, s1)) =>
      match ScanByte(s1, true)
      case None => None
      case Some((b1, s2)) =>
        match ScanByte(s2, true)
        case None => None
        case Some((b2, s3)) =>
          match ScanByte(s3, true)
          case None => None
          case Some((b3, s4)) =>
            match ScanByte(s4, false)
            case None => None
            case Some((b4, s5)) => Some(Key(b0, b1, b2, b3, b4))
  }

  lemma DigitsAreRead(d: int)
    requires 0 <= d < 16
    ensures DigitValue(HexDigit(d)) == d && !IsSpace(HexDigit(d))
    ensures HexDigit(d) !in "-+xX:"
  {
  }

  lemma PrintedByteIsScanned(x: bv8, rest: string)
    requires rest == [] || rest[0] == ':'
    ensures ScanHex(PrintByte(x) + rest) == Some((ToInt(x), rest))
  {
    hide ToInt, HexDigit, DigitValue, IsSpace;
    ByteRoundTrip(x);
    var hi, lo := ToInt(x) / 16, ToInt(x) % 16;
    DigitsAreRead(hi);
    DigitsAreRead(lo);
    NoDigit();
    var s := PrintByte(x) + rest;
    assert s[1..] == [HexDigit(lo)] + rest && s[1..][1..] == rest;
    assert SkipSpace(s) == s;
    assert ScanDigits(rest, 16 * hi + lo) == (16 * hi + lo, rest);
    assert ScanDigits(s[1..], hi) == (16 * hi + lo, rest);
    assert ScanDigits(s, 0) == (16 * hi + lo, rest);
  }

  lemma NoDigit()
    ensures DigitValue(':') < 0
  {
  }

  lemma PrintedByteIsRead(x: bv8, rest: string)
    ensures ScanByte(PrintByte(x) + (":" + rest), true) == Some((x, rest))
    ensures ScanByte(PrintByte(x), false) == Some((x, ""))
  {
    hide ScanHex, PrintByte, ToInt, ToByte;
    PrintedByteIsScanned(x, ":" + rest);
    PrintedByteIsScanned(x, "");
    assert PrintByte(x) + "" == PrintByte(x);
    ByteRoundTrip(x);
    assert (":" + rest)[1..] == rest;
  }

  // The text of a key parses back to that key.
  lemma PrintedKeyIsParsed(k: Key)
    ensures ParseKey(PrintKey(k)) == Some(k)
  {
    hide ScanByte, PrintByte;
    var s4 := PrintByte(k.b4);
    var s3 := PrintByte(k.b3) + (":" + s4);
    var s2 := PrintByte(k.b2) + (":" + s3);
    var s1 := PrintByte(k.b1) + (":" + s2);
    PrintedByteIsRead(k.b0, s1);
    PrintedByteIsRead(k.b1, s2);
    PrintedByteIsRead(k.b2, s3);
    PrintedByteIsRead(k.b3, s4);
    PrintedByteIsRead(k.b4, "");
  }

  // What is written, character by character
  lemma TextOfKey()
    ensures PrintKey(Key(0x0a, 0x1b, 0xc2, 0xdf, 0x09)) + END_OF_LINE == "0a:1b:c2:df:09\r\n"
  {
    hide ToInt;
    BytesAsInts();
  }
  lemma BytesAsInts()
    ensures ToInt(0x0a) == 0x0a && ToInt(0x1b) == 0x1b && ToInt(0xc2) == 0xc2 && ToInt(0xdf) == 0xdf && ToInt(0x09) == 9
  {
  }

  // What is also read: prefixes, capitals, signs and white space; the low byte of the value is taken.
  lemma TextIsRead()
    ensures ScanHex("0X1b") == Some((0x1b, ""))
    ensures ScanHex("-3E") == Some((-0x3e, "")) && ScanByte("-3E", false) == Some((0xc2, ""))
    ensures ScanHex(" +d") == Some((0xd, ""))
    ensures ScanHex("-") == None && ScanHex("0x") == None && ScanByte("d", true) == None
    ensures forall c :: IsSpace(c) <==> c in " \t\n\U{0b}\U{0c}\r"
  {
    hide ScanDigits, SkipSpace;
    DigitsOf('1', 'b');
    DigitsOf('3', 'E');
    OneDigit('d');
    assert "0X1b"[2..] == "1b" && "-3E"[1..] == "3E" && "+d"[1..] == "d";
    SpaceBefore(" +d");
    NoSpaceBefore("0X1b");
    NoSpaceBefore("0x");
    NoSpaceBefore("-3E");
    NoSpaceBefore("-");
    NoSpaceBefore("d");
  }
  lemma DigitsOf(c: char, d: char)
    requires DigitValue(c) >= 0 && DigitValue(d) >= 0
    ensures ScanDigits([c, d], 0) == (16 * DigitValue(c) + DigitValue(d), "")
  {
    hide DigitValue;
    assert [c, d][1..] == [d] && [d][1..] == [];
    assert ScanDigits([d], DigitValue(c)) == (16 * DigitValue(c) + DigitValue(d), "");
  }
  lemma OneDigit(d: char)
    requires DigitValue(d) >= 0
    ensures ScanDigits([d], 0) == (DigitValue(d), "")
  {
    hide DigitValue;
    assert [d][1..] == [];
  }
  lemma NoSpaceBefore(s: string)
    requires s != [] && !IsSpace(s[0])
    ensures SkipSpace(s) == s
  {
  }
  lemma SpaceBefore(s: string)
    requires |s| >= 2 && IsSpace(s[0]) && !IsSpace(s[1])
    ensures SkipSpace(s) == s[1..]
  {
    NoSpaceBefore(s[1..]);
  }

  // ---------------------------------------------------------------------------------------
  // The cache and the drive
  // ---------------------------------------------------------------------------------------

  // A call to the cache: the characters that were read, none if that failed; the text to write and how
  // many of its characters were written, -1 if the file could not be opened
  datatype CacheCall = Loaded(block: int, text: string) | Stored(block: int, text: string, written: int)

  // The directory with one file for every block. Opening, reading and writing may fail, reading and
  // writing may stop early. The cache records the calls.
  class Cache {
    const present: bool
    var files: map<int, string>
    var log: seq<CacheCall>

    constructor (p: bool)
      ensures present == p && files == map[] && log == []
    {
      present := p;
      files := map[];
      log := [];
    }

    // open and read: up to the given number of characters from the start of the file
    method Load(block: int, n: nat) returns (text: string)
      modifies this`log
      ensures log == old(log) + [Loaded(block, text)]
      ensures |text| <= n && IsStartOf(text, files, block)
    {
      text := "";
      if block in files {
        var r: int := *;
        var file := files[block];
        if 0 <= r <= n && r <= |file| {
          text := file[..r];
        }
      }
      log := log + [Loaded(block, text)];
    }

    // open and write: the file is created if need be, but not cut off
    method Store(block: int, text: string) returns (written: int)
      modifies this
      ensures log == old(log) + [Stored(block, text, written)]
      ensures -1 <= written <= |text| && files == AfterStore(old(files), block, text, written)
    {
      written := *;
      if !(-1 <= written <= |text|) {
        written := -1;
      }
      files := AfterStore(files, block, text, written);
      log := log + [Stored(block, text, written)];
    }
  }

  // What a read may give
  predicate IsStartOf(text: string, files: map<int, string>, block: int) {
    text != "" ==> block in files && text <= files[block]
  }

  // The files once so many characters of the text have been written
  function AfterStore(files: map<int, string>, block: int, text: string, written: int): map<int, string>
    requires written <= |text|
  {
    if written < 0 then files
    else files[block := Overwritten(if block in files then files[block] else "", text[..written])]
  }

  // A file with its first characters written over
  function Overwritten(file: string, text: string): string {
    if |text| <= |file| then text + file[|text|..] else text
  }

  // Writing creates the file and changes only its first characters, and no other file.
  lemma StoreIsLocal(files: map<int, string>, block: int, text: string, written: int, other: int)
    requires 0 <= written <= |text|
    ensures block in AfterStore(files, block, text, written)
    ensures var was, now := if block in files then files[block] else "", AfterStore(files, block, text, written)[block];
            && |now| == (if |was| < written then written else |was|)
            && now[..written] == text[..written] && now[written..] == (if |was| < written then "" else was[written..])
    ensures other != block ==> (other in files <==> other in AfterStore(files, block, text, written))
    ensures other != block && other in files ==> AfterStore(files, block, text, written)[other] == files[other]
  {
  }

  // Whatever the file held before, it gives the key back once its text is written out.
  lemma StoredKeyIsFound(file: string, k: Key, n: nat)
    requires TEXT_SIZE <= n <= TEXT_SIZE + |END_OF_LINE|
    ensures var now := Overwritten(file, (PrintKey(k) + END_OF_LINE)[..n]);
            |now| >= TEXT_SIZE && ParseKey(now[..TEXT_SIZE]) == Some(k)
  {
    hide ParseKey, PrintByte;
    PrintedKeyIsParsed(k);
    assert Overwritten(file, (PrintKey(k) + END_OF_LINE)[..n])[..TEXT_SIZE] == PrintKey(k);
  }

  // What the drive or the crack came up with for a block
  datatype Reply = Reply(block: int, ret: int, key: Key)

  // dvdcss_titlekey, any reply
  class Drive {
    var log: seq<Reply>

    constructor ()
      ensures log == []
    {
      log := [];
    }

    method TitleKey(block: int) returns (ret: int, key: Key)
      modifies this
      ensures log == old(log) + [Reply(block, ret, key)]
    {
      ret, key := *, *;
      log := log + [Reply(block, ret, key)];
    }
  }

  // ---------------------------------------------------------------------------------------
  // The list
  // ---------------------------------------------------------------------------------------

  // dvd_title
  class Title {
    const startBlock: int
    const key: Key
    var next: Title?

    constructor (at: int, value: Key, following: Title?)
      ensures startBlock == at && key == value && next == following
    {
      startBlock := at;
      key := value;
      next := following;
    }
  }

  ghost predicate IsSorted(nodes: seq<Title>) {
    forall i, j :: 0 <= i < j < |nodes| ==> nodes[i].startBlock < nodes[j].startBlock
  }

  // The map from start blocks to keys that the nodes hold
  ghost predicate StandsFor(nodes: seq<Title>, known: map<int, Key>) {
    && (forall i :: 0 <= i < |nodes| ==> nodes[i].startBlock in known && known[nodes[i].startBlock] == nodes[i].key)
    && (forall b :: b in known ==> exists i :: 0 <= i < |nodes| && nodes[i].startBlock == b)
  }

  // The nodes with one more at the given place
  ghost function InsertedAt(nodes: seq<Title>, at: nat, n: Title): (all: seq<Title>)
    requires at <= |nodes|
  {
    nodes[..at] + [n] + nodes[at..]
  }

  lemma InsertedElements(nodes: seq<Title>, at: nat, n: Title)
    requires at <= |nodes|
    ensures |InsertedAt(nodes, at, n)| == |nodes| + 1 && InsertedAt(nodes, at, n)[at] == n
    ensures forall i :: 0 <= i < at ==> InsertedAt(nodes, at, n)[i] == nodes[i]
    ensures forall i :: at < i <= |nodes| ==> InsertedAt(nodes, at, n)[i] == nodes[i - 1]
  {
  }

  // No block has two nodes.
  lemma BlocksDiffer(nodes: seq<Title>, i: nat, j: nat)
    requires IsSorted(nodes) && i < |nodes| && j < |nodes| && nodes[i].startBlock == nodes[j].startBlock
    ensures i == j
  {
  }

  // A node between the smaller and the greater ones keeps the order and adds its key.
  lemma InsertedInOrder(nodes: seq<Title>, at: nat, n: Title)
    requires IsSorted(nodes) && at <= |nodes|
    requires forall i :: 0 <= i < at ==> nodes[i].startBlock < n.startBlock
    requires forall i :: at <= i < |nodes| ==> nodes[i].startBlock > n.startBlock
    ensures IsSorted(InsertedAt(nodes, at, n))
  {
    hide InsertedAt;
    InsertedElements(nodes, at, n);
  }

  lemma InsertedIsKnown(nodes: seq<Title>, known: map<int, Key>, at: nat, n: Title)
    requires StandsFor(nodes, known) && at <= |nodes| && n.startBlock !in known
    ensures StandsFor(InsertedAt(nodes, at, n), known[n.startBlock := n.key])
  {
    hide InsertedAt;
    InsertedElements(nodes, at, n);
    var all := InsertedAt(nodes, at, n);
    forall b | b in known ensures exists i :: 0 <= i < |all| && all[i].startBlock == b {
      var j :| 0 <= j < |nodes| && nodes[j].startBlock == b;
      assert all[if j < at then j else j + 1] == nodes[j];
    }
    assert all[at] == n;
  }

  // The part of a dvdcss_t that holds the title keys
  class Dvdcss {
    const scrambled: bool
    var titleMethod: bool
    const cache: Cache
    const drive: Drive
    var titles: Title?
    var titleKey: Key

    // The nodes in their order, and the map that the list stands for
    ghost var nodes: seq<Title>
    ghost var known: map<int, Key>

    constructor (isScrambled: bool, byTitle: bool, c: Cache, d: Drive)
      ensures Valid() && known == map[] && scrambled == isScrambled && titleMethod == byTitle
      ensures cache == c && drive == d
    {
      scrambled, titleMethod, cache, drive := isScrambled, byTitle, c, d;
      titles, titleKey := null, NO_KEY;
      nodes, known := [], map[];
    }

    ghost predicate Valid()
      reads `titles, `nodes, `known, nodes
    {
      IsLinked() && IsSorted(nodes) && StandsFor(nodes, known)
    }

    ghost predicate IsLinked()
      reads `titles, `nodes, nodes
    {
      && titles == NodeAt(0)
      && forall i {:trigger nodes[i].next} :: 0 <= i < |nodes| ==> nodes[i].next == NodeAt(i + 1)
    }

    ghost function NodeAt(i: int): Title?
      reads `nodes
    {
      if 0 <= i < |nodes| then nodes[i] else null
    }

    // The loop that checks whether the key is known
    method Find(block: int) returns (title: Title?)
      requires Valid()
      ensures title != null && title.startBlock == block <==> block in known
      ensures block in known && title != null ==> title.key == known[block]
    {
      title := titles;
      ghost var at := 0;
      while title != null && title.next != null && title.next.startBlock <= block
        invariant 0 <= at && title == NodeAt(at) && (at == 0 || at < |nodes|)
        invariant at > 0 ==> nodes[at].startBlock <= block
        decreases |nodes| - at
      {
        title := title.next;
        at := at + 1;
      }
    }

    // The loop that finds the place of a new key
    method FindPlace(block: int) returns (title: Title?, ghost at: nat)
      requires Valid() && block !in known
      ensures title != null ==> title.startBlock in known && title.startBlock < block
      ensures forall b :: b in known && b < block ==> title != null && b <= title.startBlock
      ensures at <= |nodes| && title == NodeAt(at - 1)
      ensures forall i :: 0 <= i < at ==> nodes[i].startBlock < block
      ensures forall i :: at <= i < |nodes| ==> nodes[i].startBlock > block
    {
      var newTitle := null;
      title := titles;
      at := 0;
      while title != null && title.startBlock < block
        invariant at <= |nodes| && title == NodeAt(at) && newTitle == NodeAt(at - 1)
        invariant forall i :: 0 <= i < at ==> nodes[i].startBlock < block
        decreases |nodes| - at
      {
        newTitle := title;
        title := title.next;
        at := at + 1;
      }
      title := newTitle;
    }

    // Links a new node into the list, if there is memory for it.
    method Insert(block: int, key: Key, memory: bool) returns (ok: bool)
      requires Valid() && block !in known
      modifies this`titles, this`nodes, this`known, nodes
      ensures Valid() && ok == memory
      ensures ok ==> known == old(known)[block := key] && fresh(set n | n in nodes && n !in old(nodes))
      ensures !ok ==> known == old(known) && nodes == old(nodes)
    {
      hide IsSorted, StandsFor, InsertedAt;
      var title;
      ghost var at;
      title, at := FindPlace(block);
      if !memory {
        return false;
      }
      var newTitle := new Title(block, key, if title == null then titles else title.next);
      InsertedInOrder(nodes, at, newTitle);
      InsertedIsKnown(nodes, known, at, newTitle);
      if title == null {
        titles := newTitle;
      } else {
        title.next := newTitle;
      }
      InsertedElements(nodes, at, newTitle);
      nodes := InsertedAt(nodes, at, newTitle);
      known := known[block := key];
      assert IsLinked() by {
        forall i {:trigger nodes[i].next} | 0 <= i < |nodes| ensures nodes[i].next == NodeAt(i + 1) {
          assert i < at ==> nodes[i] == old(nodes)[i];
          assert i > at ==> nodes[i] == old(nodes)[i - 1];
        }
      }
      ok := true;
    }

    // What one call sees and leaves
    ghost function Now(): State
      reads this
    {
      State(known, titleKey)
    }

    // The key that a text from the cache gives, if any; without a cache there is none.
    function Cached(text: string): Option<Key> {
      if cache.present && |text| == TEXT_SIZE then ParseKey(text) else None
    }

    // The calls for a block that is not known: the cache is read if there is one; if it gives no key the
    // drive is asked; a key from the drive is written to the cache.
    ghost function CacheCalls(block: int, text: string, status: int, key: Key, written: int): seq<CacheCall> {
      if !cache.present then []
      else if Cached(text).Some? || status < 0 then [Loaded(block, text)]
      else [Loaded(block, text), Stored(block, PrintKey(key) + END_OF_LINE, written)]
    }
    ghost function DriveCalls(block: int, text: string, status: int, key: Key): seq<Reply> {
      if Cached(text).Some? then [] else [Reply(block, status, key)]
    }

    // From one state to the next, the key of an unknown block was obtained, or the drive had none.
    twostate predicate IsObtained(block: int, text: string, status: int, key: Key, written: int)
      reads cache, drive
    {
      && IsStartOf(text, old(cache.files), block) && (written < 0 || written <= TEXT_SIZE + |END_OF_LINE|)
      && cache.log == old(cache.log) + CacheCalls(block, text, status, key, written)
      && drive.log == old(drive.log) + DriveCalls(block, text, status, key)
      && (Cached(text).Some? ==> status == 1 && key == Cached(text).value)
      && cache.files == if !cache.present || Cached(text).Some? || status < 0 then old(cache.files)
                        else AfterStore(old(cache.files), block, PrintKey(key) + END_OF_LINE, written)
    }

    // A known block costs neither the cache nor the drive a call. The key of another one is obtained and
    // then known and current, unless there is none or no memory for it; then nothing changes here.
    twostate predicate IsTitled(block: int, memory: bool, ret: int, text: string, status: int, key: Key, written: int)
      reads this, cache, drive
    {
      if !scrambled || block in old(known) then
        && ret == 0 && cache.log == old(cache.log) && cache.files == old(cache.files) && drive.log == old(drive.log)
        && Now() == if scrambled then State(old(known), old(known)[block]) else old(Now())
      else
        && IsObtained(block, text, status, key, written)
        && ret == (if status < 0 then status else if memory then 0 else -1)
        && Now() == if status >= 0 && memory then State(old(known)[block := key], key) else old(Now())
    }

    // The key is read from the cache, if a whole key is there.
    method FromCache(block: int) returns (found: Option<Key>, ghost text: string)
      requires cache.present
      modifies cache`log
      ensures cache.log == old(cache.log) + [Loaded(block, text)]
      ensures IsStartOf(text, cache.files, block) && found == Cached(text)
    {
      hide ParseKey;
      var psz := cache.Load(block, TEXT_SIZE);
      text := psz;
      if |psz| == TEXT_SIZE {
        found := ParseKey(psz);
      } else {
        found := None;
      }
    }

    // dvdcss_title. The last four results are the text that was read from the cache, the reply of the
    // drive or what stands for it, and how much was written to the cache.
    method Title(block: int, memory: bool)
      returns (ret: int, ghost text: string, ghost status: int, ghost key: Key, ghost written: int)
      requires Valid()
      modifies this, nodes, cache, drive
      ensures Valid() && fresh(set n | n in nodes && n !in old(nodes))
      ensures IsTitled(block, memory, ret, text, status, key, written)
      ensures var free := cache.log == old(cache.log) && drive.log == old(drive.log);
              scrambled ==> IsCheck(old(Now()), Check(block, ret, free), Now())
    {
      hide ParseKey, PrintKey, IsLinked, IsSorted, StandsFor, AfterStore, IsStartOf;
      text, status, key, written := "", 0, NO_KEY, -1;
      if !scrambled {
        return 0, text, status, key, written;
      }
      var title := Find(block);
      if title != null && title.startBlock == block {
        titleKey := title.key;
        return 0, text, status, key, written;
      }
      var k;
      ret, k, text, written := Obtain(block);
      status, key := ret, k;
      if ret < 0 {
        return;
      }
      var ok := Insert(block, k, memory);
      if !ok {
        ret := -1;
        return;
      }
      titleKey := k;
      ret := 0;
    }

    // The part of dvdcss_title that gets a key from the cache or from the drive
    method Obtain(block: int) returns (ret: int, key: Key, ghost text: string, ghost written: int)
      requires Valid()
      modifies this`titleMethod, cache, drive
      ensures Valid() && IsObtained(block, text, ret, key, written)
      ensures cache.log != old(cache.log) || drive.log != old(drive.log)
    {
      hide ParseKey, PrintKey, IsLinked, IsSorted, StandsFor, AfterStore, IsStartOf;
      text, written := "", -1;
      assert IsStartOf("", cache.files, block) by { NothingRead(cache.files, block); }
      if cache.present {
        var cached;
        cached, text := FromCache(block);
        if cached.Some? {
          return 1, cached.value, text, written;
        }
      }
      ret, key := AskDrive(block);
      if ret >= 0 && cache.present {
        var w := cache.Store(block, PrintKey(key) + END_OF_LINE);
        written := w;
        TextFits(key);
      }
    }

    // dvdcss_titlekey, which may give up the method in use for the slow one
    method AskDrive(block: int) returns (ret: int, key: Key)
      requires Valid()
      modifies this`titleMethod, drive
      ensures drive.log == old(drive.log) + [Reply(block, ret, key)] && Valid()
      ensures old(titleMethod) ==> titleMethod
    {
      ret, key := drive.TitleKey(block);
      if * {
        titleMethod := true;
      }
    }

    // dvdcss_seek, given what pf_seek will return. Only with one of the two flags is the key checked, with
    // the first one only if that is not too slow; exactly a failed check fails the seek.
    method Seek(blocks: int, flags: bv32, memory: bool, sought: int)
      returns (r: int, ghost ret: int, ghost text: string, ghost status: int, ghost key: Key, ghost written: int)
      requires Valid()
      modifies this, nodes, cache, drive
      ensures Valid() && fresh(set n | n in nodes && n !in old(nodes))
      ensures ChecksKey(flags, old(titleMethod)) ==>
                IsTitled(blocks, memory, ret, text, status, key, written) && r == if ret == 0 then sought else -1
      ensures !ChecksKey(flags, old(titleMethod)) ==> r == sought && Now() == old(Now())
      ensures !ChecksKey(flags, old(titleMethod)) ==>
                cache.log == old(cache.log) && cache.files == old(cache.files) && drive.log == old(drive.log)
    {
      hide ParseKey, PrintKey, AfterStore, IsLinked, IsSorted, StandsFor;
      ret, text, status, key, written := 0, "", 0, NO_KEY, -1;
      if (flags & SEEK_MPEG != 0 && !titleMethod) || flags & SEEK_KEY != 0 {
        var checked;
        checked, text, status, key, written := Title(blocks, memory);
        ret := checked;
        if checked != 0 {
          return -1, ret, text, status, key, written;
        }
      }
      r := sought;
    }
  }

  lemma NothingRead(files: map<int, string>, block: int)
    ensures IsStartOf("", files, block)
  {
  }

  lemma TextFits(k: Key)
    ensures |PrintKey(k) + END_OF_LINE| == TEXT_SIZE + |END_OF_LINE|
  {
  }

  const SEEK_MPEG: bv32 := 1
  const SEEK_KEY: bv32 := 2

  predicate ChecksKey(flags: bv32, titleMethod: bool) {
    (flags & SEEK_MPEG != 0 && !titleMethod) || flags & SEEK_KEY != 0
  }

  // The second flag always checks, the first one alone exactly outside the slow method, no flag never.
  lemma FlagsCheck(flags: bv32, titleMethod: bool)
    ensures ChecksKey(flags | 2, titleMethod)
    ensures ChecksKey(1, titleMethod) <==> !titleMethod
    ensures !ChecksKey(flags & 0xfffffffc, titleMethod)
  {
    OrHasFlag(flags);
    MaskHasNoFlag(flags);
  }
  lemma OrHasFlag(flags: bv32)
    ensures (flags | 2) & 2 != 0
  {
  }
  lemma MaskHasNoFlag(flags: bv32)
    ensures (flags & 0xfffffffc) & 1 == 0 && (flags & 0xfffffffc) & 2 == 0
  {
  }

  // What the drive found is written to the cache, also if it found that the title is not encrypted.
  lemma NoKeyIsCachedToo(d: Dvdcss, block: int, text: string, status: int, key: Key, written: int)
    requires d.cache.present && |text| != TEXT_SIZE
    ensures d.DriveCalls(block, text, status, key) == [Reply(block, status, key)]
    ensures (exists c :: c in d.CacheCalls(block, text, status, key, written) && c.Stored?) <==> status >= 0
  {
    hide ParseKey, PrintKey;
    var calls := d.CacheCalls(block, text, status, key, written);
    if status >= 0 { assert calls[1] in calls; }
  }

  // A key that has been written out in full is read from the cache from then on: the drive is not asked.
  lemma StoredKeyCostsNoDrive(d: Dvdcss, files: map<int, string>, block: int, k: Key, written: int, text: string,
                              status: int, key: Key, written': int)
    requires d.cache.present && TEXT_SIZE <= written <= TEXT_SIZE + |END_OF_LINE|
    requires IsStartOf(text, AfterStore(files, block, PrintKey(k) + END_OF_LINE, written), block) && |text| == TEXT_SIZE
    ensures d.Cached(text) == Some(k)
    ensures d.DriveCalls(block, text, status, key) == []
    ensures d.CacheCalls(block, text, status, key, written') == [Loaded(block, text)]
  {
    hide ParseKey, PrintByte, Overwritten;
    var was := if block in files then files[block] else "";
    StoredKeyIsFound(was, k, written);
    var now := Overwritten(was, (PrintKey(k) + END_OF_LINE)[..written]);
    assert text == now[..TEXT_SIZE];
    assert d.Cached(text).Some?;
  }

  // ---------------------------------------------------------------------------------------
  // Runs
  // ---------------------------------------------------------------------------------------

  // The known keys and the current one; a check of the key of a block, its result, and whether it
  // did without the cache and the drive
  datatype State = State(known: map<int, Key>, current: Key)
  datatype Check = Check(block: int, ret: int, free: bool)

  ghost predicate IsCheck(s: State, e: Check, t: State) {
    if e.block in s.known then e.ret == 0 && e.free && t == State(s.known, s.known[e.block])
    else if e.ret == 0 then t.known == s.known[e.block := t.current]
    else t == s
  }

  ghost predicate IsRun(states: seq<State>, checks: seq<Check>) {
    |states| == |checks| + 1 && forall i :: 0 <= i < |checks| ==> IsCheck(states[i], checks[i], states[i + 1])
  }

  // Known keys are never forgotten and never change.
  lemma {:induction false} KeysAreKept(states: seq<State>, checks: seq<Check>, i: nat, j: nat, b: int)
    requires IsRun(states, checks) && i <= j < |states| && b in states[i].known
    ensures b in states[j].known && states[j].known[b] == states[i].known[b]
  {
    if i < j {
      KeysAreKept(states, checks, i, j - 1, b);
      assert IsCheck(states[j - 1], checks[j - 1], states[j]);
    }
  }

  // A block whose check has succeeded once gives the same key ever after, without the cache or the drive.
  lemma FirstKeyStays(states: seq<State>, checks: seq<Check>, i: nat, j: nat)
    requires IsRun(states, checks) && i < j < |checks|
    requires checks[i].block == checks[j].block && checks[i].ret == 0
    ensures checks[j].ret == 0 && checks[j].free
    ensures states[j + 1].current == states[i + 1].current && states[j + 1].known == states[j].known
  {
    assert IsCheck(states[i], checks[i], states[i + 1]);
    KeysAreKept(states, checks, i + 1, j, checks[i].block);
    assert IsCheck(states[j], checks[j], states[j + 1]);
  }

  // The blocks that are known are those that were, and those whose check has succeeded.
  lemma {:induction false} KnownExactly(states: seq<State>, checks: seq<Check>, n: nat, b: int)
    requires IsRun(states, checks) && n < |states|
    ensures b in states[n].known <==>
            b in states[0].known || exists i :: 0 <= i < n && checks[i].block == b && checks[i].ret == 0
  {
    if n > 0 {
      KnownExactly(states, checks, n - 1, b);
      assert IsCheck(states[n - 1], checks[n - 1], states[n]);
    }
  }
}
