/** The archive reader: a strict scan of ustar headers, and the layout it accepts. */
module TarArchive {
  import opened Options
  import opened TarHeader

  datatype Result<+T> = Ok(value: T) | Refused(error: Error)
  datatype Error = Truncated | UnreadableNumber | ChecksumMismatch | NotUstar | UnsupportedType | UnsupportedPrefix | NotGzip

  /** One regular file: its name, mode, header offset and bytes. */
  datatype Entry = Entry(name: Bytes, mode: nat, offset: nat, content: Bytes)

  /** "ustar", the magic of a header. */
  const USTAR: Bytes := [117, 115, 116, 97, 114]

  predicate IsZero(block: Bytes) {
    forall i :: 0 <= i < |block| ==> block[i] == 0
  }

  /** Bytes that fill a size up to whole blocks. */
  function Blocks(size: nat): nat {
    (size + 511) / BLOCK * BLOCK
  }

  /** The size a header announces, once its checksum, magic, type and prefix are accepted. */
  function SizeOf(block: Bytes): Result<nat>
    requires |block| == BLOCK
  {
    var sum := Octal(block, 148, 8);
    if sum.None? then Refused(UnreadableNumber)
    else if Checksum(block) != sum.value then Refused(ChecksumMismatch)
    else if Field(block, 257, 6) != USTAR then Refused(NotUstar)
    else if !(block[156] == 48 || block[156] == 0) then Refused(UnsupportedType)
    else if Field(block, 345, 155) != [] then Refused(UnsupportedPrefix)
    else
      var size := Octal(block, 124, 12);
      if size.None? then Refused(UnreadableNumber) else Ok(size.value)
  }

  /** What one block says: the archive ends here, a file of this size follows, or the archive is refused. */
  datatype Heading = Final | File(name: Bytes, mode: nat, size: nat) | Bad(error: Error)

  function HeadingOf(block: Bytes, remaining: nat): (h: Heading)
    requires |block| == BLOCK
    ensures h.File? ==> BLOCK + h.size <= remaining
  {
    if IsZero(block) then Final else
    var size := SizeOf(block);
    if size.Refused? then Bad(size.error)
    else if BLOCK + size.value > remaining then Bad(Truncated)
    else
      var mode := Octal(block, 100, 8);
      if mode.None? then Bad(UnreadableNumber) else File(Field(block, 0, 100), mode.value, size.value)
  }

  function From(tar: Bytes, offset: nat): Bytes {
    if offset <= |tar| then tar[offset..] else []
  }

  /** The scan over the bytes from `offset` on. */
  function Scan(rest: Bytes, offset: nat): Result<seq<Entry>>
    decreases |rest|
  {
    if |rest| < BLOCK then Refused(Truncated) else
    match HeadingOf(rest[..BLOCK], |rest|)
    case Final => Ok([])
    case Bad(error) => Refused(error)
    case File(name, mode, size) =>
      var next := BLOCK + Blocks(size);
      Append([Entry(name, mode, offset, rest[BLOCK..BLOCK + size])], Scan(From(rest, next), offset + next))
  }

  function Append(entries: seq<Entry>, r: Result<seq<Entry>>): Result<seq<Entry>> {
    if r.Ok? then Ok(entries + r.value) else r
  }

  /** The files of an uncompressed archive, or why it is refused. */
  method TarEntries(tar: array<Byte>) returns (r: Result<seq<Entry>>)
    ensures r == Scan(tar[..], 0)
  {
    hide Scan, From, HeadingOf, Blocks, Append;
    ghost var whole := tar[..];
    var entries: seq<Entry> := [];
    var offset := 0;
    ScanFromStart(whole);
    while true
      invariant Scan(whole, 0) == Append(entries, Scan(From(whole, offset), offset))
      decreases tar.Length - offset
    {
      ScanAt(whole, offset, entries);
      if offset + BLOCK > tar.Length { return Refused(Truncated); }
      var block := tar[offset..offset + BLOCK];
      assert block == whole[offset..offset + BLOCK];
      match HeadingOf(block, tar.Length - offset)
      case Final => return Ok(entries);
      case Bad(error) => return Refused(error);
      case File(name, mode, size) =>
        entries := entries + [Entry(name, mode, offset, tar[offset + BLOCK..offset + BLOCK + size])];
        offset := offset + BLOCK + Blocks(size);
    }
  }

  lemma ScanFromStart(whole: Bytes)
    ensures Scan(whole, 0) == Append([], Scan(From(whole, 0), 0))
  {
    hide Scan;
    assert From(whole, 0) == whole;
    AppendNothing(Scan(whole, 0));
  }

  /** One round of the reader: the scan stops here, or goes on behind one more entry. */
  lemma ScanAt(whole: Bytes, offset: nat, entries: seq<Entry>)
    ensures offset + BLOCK > |whole| ==> Append(entries, Scan(From(whole, offset), offset)) == Refused(Truncated)
    ensures offset + BLOCK <= |whole| ==>
              Append(entries, Scan(From(whole, offset), offset)) ==
              match HeadingOf(whole[offset..offset + BLOCK], |whole| - offset)
              case Final => Ok(entries)
              case Bad(error) => Refused(error)
              case File(name, mode, size) =>
                var next := offset + BLOCK + Blocks(size);
                Append(entries + [Entry(name, mode, offset, whole[offset + BLOCK..offset + BLOCK + size])], Scan(From(whole, next), next))
  {
    hide HeadingOf, Blocks;
    if offset + BLOCK <= |whole| {
      var rest := whole[offset..];
      assert rest[..BLOCK] == whole[offset..offset + BLOCK];
      match HeadingOf(rest[..BLOCK], |rest|)
      case Final =>
        assert entries + [] == entries;
      case Bad(error) =>
      case File(name, mode, size) =>
        var next := BLOCK + Blocks(size);
        var one := [Entry(name, mode, offset, rest[BLOCK..BLOCK + size])];
        assert whole[offset + BLOCK..offset + BLOCK + size] == rest[BLOCK..BLOCK + size];
        assert From(whole, offset + next) == From(rest, next);
        AppendAppends(entries, one, Scan(From(rest, next), offset + next));
    }
  }

  lemma AppendNothing(r: Result<seq<Entry>>)
    ensures Append([], r) == r
  {
    if r.Ok? {
      assert [] + r.value == r.value;
    }
  }

  lemma AppendAppends(a: seq<Entry>, b: seq<Entry>, r: Result<seq<Entry>>)
    ensures Append(a, Append(b, r)) == Append(a + b, r)
  {
    if r.Ok? {
      assert a + (b + r.value) == (a + b) + r.value;
    }
  }

  // The layout, said without a scan: blocks laid end to end.

  /** A header block the restricted ustar layout allows: right checksum, right magic, a regular file, no prefix, readable size and mode. */
  predicate GoodHeader(h: Bytes) {
    && |h| == BLOCK
    && Octal(h, 148, 8) == Some(Checksum(h))
    && Field(h, 257, 6) == USTAR
    && (h[156] == 48 || h[156] == 0)
    && Field(h, 345, 155) == []
    && Octal(h, 124, 12).Some?
    && Octal(h, 100, 8).Some?
  }

  /** One file as it lies in an archive: its header, its bytes, and filler up to the next block. */
  datatype Member = Member(header: Bytes, content: Bytes, filler: Bytes)

  predicate GoodMember(m: Member) {
    && GoodHeader(m.header)
    && Octal(m.header, 124, 12) == Some(|m.content|)
    && |m.content| + |m.filler| == Blocks(|m.content|)
  }

  function Lay(m: Member): Bytes {
    m.header + m.content + m.filler
  }

  function Flat(ms: seq<Member>): Bytes {
    if ms == [] then [] else Lay(ms[0]) + Flat(ms[1..])
  }

  function Described(m: Member, offset: nat): Entry
    requires GoodMember(m)
  {
    Entry(Field(m.header, 0, 100), Octal(m.header, 100, 8).value, offset, m.content)
  }

  ghost predicate AllGood(ms: seq<Member>) {
    forall m :: m in ms ==> GoodMember(m)
  }

  function EntriesOf(ms: seq<Member>, offset: nat): (es: seq<Entry>)
    requires forall m :: m in ms ==> GoodMember(m)
    ensures |es| == |ms|
  {
    if ms == [] then [] else [Described(ms[0], offset)] + EntriesOf(ms[1..], offset + |Lay(ms[0])|)
  }

  /** Members laid end to end, then a zero block, then anything. */
  ghost predicate IsArchive(tar: Bytes, ms: seq<Member>) {
    && AllGood(ms)
    && |Flat(ms)| + BLOCK <= |tar|
    && tar[..|Flat(ms)|] == Flat(ms)
    && IsZero(tar[|Flat(ms)|..|Flat(ms)| + BLOCK])
  }

  lemma GoodHeaderIsNotZero(h: Bytes)
    requires GoodHeader(h)
    ensures !IsZero(h)
  {
    assert Field(h, 257, 6)[0] == 117;
    assert h[257..263][0] == h[257];
  }

  /** Where the parts of a member lie in a buffer that starts with it. */
  lemma PartsOfMember(tar: Bytes, m: Member)
    requires GoodMember(m) && |Lay(m)| <= |tar| && tar[..|Lay(m)|] == Lay(m)
    ensures |Lay(m)| == BLOCK + Blocks(|m.content|) && |m.header| == BLOCK
    ensures tar[..BLOCK] == m.header
    ensures tar[BLOCK..BLOCK + |m.content|] == m.content
    ensures tar[BLOCK + |m.content|..|Lay(m)|] == m.filler
  {
    hide Octal, Field, Checksum;
    assert forall i :: 0 <= i < |Lay(m)| ==> tar[i] == Lay(m)[i];
  }

  lemma SizesOfBlocks(size: nat)
    ensures size <= Blocks(size) < size + BLOCK && Blocks(size) % BLOCK == 0
  {
  }

  lemma SliceOfRest(tar: Bytes, a: nat, b: nat, n: nat)
    requires a + b + n <= |tar|
    ensures tar[a + b..a + b + n] == tar[a..][b..b + n]
  {
  }

  /** Peeling the first member off an archive leaves an archive. */
  lemma PeelArchive(tar: Bytes, ms: seq<Member>)
    requires ms != []
    ensures IsArchive(tar, ms) <==>
              GoodMember(ms[0]) && |Lay(ms[0])| <= |tar| && tar[..|Lay(ms[0])|] == Lay(ms[0]) && IsArchive(tar[|Lay(ms[0])|..], ms[1..])
  {
    var first, later := Lay(ms[0]), Flat(ms[1..]);
    assert Flat(ms) == first + later;
    assert forall m :: m in ms <==> m == ms[0] || m in ms[1..];
    if |first| <= |tar| {
      var rest := tar[|first|..];
      if |first| + |later| + BLOCK <= |tar| {
        assert tar[..|first| + |later|] == tar[..|first|] + rest[..|later|];
        SliceOfRest(tar, |first|, |later|, BLOCK);
        if tar[..|Flat(ms)|] == Flat(ms) {
          assert tar[..|first|] == Flat(ms)[..|first|] == first;
          assert rest[..|later|] == Flat(ms)[|first|..] == later;
        }
      }
    }
  }

  /** A block is read as a file exactly when it is a good header whose content is there. */
  lemma HeadingOfHeader(h: Bytes, remaining: nat)
    requires |h| == BLOCK
    ensures HeadingOf(h, remaining).File? ==> GoodHeader(h) && Octal(h, 124, 12) == Some(HeadingOf(h, remaining).size)
    ensures GoodHeader(h) && BLOCK + Octal(h, 124, 12).value <= remaining ==>
              HeadingOf(h, remaining) == File(Field(h, 0, 100), Octal(h, 100, 8).value, Octal(h, 124, 12).value)
  {
    hide Octal, Checksum, Field, IsZero;
    if GoodHeader(h) {
      GoodHeaderIsNotZero(h);
    }
  }

  /** The scan takes one member off and goes on behind it. */
  lemma ScanTakesMember(tar: Bytes, m: Member, offset: nat)
    requires GoodMember(m) && |Lay(m)| <= |tar| && tar[..|Lay(m)|] == Lay(m)
    ensures Scan(tar, offset) == Append([Described(m, offset)], Scan(tar[|Lay(m)|..], offset + |Lay(m)|))
  {
    hide Octal, Checksum, Field, Lay, HeadingOf, IsZero, Blocks;
    PartsOfMember(tar, m);
    SizesOfBlocks(|m.content|);
    HeadingOfHeader(m.header, |tar|);
  }

  lemma ScanStopsAtZero(tar: Bytes, offset: nat)
    requires |tar| >= BLOCK
    ensures IsZero(tar[..BLOCK]) ==> Scan(tar, offset) == Ok([])
  {
    hide Octal, Checksum, Field, IsZero, SizeOf;
  }

  lemma {:induction false} ArchiveIsAccepted(tar: Bytes, ms: seq<Member>, offset: nat)
    requires IsArchive(tar, ms)
    ensures Scan(tar, offset) == Ok(EntriesOf(ms, offset))
    decreases |ms|
  {
    hide Scan, IsArchive, Lay, Described, GoodMember;
    if ms == [] {
      EmptyStartsWithZero(tar);
      ScanStopsAtZero(tar, offset);
    } else {
      PeelArchive(tar, ms);
      ScanTakesMember(tar, ms[0], offset);
      ArchiveIsAccepted(tar[|Lay(ms[0])|..], ms[1..], offset + |Lay(ms[0])|);
    }
  }

  /** A scan that goes on has met a good header with its content, and its filler. */
  lemma ScanMeetsHeader(tar: Bytes, offset: nat) returns (size: nat)
    requires Scan(tar, offset).Ok? && !IsZero(tar[..BLOCK])
    ensures BLOCK + Blocks(size) <= |tar| && GoodHeader(tar[..BLOCK]) && Octal(tar[..BLOCK], 124, 12) == Some(size)
    ensures Scan(tar[BLOCK + Blocks(size)..], offset + BLOCK + Blocks(size)).Ok?
  {
    hide Octal, Checksum, Field, IsZero, SizeOf, GoodHeader, Blocks;
    var h := HeadingOf(tar[..BLOCK], |tar|);
    assert h.File?;
    size := h.size;
    HeadingOfHeader(tar[..BLOCK], |tar|);
    assert From(tar, BLOCK + Blocks(size)) != [];
  }

  lemma ZeroBlockIsArchive(tar: Bytes)
    requires |tar| >= BLOCK && IsZero(tar[..BLOCK])
    ensures IsArchive(tar, [])
  {
    assert tar[..0] == [] && tar[0..BLOCK] == tar[..BLOCK];
  }

  lemma ArchiveGrows(tar: Bytes, size: nat, later: seq<Member>) returns (ms: seq<Member>)
    requires BLOCK + Blocks(size) <= |tar| && GoodHeader(tar[..BLOCK]) && Octal(tar[..BLOCK], 124, 12) == Some(size)
    requires IsArchive(tar[BLOCK + Blocks(size)..], later)
    ensures IsArchive(tar, ms)
  {
    hide Octal, Checksum, Field, GoodHeader, IsArchive, Blocks;
    var n := BLOCK + Blocks(size);
    SizesOfBlocks(size);
    var m := Member(tar[..BLOCK], tar[BLOCK..BLOCK + size], tar[BLOCK + size..n]);
    ms := [m] + later;
    assert Lay(m) == tar[..n];
    assert ms[1..] == later;
    PeelArchive(tar, ms);
  }

  lemma {:induction false} AcceptedIsArchive(tar: Bytes, offset: nat) returns (ms: seq<Member>)
    requires Scan(tar, offset).Ok?
    ensures IsArchive(tar, ms)
    decreases |tar|
  {
    assert |tar| >= BLOCK;
    hide Scan, GoodHeader, IsArchive, IsZero, Octal;
    if IsZero(tar[..BLOCK]) {
      ZeroBlockIsArchive(tar);
      ms := [];
    } else {
      var size := ScanMeetsHeader(tar, offset);
      var later := AcceptedIsArchive(tar[BLOCK + Blocks(size)..], offset + BLOCK + Blocks(size));
      ms := ArchiveGrows(tar, size, later);
    }
  }

  /** The reader accepts exactly the layout, and describes exactly the members that lie there. */
  lemma AcceptsExactlyTheLayout(tar: Bytes, entries: seq<Entry>)
    ensures Scan(tar, 0) == Ok(entries) <==> exists ms :: IsArchive(tar, ms) && entries == EntriesOf(ms, 0)
  {
    if Scan(tar, 0) == Ok(entries) {
      var ms := AcceptedIsArchive(tar, 0);
      ArchiveIsAccepted(tar, ms, 0);
    }
    forall ms | IsArchive(tar, ms)
      ensures Scan(tar, 0) == Ok(EntriesOf(ms, 0))
    {
      ArchiveIsAccepted(tar, ms, 0);
    }
  }

  /** An archive decomposes into members in one way only. */
  lemma {:induction false} LayoutIsUnique(tar: Bytes, a: seq<Member>, b: seq<Member>)
    requires IsArchive(tar, a) && IsArchive(tar, b)
    ensures a == b
    decreases |a|
  {
    hide Octal, Field, Checksum, Flat, Lay, IsZero;
    if a == [] && b == [] {
    } else if a == [] {
      EmptyStartsWithZero(tar);
      StartsOneWay(tar, b);
    } else if b == [] {
      EmptyStartsWithZero(tar);
      StartsOneWay(tar, a);
    } else {
      PeelArchive(tar, a);
      PeelArchive(tar, b);
      PartsOfMember(tar, a[0]);
      PartsOfMember(tar, b[0]);
      LayoutIsUnique(tar[|Lay(a[0])|..], a[1..], b[1..]);
      assert a == [a[0]] + a[1..] && b == [b[0]] + b[1..];
    }
  }

  lemma EmptyStartsWithZero(tar: Bytes)
    requires IsArchive(tar, [])
    ensures |tar| >= BLOCK && IsZero(tar[..BLOCK])
  {
    assert tar[0..BLOCK] == tar[..BLOCK];
  }

  lemma StartsOneWay(tar: Bytes, ms: seq<Member>)
    requires IsArchive(tar, ms) && ms != []
    ensures !IsZero(tar[..BLOCK])
  {
    hide Octal, Field, Checksum, Flat, Lay, IsZero;
    PeelArchive(tar, ms);
    PartsOfMember(tar, ms[0]);
    GoodHeaderIsNotZero(ms[0].header);
  }

  /** The bytes an entry covers: its header and its content. */
  function End(e: Entry): nat {
    e.offset + BLOCK + Blocks(|e.content|)
  }

  /** An entry's header starts at a whole block, its content is found behind it, and a block follows its filler. */
  ghost predicate LiesIn(whole: Bytes, e: Entry) {
    && e.offset % BLOCK == 0
    && e.offset + BLOCK + |e.content| <= End(e)
    && End(e) + BLOCK <= |whole|
    && whole[e.offset + BLOCK..e.offset + BLOCK + |e.content|] == e.content
  }

  /** Entries in order: each lies in the buffer, none before `offset`, and none overlaps a later one. */
  ghost predicate InOrder(es: seq<Entry>, offset: nat, whole: Bytes) {
    && (forall e :: e in es ==> offset <= e.offset && LiesIn(whole, e))
    && (forall i, j :: 0 <= i < j < |es| ==> End(es[i]) <= es[j].offset)
  }

  lemma InOrderGrows(e: Entry, es: seq<Entry>, offset: nat, whole: Bytes)
    requires LiesIn(whole, e) && InOrder(es, offset, whole) && End(e) == offset
    ensures InOrder([e] + es, e.offset, whole)
  {
    hide LiesIn;
    assert e.offset <= End(e);
    var all := [e] + es;
    forall i, j | 0 <= i < j < |all|
      ensures End(all[i]) <= all[j].offset
    {
      assert all[j] == es[j - 1];
      if i > 0 {
        assert all[i] == es[i - 1];
      }
    }
  }

  lemma {:induction false} EntriesAreInOrder(tar: Bytes, ms: seq<Member>, offset: nat, whole: Bytes)
    requires IsArchive(tar, ms) && offset % BLOCK == 0
    requires offset <= |whole| && whole[offset..] == tar
    ensures InOrder(EntriesOf(ms, offset), offset, whole)
    decreases |ms|
  {
    if ms != [] {
      PeelArchive(tar, ms);
      var m, n := ms[0], |Lay(ms[0])|;
      assert |tar[n..]| >= BLOCK;
      MemberLies(tar, m, offset, whole);
      hide IsArchive, Lay, LiesIn, GoodMember, InOrder, Described;
      assert whole[offset + n..] == tar[n..];
      EntriesAreInOrder(tar[n..], ms[1..], offset + n, whole);
      InOrderGrows(Described(m, offset), EntriesOf(ms[1..], offset + n), offset + n, whole);
    }
  }

  lemma MemberLies(tar: Bytes, m: Member, offset: nat, whole: Bytes)
    requires GoodMember(m) && |Lay(m)| + BLOCK <= |tar| && tar[..|Lay(m)|] == Lay(m)
    requires offset % BLOCK == 0 && offset <= |whole| && whole[offset..] == tar
    ensures LiesIn(whole, Described(m, offset)) && End(Described(m, offset)) == offset + |Lay(m)| && Described(m, offset).offset == offset
    ensures (offset + |Lay(m)|) % BLOCK == 0
  {
    hide Octal, Field, Checksum, GoodHeader, Lay, Blocks;
    SizesOfBlocks(|m.content|);
    PartsOfMember(tar, m);
    assert whole[offset + BLOCK..offset + BLOCK + |m.content|] == whole[offset..][BLOCK..BLOCK + |m.content|];
  }

  /** What the reader returns, read off the buffer alone. */
  lemma EntriesLieInTheBuffer(tar: Bytes, es: seq<Entry>)
    requires Scan(tar, 0) == Ok(es)
    ensures InOrder(es, 0, tar)
  {
    hide Scan, IsArchive, EntriesOf, InOrder;
    var ms := AcceptedIsArchive(tar, 0);
    ArchiveIsAccepted(tar, ms, 0);
    assert tar[0..] == tar;
    EntriesAreInOrder(tar, ms, 0, tar);
  }
}
