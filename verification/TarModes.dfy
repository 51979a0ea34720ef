/** The mode normalizer: sets execute bits in header blocks of the buffer that was scanned, and recomputes their checksums. */
module TarModes {
  import opened Options
  import opened TarHeader
  import opened TarArchive

  /** Bytes with `text` written over them at `at`; nothing is written past the end. */
  function WriteAt(b: Bytes, at: nat, text: Bytes): (r: Bytes)
    ensures |r| == |b|
  {
    if at + |text| <= |b| then b[..at] + text + b[at + |text|..] else b
  }

  method WriteBytes(a: array<Byte>, at: nat, text: Bytes)
    requires at + |text| <= a.Length
    modifies a
    ensures a[..] == WriteAt(old(a[..]), at, text)
  {
    for i := 0 to |text|
      invariant forall k :: 0 <= k < a.Length ==> a[k] == if at <= k < at + i then text[k - at] else old(a[k])
    {
      a[at + i] := text[i];
    }
  }

  /** A header with a new mode and its own checksum. */
  function Patch(h: Bytes, mode: nat): (r: Bytes)
    ensures |r| == |h|
  {
    var h' := WriteAt(h, 100, Written(Executable(mode)));
    WriteAt(h', 148, Written(Checksum(h')))
  }

  function PatchAt(tar: Bytes, e: Entry): (r: Bytes)
    ensures |r| == |tar|
  {
    if e.offset + BLOCK <= |tar| then
      tar[..e.offset] + Patch(tar[e.offset..e.offset + BLOCK], e.mode) + tar[e.offset + BLOCK..]
    else tar
  }

  /** "package/", the directory npm packs everything under. */
  const PACKAGE: Bytes := [112, 97, 99, 107, 97, 103, 101, 47]

  function Stem(name: Bytes): Bytes {
    if PACKAGE <= name then name[|PACKAGE|..] else name
  }

  /** A listed file that is not executable yet. */
  predicate Lacks(e: Entry, executables: set<Bytes>) {
    Stem(e.name) in executables && !IsExecutable(e.mode)
  }

  function Normalized(tar: Bytes, es: seq<Entry>, executables: set<Bytes>): (r: Bytes)
    ensures |r| == |tar|
    decreases |es|
  {
    if es == [] then tar
    else Normalized(if Lacks(es[0], executables) then PatchAt(tar, es[0]) else tar, es[1..], executables)
  }

  function Restored(e: Entry, executables: set<Bytes>): Entry {
    if Lacks(e, executables) then e.(mode := Executable(e.mode)) else e
  }

  /** Compression as a pair of functions; the reader may refuse what is not gzip. */
  datatype Codec = Codec(gunzip: Bytes -> Option<Bytes>, gzip: Bytes -> Bytes)

  /** The bytes with the "unknown system" byte at index 9. */
  function Portable(z: Bytes): Bytes {
    if |z| > 9 then z[9 := 255] else z
  }

  /** What the format promises: decoding inverts encoding, and the OS byte (section 2.3 of RFC 1952) says nothing about the content. */
  ghost predicate Inverse(codec: Codec) {
    && (forall x :: codec.gunzip(codec.gzip(x)) == Some(x))
    && (forall z :: codec.gunzip(Portable(z)) == codec.gunzip(z))
  }

  function NormalizedTgz(tgz: Bytes, executables: set<Bytes>, codec: Codec): Result<Bytes> {
    match codec.gunzip(tgz)
    case None => Refused(NotGzip)
    case Some(tar) =>
      match Scan(tar, 0)
      case Refused(error) => Refused(error)
      case Ok(es) =>
        if exists e :: e in es && Lacks(e, executables)
        then Ok(Portable(codec.gzip(Normalized(tar, es, executables))))
        else Ok(tgz)
  }

  /** The normalizer as it runs: one buffer, scanned once, patched in place header by header. */
  method NormalizeModes(tgz: Bytes, executables: set<Bytes>, codec: Codec) returns (r: Result<Bytes>)
    ensures r == NormalizedTgz(tgz, executables, codec)
  {
    var raw := codec.gunzip(tgz);
    if raw.None? { return Refused(NotGzip); }
    var tar := new Byte[|raw.value|](i requires 0 <= i < |raw.value| => raw.value[i]);
    assert tar[..] == raw.value;
    var scanned := TarEntries(tar);
    if scanned.Refused? { return Refused(scanned.error); }
    hide Scan, Lacks, Normalized;
    var entries := scanned.value;
    forall e | e in entries
      ensures Patchable(tar.Length, e)
    {
      EntryIsPatchable(raw.value, entries, e);
    }
    var changed := NormalizeBuffer(tar, entries, executables);
    if !changed { return Ok(tgz); }
    var bytes := codec.gzip(tar[..]);
    r := Ok(Portable(bytes));
  }

  predicate Patchable(length: nat, e: Entry) {
    e.offset + BLOCK <= length && e.mode < Power8(8)
  }

  method NormalizeBuffer(tar: array<Byte>, entries: seq<Entry>, executables: set<Bytes>) returns (changed: bool)
    requires forall e :: e in entries ==> Patchable(tar.Length, e)
    modifies tar
    ensures tar[..] == Normalized(old(tar[..]), entries, executables)
    ensures changed <==> exists e :: e in entries && Lacks(e, executables)
    ensures !changed ==> tar[..] == old(tar[..])
  {
    hide Lacks, PatchAt, Power8;
    changed := false;
    for i := 0 to |entries|
      invariant Normalized(old(tar[..]), entries, executables) == Normalized(tar[..], entries[i..], executables)
      invariant changed <==> exists e :: e in entries[..i] && Lacks(e, executables)
      invariant !changed ==> tar[..] == old(tar[..])
    {
      var entry := entries[i];
      assert entries[i..][1..] == entries[i + 1..];
      assert entries[..i + 1] == entries[..i] + [entry];
      if !Lacks(entry, executables) { continue; }
      PatchInPlace(tar, entry);
      changed := true;
    }
    assert entries[..|entries|] == entries;
  }

  lemma EntryIsPatchable(tar: Bytes, es: seq<Entry>, e: Entry)
    requires Scan(tar, 0) == Ok(es) && e in es
    ensures Patchable(|tar|, e)
  {
    hide Scan, EntriesOf, Octal;
    EntriesLieInTheBuffer(tar, es);
    var ms := AcceptedIsArchive(tar, 0);
    ArchiveIsAccepted(tar, ms, 0);
    ModesAreSmall(ms, 0, e);
  }

  lemma {:induction false} ModesAreSmall(ms: seq<Member>, offset: nat, e: Entry)
    requires AllGood(ms) && e in EntriesOf(ms, offset)
    ensures e.mode < Power8(8)
  {
    hide Octal, Lay;
    if e == Described(ms[0], offset) {
      FieldIsSmall(ms[0].header, 100, 8);
    } else {
      ModesAreSmall(ms[1..], offset + |Lay(ms[0])|, e);
    }
  }

  /** A field of `length` bytes holds a number of at most that many digits. */
  lemma FieldIsSmall(block: Bytes, start: nat, length: nat)
    requires start + length <= |block| && Octal(block, start, length).Some?
    ensures Octal(block, start, length).value < Power8(length)
  {
    var cut := Field(block, start, length);
    CutIsShorter(block[start..start + length]);
    StartIsShorter(cut);
    EndIsShorter(TrimStart(cut));
    var text := TrimEnd(TrimStart(cut));
    ValueIsBelow(text);
    PowerGrows(|text|, length);
  }

  lemma {:induction false} CutIsShorter(s: Bytes)
    ensures |UntilNul(s)| <= |s|
  {
    if s != [] { CutIsShorter(s[1..]); }
  }

  lemma {:induction false} StartIsShorter(s: Bytes)
    ensures |TrimStart(s)| <= |s|
  {
    if s != [] { StartIsShorter(s[1..]); }
  }

  lemma {:induction false} EndIsShorter(s: Bytes)
    ensures |TrimEnd(s)| <= |s|
    decreases |s|
  {
    if s != [] { EndIsShorter(s[..|s| - 1]); }
  }

  lemma {:induction false} PowerGrows(small: nat, large: nat)
    requires small <= large
    ensures Power8(small) <= Power8(large)
  {
    if small < large { PowerGrows(small, large - 1); }
  }

  lemma WrittenIsShort(n: nat)
    requires n < Power8(8)
    ensures 8 <= |Written(n)| <= 10
    ensures |Written(n)| == 8 <==> n < Power8(6)
  {
    DigitsFit(n, 8);
    DigitsFit(n, 6);
  }

  /** Writes the mode and then the checksum of one header, in the buffer that holds it. */
  method PatchInPlace(tar: array<Byte>, e: Entry)
    requires Patchable(tar.Length, e)
    modifies tar
    ensures tar[..] == PatchAt(old(tar[..]), e)
  {
    ghost var was := tar[..];
    ghost var block := was[e.offset..e.offset + BLOCK];
    ExecutableIsExecutable(e.mode, 8);
    var mode := Written(Executable(e.mode));
    WrittenIsShort(Executable(e.mode));
    hide Written, Executable, Checksum;
    WriteBytes(tar, e.offset + 100, mode);
    WriteInside(was, e.offset, 100, mode);
    ghost var marked := WriteAt(block, 100, mode);
    var sum := Checksum(tar[e.offset..e.offset + BLOCK]);
    assert tar[e.offset..e.offset + BLOCK] == tar[..][e.offset..e.offset + BLOCK] == marked;
    ChecksumFits(marked);
    ghost var then_ := tar[..];
    WriteBytes(tar, e.offset + 148, Written(sum));
    WriteInside(then_, e.offset, 148, Written(sum));
    assert then_[..e.offset] == was[..e.offset] && then_[e.offset + BLOCK..] == was[e.offset + BLOCK..];
  }

  /** Writing into a buffer writes into the block it falls in. */
  lemma WriteInside(tar: Bytes, offset: nat, at: nat, text: Bytes)
    requires offset + BLOCK <= |tar| && at + |text| <= BLOCK
    ensures WriteAt(tar, offset + at, text) == tar[..offset] + WriteAt(tar[offset..offset + BLOCK], at, text) + tar[offset + BLOCK..]
    ensures WriteAt(tar, offset + at, text)[offset..offset + BLOCK] == WriteAt(tar[offset..offset + BLOCK], at, text)
  {
    var block, n := tar[offset..offset + BLOCK], |text|;
    var written := block[..at] + text + block[at + n..];
    assert tar[..offset + at] == tar[..offset] + block[..at];
    assert tar[offset + at + n..] == block[at + n..] + tar[offset + BLOCK..];
    assert WriteAt(tar, offset + at, text) == tar[..offset] + written + tar[offset + BLOCK..];
    assert (tar[..offset] + written + tar[offset + BLOCK..])[offset..offset + BLOCK] == written;
  }

  // What a run does to an archive.

  function PatchMember(m: Member, executables: set<Bytes>): Member
    requires GoodMember(m)
  {
    var e := Described(m, 0);
    if Lacks(e, executables) then m.(header := Patch(m.header, e.mode)) else m
  }

  function PatchAll(ms: seq<Member>, executables: set<Bytes>): (r: seq<Member>)
    requires forall m :: m in ms ==> GoodMember(m)
    ensures |r| == |ms|
  {
    if ms == [] then [] else [PatchMember(ms[0], executables)] + PatchAll(ms[1..], executables)
  }

  /** The two fields that are written: eight to ten bytes at 100, eight bytes at 148. */
  predicate Touched(k: int, mode: nat) {
    100 <= k < 100 + |Written(Executable(mode))| || 148 <= k < 156
  }

  lemma PatchWritesTwoFields(h: Bytes, mode: nat)
    requires |h| == BLOCK && mode < Power8(8)
    ensures |Written(Executable(mode))| <= 10
    ensures var p, before, text := Patch(h, mode), WriteAt(h, 100, Written(Executable(mode))), Written(Executable(mode));
            && (forall k :: 0 <= k < BLOCK && !Touched(k, mode) ==> p[k] == h[k])
            && p[100..100 + |text|] == text
            && |before| == BLOCK && p[148..156] == Written(Checksum(before))
            && (forall k :: 0 <= k < BLOCK && !(148 <= k < 156) ==> p[k] == before[k])
  {
    ExecutableIsExecutable(mode, 8);
    WrittenIsShort(Executable(mode));
    hide Checksum, Written, Executable;
    var p, before, text := Patch(h, mode), WriteAt(h, 100, Written(Executable(mode))), Written(Executable(mode));
    ChecksumFits(before);
    assert before[100..100 + |text|] == text;
    assert p[..148] == before[..148];
    assert p[100..100 + |text|] == p[..148][100..100 + |text|] == before[..148][100..100 + |text|];
  }

  lemma PatchTouchesTwoFields(h: Bytes, mode: nat)
    requires |h| == BLOCK && mode < Power8(8)
    ensures forall k :: 0 <= k < BLOCK && !Touched(k, mode) ==> Patch(h, mode)[k] == h[k]
    ensures |Written(Executable(mode))| <= 10
    ensures Patch(h, mode)[100..100 + |Written(Executable(mode))|] == Written(Executable(mode))
    ensures Octal(Patch(h, mode), 148, 8) == Some(Checksum(Patch(h, mode)))
    ensures Octal(Patch(h, mode), 100, 8) == Some(Executable(mode))
  {
    PatchWritesTwoFields(h, mode);
    ExecutableIsExecutable(mode, 8);
    hide Octal, Checksum, Written, Executable, Patch, WriteAt;
    var p, before := Patch(h, mode), WriteAt(h, 100, Written(Executable(mode)));
    ChecksumFits(before);
    PowerGrows(6, 8);
    WrittenReadsBack(Executable(mode), p, 100);
    WrittenReadsBack(Checksum(before), p, 148);
    ChecksumMasksItself(p, before, 0);
    ChecksumIsSum(p);
    ChecksumIsSum(before);
  }

  lemma ChecksumIsSum(b: Bytes)
    ensures Checksum(b) == SumFrom(b, 0)
  {
  }

  /** Patching keeps a header good: same name, size, type and magic, a new mode, and the checksum that goes with it. */
  lemma PatchKeepsHeader(h: Bytes)
    requires GoodHeader(h)
    ensures var p := Patch(h, Octal(h, 100, 8).value);
            && GoodHeader(p)
            && Field(p, 0, 100) == Field(h, 0, 100)
            && Octal(p, 124, 12) == Octal(h, 124, 12)
            && Octal(p, 100, 8) == Some(Executable(Octal(h, 100, 8).value))
  {
    var mode := Octal(h, 100, 8).value;
    FieldIsSmall(h, 100, 8);
    PatchTouchesTwoFields(h, mode);
    hide UntilNul, TrimStart, TrimEnd, IsOctal, Value, Checksum, Executable, Patch, Written, Power8;
    var p := Patch(h, mode);
    assert p[0..100] == h[0..100];
    assert p[124..136] == h[124..136];
    assert p[257..263] == h[257..263];
    assert p[345..500] == h[345..500];
    assert p[156] == h[156];
  }

  lemma PatchKeepsMember(m: Member, offset: nat, executables: set<Bytes>)
    requires GoodMember(m)
    ensures var p := PatchMember(m, executables);
            && GoodMember(p) && |Lay(p)| == |Lay(m)|
            && Described(p, offset) == Restored(Described(m, offset), executables)
  {
    PatchKeepsHeader(m.header);
    hide Octal, Field, GoodHeader, Patch, Executable, IsExecutable, Blocks, Stem;
  }

  function RestoredAll(es: seq<Entry>, executables: set<Bytes>): (r: seq<Entry>)
    ensures |r| == |es| && forall i :: 0 <= i < |es| ==> r[i] == Restored(es[i], executables)
  {
    if es == [] then [] else [Restored(es[0], executables)] + RestoredAll(es[1..], executables)
  }

  lemma {:induction false} PatchKeepsGood(ms: seq<Member>, executables: set<Bytes>)
    requires AllGood(ms)
    ensures AllGood(PatchAll(ms, executables)) && |Flat(PatchAll(ms, executables))| == |Flat(ms)|
  {
    hide GoodMember, Lay, PatchMember;
    if ms != [] {
      PatchKeepsMember(ms[0], 0, executables);
      PatchKeepsGood(ms[1..], executables);
      var ps := PatchAll(ms, executables);
      assert ps[1..] == PatchAll(ms[1..], executables);
      assert forall p :: p in ps ==> p == ps[0] || p in ps[1..];
    }
  }

  lemma {:induction false} PatchRestoresAll(ms: seq<Member>, offset: nat, executables: set<Bytes>)
    requires AllGood(ms) && AllGood(PatchAll(ms, executables))
    ensures EntriesOf(PatchAll(ms, executables), offset) == RestoredAll(EntriesOf(ms, offset), executables)
  {
    hide GoodMember, Lay, Described, PatchMember, Restored;
    if ms != [] {
      var ps, n := PatchAll(ms, executables), |Lay(ms[0])|;
      PatchKeepsMember(ms[0], offset, executables);
      assert ps[1..] == PatchAll(ms[1..], executables);
      PatchRestoresAll(ms[1..], offset + n, executables);
      assert EntriesOf(ms, offset)[1..] == EntriesOf(ms[1..], offset + n);
      assert EntriesOf(ps, offset) == [Described(ps[0], offset)] + EntriesOf(ps[1..], offset + n);
    }
  }

  /** Patching a member where it lies is patching the buffer at its entry. */
  lemma PatchWhereItLies(before: Bytes, m: Member, after: Bytes, executables: set<Bytes>)
    requires GoodMember(m)
    ensures var e := Described(m, |before|); var tar := before + Lay(m) + after;
            (if Lacks(e, executables) then PatchAt(tar, e) else tar) == before + Lay(PatchMember(m, executables)) + after
  {
    hide Octal, Field, Checksum, Patch, Lacks, Blocks;
    var e, tail := Described(m, |before|), m.content + m.filler + after;
    assert Lacks(e, executables) == Lacks(Described(m, 0), executables) by {
      OffsetDoesNotMatter(Described(m, 0), |before|, executables);
    }
    assert before + Lay(m) + after == before + m.header + tail;
    PatchBetween(before, m.header, tail, e);
    var patched := m.(header := Patch(m.header, e.mode));
    assert before + patched.header + tail == before + Lay(patched) + after;
  }

  lemma OffsetDoesNotMatter(e: Entry, offset: nat, executables: set<Bytes>)
    ensures Lacks(e.(offset := offset), executables) == Lacks(e, executables)
  {
  }

  lemma PatchBetween(before: Bytes, h: Bytes, tail: Bytes, e: Entry)
    requires |h| == BLOCK && e.offset == |before|
    ensures PatchAt(before + h + tail, e) == before + Patch(h, e.mode) + tail
  {
    hide Patch;
    var tar := before + h + tail;
    assert tar[|before|..|before| + BLOCK] == h;
    assert tar[..|before|] == before;
    assert tar[|before| + BLOCK..] == tail;
  }

  /** The normalizer's passes over the buffer add up to patching every member where it lies. */
  lemma {:induction false} NormalizedIsPatched(before: Bytes, ms: seq<Member>, after: Bytes, executables: set<Bytes>)
    requires AllGood(ms)
    ensures Normalized(before + Flat(ms) + after, EntriesOf(ms, |before|), executables) == before + Flat(PatchAll(ms, executables)) + after
    decreases |ms|
  {
    hide GoodMember, Lay, Described, PatchMember, Lacks, PatchAt;
    if ms != [] {
      var m, rest := ms[0], Flat(ms[1..]) + after;
      var p := PatchMember(m, executables);
      PatchKeepsMember(m, |before|, executables);
      PatchWhereItLies(before, m, rest, executables);
      Regrouped(before, Lay(m), Flat(ms[1..]), after);
      Regrouped(before, Lay(p), Flat(ms[1..]), after);
      NormalizedIsPatched(before + Lay(p), ms[1..], after, executables);
      assert EntriesOf(ms, |before|)[1..] == EntriesOf(ms[1..], |before + Lay(p)|);
      assert Flat(PatchAll(ms, executables)) == Lay(p) + Flat(PatchAll(ms[1..], executables));
      Regrouped(before, Lay(p), Flat(PatchAll(ms[1..], executables)), after);
    }
  }

  lemma Regrouped(a: Bytes, b: Bytes, c: Bytes, d: Bytes)
    ensures a + (b + c) + d == a + b + (c + d) == (a + b) + c + d
  {
  }

  /** The normalized archive is accepted, with the same names, offsets and contents, and execute bits exactly where a listed file lacked one. */
  lemma NormalizedIsAccepted(tar: Bytes, es: seq<Entry>, executables: set<Bytes>)
    requires Scan(tar, 0) == Ok(es)
    ensures Scan(Normalized(tar, es, executables), 0) == Ok(RestoredAll(es, executables))
  {
    hide Scan, Flat, EntriesOf, PatchAll, GoodMember, RestoredAll, IsZero, Normalized;
    var ms := AcceptedIsArchive(tar, 0);
    ArchiveIsAccepted(tar, ms, 0);
    var rest := tar[|Flat(ms)|..];
    assert tar == [] + Flat(ms) + rest;
    NormalizedIsPatched([], ms, rest, executables);
    PatchKeepsGood(ms, executables);
    PatchRestoresAll(ms, 0, executables);
    var ps := PatchAll(ms, executables);
    var tar' := Normalized(tar, es, executables);
    assert tar' == Flat(ps) + rest;
    assert tar'[|Flat(ps)|..|Flat(ps)| + BLOCK] == tar[|Flat(ms)|..|Flat(ms)| + BLOCK];
    assert tar'[..|Flat(ps)|] == Flat(ps);
    ArchiveIsAccepted(tar', ps, 0);
  }

  lemma RestoredLacksNothing(e: Entry, executables: set<Bytes>)
    requires e.mode < Power8(8)
    ensures !Lacks(Restored(e, executables), executables)
  {
    ExecutableIsExecutable(e.mode, 8);
  }

  /** A second run finds nothing to do. */
  lemma SecondRunFindsNothing(tar: Bytes, es: seq<Entry>, executables: set<Bytes>)
    requires Scan(tar, 0) == Ok(es)
    ensures forall e :: e in RestoredAll(es, executables) ==> !Lacks(e, executables)
  {
    hide Scan, Lacks, Restored;
    forall i | 0 <= i < |es|
      ensures !Lacks(RestoredAll(es, executables)[i], executables)
    {
      EntryIsPatchable(tar, es, es[i]);
      RestoredLacksNothing(es[i], executables);
    }
  }

  /** Byte for byte, normalizing an archive that was normalized returns it. */
  lemma NormalizingTwiceIsOnce(tgz: Bytes, executables: set<Bytes>, codec: Codec)
    requires Inverse(codec) && NormalizedTgz(tgz, executables, codec).Ok?
    ensures var once := NormalizedTgz(tgz, executables, codec).value;
            NormalizedTgz(once, executables, codec) == Ok(once)
  {
    var tar := codec.gunzip(tgz).value;
    var es := Scan(tar, 0).value;
    NormalizedIsAccepted(tar, es, executables);
    SecondRunFindsNothing(tar, es, executables);
    hide Scan, Normalized, Lacks, RestoredAll, Portable;
    var tar' := Normalized(tar, es, executables);
    assert codec.gunzip(Portable(codec.gzip(tar'))) == Some(tar');
  }

  /** A byte that changed lies in the mode field or the checksum field of a listed header that lacked a bit. */
  predicate InTouchedField(k: int, es: seq<Entry>, executables: set<Bytes>) {
    exists e :: e in es && Lacks(e, executables) && e.offset <= k < e.offset + BLOCK && Touched(k - e.offset, e.mode)
  }

  lemma PatchAtTouches(tar: Bytes, e: Entry, k: int)
    requires Patchable(|tar|, e) && 0 <= k < |tar| && PatchAt(tar, e)[k] != tar[k]
    ensures e.offset <= k < e.offset + BLOCK && Touched(k - e.offset, e.mode)
  {
    hide Patch, Written, Executable, Checksum, Octal, Power8;
    PatchTouchesTwoFields(tar[e.offset..e.offset + BLOCK], e.mode);
  }

  lemma {:induction false} OnlyTouchedFieldsChange(tar: Bytes, es: seq<Entry>, executables: set<Bytes>, k: int)
    requires forall e :: e in es ==> Patchable(|tar|, e)
    requires 0 <= k < |tar| && Normalized(tar, es, executables)[k] != tar[k]
    ensures InTouchedField(k, es, executables)
    decreases |es|
  {
    hide Patchable, PatchAt, Lacks, Touched;
    if es != [] {
      var e := es[0];
      var next := if Lacks(e, executables) then PatchAt(tar, e) else tar;
      if next[k] != tar[k] {
        PatchAtTouches(tar, e, k);
      } else {
        OnlyTouchedFieldsChange(next, es[1..], executables, k);
      }
    }
  }

  /** With modes of six octal digits, which is all npm writes, only bytes 100 to 107 and 148 to 155 of a header are written; a longer mode spills. */
  lemma SixDigitModesStayInTheirField(mode: nat)
    requires mode < Power8(8)
    ensures mode < Power8(6) <==> forall k :: Touched(k, mode) <==> 100 <= k < 108 || 148 <= k < 156
  {
    ExecutableIsExecutable(mode, 8);
    WrittenIsShort(Executable(mode));
    OrIsAtLeast(mode, EXECUTE);
    if mode < Power8(6) {
      ExecutableIsExecutable(mode, 6);
    } else {
      assert Touched(108, mode);
    }
  }

  lemma {:induction false} OrIsAtLeast(a: nat, b: nat)
    ensures a <= Or(a, b)
  {
    if a != 0 || b != 0 {
      OrIsAtLeast(a / 2, b / 2);
    }
  }

  /** The whole effect of a run on the buffer it accepted. */
  lemma NormalizerKeepsAllElse(tar: Bytes, es: seq<Entry>, executables: set<Bytes>, k: int)
    requires Scan(tar, 0) == Ok(es) && 0 <= k < |tar|
    ensures Normalized(tar, es, executables)[k] == tar[k] || InTouchedField(k, es, executables)
  {
    hide Scan, Normalized, InTouchedField, Patchable;
    forall e | e in es
      ensures Patchable(|tar|, e)
    {
      EntryIsPatchable(tar, es, e);
    }
    if Normalized(tar, es, executables)[k] != tar[k] {
      OnlyTouchedFieldsChange(tar, es, executables, k);
    }
  }
}
