/** What the normalizer does to an archive, said of names and bits, and one archive as npm packs it. */
module TarLaws {
  import opened Options
  import opened TarHeader
  import opened TarArchive
  import opened TarModes

  // Bits.

  lemma {:induction false} BitOfAnd(a: nat, b: nat, k: nat)
    ensures Bit(And(a, b), k) == if Bit(a, k) == 1 && Bit(b, k) == 1 then 1 else 0
  {
    if a == 0 || b == 0 {
      BitOfZero(k);
    } else {
      assert And(a, b) / 2 == And(a / 2, b / 2);
      if k > 0 {
        BitOfAnd(a / 2, b / 2, k - 1);
      }
    }
  }

  lemma {:induction false} BitIsBit(n: nat, k: nat)
    ensures Bit(n, k) == 0 || Bit(n, k) == 1
  {
    if k > 0 {
      BitIsBit(n / 2, k - 1);
    }
  }

  /** The mask 0o111 has bits 0, 3 and 6. */
  lemma BitsOfMask(k: nat)
    ensures Bit(73, k) == if k == 0 || k == 3 || k == 6 then 1 else 0
  {
    assert Bit(73, 1) == Bit(36, 0) && Bit(73, 2) == Bit(36, 1) == Bit(18, 0) && Bit(73, 3) == Bit(36, 2) == Bit(18, 1) == Bit(9, 0);
    if k >= 4 {
      assert Bit(73, k) == Bit(36, k - 1) == Bit(18, k - 2) == Bit(9, k - 3) == Bit(4, k - 4);
      if k >= 7 {
        assert Bit(4, k - 4) == Bit(2, k - 5) == Bit(1, k - 6) == Bit(0, k - 7);
        BitOfZero(k - 7);
      } else {
        assert Bit(4, 0) == 0 && Bit(4, 1) == Bit(2, 0) == 0 && Bit(4, 2) == Bit(2, 1) == Bit(1, 0) == 1;
      }
    }
  }

  /** A mode with the three execute bits set and every other bit as it was. */
  ghost predicate SetFrom(mode: nat, now: nat) {
    forall k: nat :: Bit(now, k) == if k == 0 || k == 3 || k == 6 then 1 else Bit(mode, k)
  }

  lemma OrSets(mode: nat)
    ensures SetFrom(mode, Executable(mode))
  {
    forall k: nat
      ensures Bit(Executable(mode), k) == if k == 0 || k == 3 || k == 6 then 1 else Bit(mode, k)
    {
      BitsOfMask(k);
      BitIsBit(mode, k);
      BitOfOr(mode, EXECUTE, k);
    }
  }

  lemma ExecutableHasBits(mode: nat)
    requires IsExecutable(mode)
    ensures SetFrom(mode, mode)
  {
    forall k: nat
      ensures Bit(mode, k) == if k == 0 || k == 3 || k == 6 then 1 else Bit(mode, k)
    {
      BitsOfMask(k);
      BitOfAnd(mode, EXECUTE, k);
    }
  }

  // Names.

  /** The file an entry stands for: its name behind "package/", or its name when it does not start so. */
  ghost predicate StandsFor(name: Bytes, file: Bytes) {
    || name == [112, 97, 99, 107, 97, 103, 101, 47] + file
    || (name == file && !([112, 97, 99, 107, 97, 103, 101, 47] <= name))
  }

  lemma StemStandsFor(name: Bytes, file: Bytes)
    ensures Stem(name) == file <==> StandsFor(name, file)
  {
    var p: Bytes := [112, 97, 99, 107, 97, 103, 101, 47];
    assert (p + file)[..8] == p && (p + file)[8..] == file;
    if p <= name {
      assert name == p + name[8..];
    }
  }

  /** Entry by entry: name, place and content stay; the file a list names gets its three bits, any other keeps its mode. */
  ghost predicate ModesFollow(es: seq<Entry>, now: seq<Entry>, executables: set<Bytes>) {
    && |now| == |es|
    && forall i :: 0 <= i < |es| ==>
         && now[i] == es[i].(mode := now[i].mode)
         && (forall file :: StandsFor(es[i].name, file) && file in executables ==> SetFrom(es[i].mode, now[i].mode))
         && ((forall file :: StandsFor(es[i].name, file) ==> file !in executables) ==> now[i].mode == es[i].mode)
  }

  lemma RestoredFollows(e: Entry, executables: set<Bytes>)
    ensures var now := Restored(e, executables);
            && now == e.(mode := now.mode)
            && (forall file :: StandsFor(e.name, file) && file in executables ==> SetFrom(e.mode, now.mode))
            && ((forall file :: StandsFor(e.name, file) ==> file !in executables) ==> now.mode == e.mode)
  {
    forall file
      ensures Stem(e.name) == file <==> StandsFor(e.name, file)
    {
      StemStandsFor(e.name, file);
    }
    OrSets(e.mode);
    if IsExecutable(e.mode) {
      ExecutableHasBits(e.mode);
    }
    hide SetFrom, StandsFor, IsExecutable, Executable, Stem;
    assert StandsFor(e.name, Stem(e.name));
  }

  lemma RestoredAllFollow(es: seq<Entry>, executables: set<Bytes>)
    ensures ModesFollow(es, RestoredAll(es, executables), executables)
  {
    hide Restored, StandsFor, SetFrom;
    forall i | 0 <= i < |es|
    {
      RestoredFollows(es[i], executables);
    }
  }

  /** The normalizer works on the files the list names, under npm's directory or without it, and on no other. */
  lemma ModesFollowTheList(tar: Bytes, es: seq<Entry>, now: seq<Entry>, executables: set<Bytes>)
    requires Scan(tar, 0) == Ok(es) && Scan(Normalized(tar, es, executables), 0) == Ok(now)
    ensures ModesFollow(es, now, executables)
  {
    hide Scan, Normalized, ModesFollow;
    NormalizedIsAccepted(tar, es, executables);
    RestoredAllFollow(es, executables);
  }

  lemma LackingIsNotSet(e: Entry, executables: set<Bytes>, file: Bytes)
    requires StandsFor(e.name, file)
    ensures Lacks(e, executables) <==> file in executables && !SetFrom(e.mode, e.mode)
  {
    StemStandsFor(e.name, file);
    if IsExecutable(e.mode) {
      ExecutableHasBits(e.mode);
    } else if SetFrom(e.mode, e.mode) {
      BitsSetIsExecutable(e.mode);
    }
  }

  lemma {:induction false} SameBitsSameNumber(a: nat, b: nat)
    requires forall k: nat :: Bit(a, k) == Bit(b, k)
    ensures a == b
    decreases a + b
  {
    assert Bit(a, 0) == Bit(b, 0);
    if a != 0 || b != 0 {
      forall k: nat
        ensures Bit(a / 2, k) == Bit(b / 2, k)
      {
        assert Bit(a, k + 1) == Bit(b, k + 1);
      }
      SameBitsSameNumber(a / 2, b / 2);
    }
  }

  lemma BitsSetIsExecutable(mode: nat)
    requires SetFrom(mode, mode)
    ensures IsExecutable(mode)
  {
    forall k: nat
      ensures Bit(And(mode, EXECUTE), k) == Bit(EXECUTE, k)
    {
      BitOfAnd(mode, EXECUTE, k);
      BitsOfMask(k);
      assert Bit(mode, k) == if k == 0 || k == 3 || k == 6 then 1 else Bit(mode, k);
    }
    SameBitsSameNumber(And(mode, EXECUTE), EXECUTE);
  }

  /** A listed file without one of its three bits. */
  ghost predicate Wanting(es: seq<Entry>, executables: set<Bytes>) {
    exists i, file :: 0 <= i < |es| && StandsFor(es[i].name, file) && file in executables && !SetFrom(es[i].mode, es[i].mode)
  }

  lemma SomeLackIffWanting(es: seq<Entry>, executables: set<Bytes>)
    ensures (exists e :: e in es && Lacks(e, executables)) <==> Wanting(es, executables)
  {
    hide Lacks, StandsFor, SetFrom, Stem;
    forall i | 0 <= i < |es|
      ensures Lacks(es[i], executables) <==> exists file :: StandsFor(es[i].name, file) && file in executables && !SetFrom(es[i].mode, es[i].mode)
    {
      StemStandsFor(es[i].name, Stem(es[i].name));
      forall file | StandsFor(es[i].name, file)
        ensures Lacks(es[i], executables) <==> file in executables && !SetFrom(es[i].mode, es[i].mode)
      {
        LackingIsNotSet(es[i], executables, file);
      }
    }
  }

  /** The whole normalizer: it accepts what decompresses and scans; bytes with nothing wanting come back as they are, and otherwise compressed anew under the portable OS byte; either way the modes follow the list. */
  lemma NormalizedModesFollow(tgz: Bytes, executables: set<Bytes>, codec: Codec, tar: Bytes, es: seq<Entry>)
    requires Inverse(codec) && codec.gunzip(tgz) == Some(tar) && Scan(tar, 0) == Ok(es)
    ensures NormalizedTgz(tgz, executables, codec).Ok?
    ensures var r := NormalizedTgz(tgz, executables, codec).value;
            && (!Wanting(es, executables) ==> r == tgz)
            && (Wanting(es, executables) && |r| > 9 ==> r[9] == 255)
            && codec.gunzip(r).Some? && Scan(codec.gunzip(r).value, 0).Ok?
            && ModesFollow(es, Scan(codec.gunzip(r).value, 0).value, executables)
  {
    SomeLackIffWanting(es, executables);
    hide Scan, Lacks, ModesFollow, Wanting, Normalized, RestoredAll, Portable, StandsFor, SetFrom;
    NormalizedRuns(tgz, executables, codec, tar, es);
    if Wanting(es, executables) {
      var now := Normalized(tar, es, executables);
      PortableReads(codec, now);
      NormalizedIsAccepted(tar, es, executables);
      ModesFollowTheList(tar, es, RestoredAll(es, executables), executables);
    } else {
      NothingWantingFollows(es, executables);
    }
  }

  /** The normalizer on bytes that scan: the same bytes, or the patched buffer compressed anew. */
  lemma NormalizedRuns(tgz: Bytes, executables: set<Bytes>, codec: Codec, tar: Bytes, es: seq<Entry>)
    requires codec.gunzip(tgz) == Some(tar) && Scan(tar, 0) == Ok(es)
    ensures NormalizedTgz(tgz, executables, codec) ==
            Ok(if exists e :: e in es && Lacks(e, executables) then Portable(codec.gzip(Normalized(tar, es, executables))) else tgz)
  {
    hide Scan, Lacks, Normalized, Portable;
  }

  lemma PortableReads(codec: Codec, x: Bytes)
    requires Inverse(codec)
    ensures codec.gunzip(Portable(codec.gzip(x))) == Some(x)
    ensures |Portable(codec.gzip(x))| > 9 ==> Portable(codec.gzip(x))[9] == 255
  {
  }

  lemma NothingWantingFollows(es: seq<Entry>, executables: set<Bytes>)
    ensures !Wanting(es, executables) ==> ModesFollow(es, es, executables)
  {
    hide StandsFor, SetFrom;
  }

  // Accepted headers.

  function Total(s: Bytes): nat {
    if s == [] then 0 else s[0] + Total(s[1..])
  }

  lemma {:induction false} SumIsTotal(block: Bytes, i: nat, j: nat)
    requires i <= j <= |block| && (j <= 148 || 156 <= i)
    ensures SumFrom(block, i) == Total(block[i..j]) + SumFrom(block, j)
    decreases j - i
  {
    if i < j {
      SumIsTotal(block, i + 1, j);
      assert block[i..j][1..] == block[i + 1..j];
    }
  }

  lemma {:induction false} FieldCountsBlanks(block: Bytes, i: nat)
    requires |block| == 512 && 148 <= i <= 156
    ensures SumFrom(block, i) == 32 * (156 - i) + SumFrom(block, 156)
    decreases 156 - i
  {
    if i < 156 {
      FieldCountsBlanks(block, i + 1);
    }
  }

  /** The checksum adds up all bytes of the block, its own eight counted as blanks. */
  lemma ChecksumCountsBlanks(block: Bytes)
    requires |block| == 512
    ensures Checksum(block) == Total(block[..148]) + 256 + Total(block[156..])
  {
    SumIsTotal(block, 0, 148);
    FieldCountsBlanks(block, 148);
    SumIsTotal(block, 156, 512);
    assert block[0..148] == block[..148] && block[156..512] == block[156..];
  }

  lemma {:induction false} TotalOfSum(a: Bytes, b: Bytes)
    ensures Total(a + b) == Total(a) + Total(b)
  {
    if a == [] {
      assert a + b == b;
    } else {
      assert (a + b)[1..] == a[1..] + b;
      TotalOfSum(a[1..], b);
    }
  }

  lemma {:induction false} TotalOfNuls(n: nat)
    ensures Total(Nuls(n)) == 0
  {
    if n > 0 {
      assert Nuls(n)[1..] == Nuls(n - 1);
      TotalOfNuls(n - 1);
    }
  }

  function Nuls(n: nat): Bytes {
    seq(n, _ => 0)
  }

  lemma GoodHeaderSays(h: Bytes)
    requires GoodHeader(h)
    ensures |h| == 512
    ensures h[257..263] == [117, 115, 116, 97, 114, 0] && h[156] in [0, 48] && h[345] == 0
    ensures Octal(h, 148, 8) == Some(Total(h[..148]) + 256 + Total(h[156..]))
  {
    ChecksumCountsBlanks(h);
    hide Octal, Checksum, SumFrom, Total;
    MagicIsUstar(h[257..263]);
    assert h[345..500][0] == h[345];
  }

  /** An accepted header says "ustar" and a NUL, is of a regular file, has no prefix, and its checksum is the sum of its bytes; the entry is what its fields say. */
  lemma AcceptedHeaderSays(tar: Bytes, es: seq<Entry>, e: Entry)
    requires Scan(tar, 0) == Ok(es) && e in es
    ensures e.offset + 512 <= |tar|
    ensures var h := tar[e.offset..e.offset + 512];
            && h[257..263] == [117, 115, 116, 97, 114, 0]
            && h[156] in [0, 48] && h[345] == 0
            && Octal(h, 148, 8) == Some(Total(h[..148]) + 256 + Total(h[156..]))
            && e.name == Field(h, 0, 100) && Octal(h, 100, 8) == Some(e.mode) && Octal(h, 124, 12) == Some(|e.content|)
  {
    hide Scan, Octal, Checksum, GoodHeader, Total, Field, HeadingOf, From, Append, UntilNul, SumFrom;
    HeaderOfEntry(tar, es, e);
    GoodHeaderSays(tar[e.offset..e.offset + 512]);
  }

  lemma MemberSays(m: Member, offset: nat)
    requires GoodMember(m)
    ensures |m.header| == 512
    ensures var e := Described(m, offset);
            e.name == Field(m.header, 0, 100) && Octal(m.header, 100, 8) == Some(e.mode) && Octal(m.header, 124, 12) == Some(|e.content|)
  {
    hide Octal, Field, Checksum, Blocks;
  }

  lemma MembersLie(tar: Bytes, ms: seq<Member>, rest: Bytes, offset: nat, e: Entry)
    requires AllGood(ms) && offset + |rest| == |tar| && tar[offset..] == rest && IsArchive(rest, ms) && e in EntriesOf(ms, offset)
    ensures e.offset + 512 <= |tar| && GoodHeader(tar[e.offset..e.offset + 512])
    ensures var h := tar[e.offset..e.offset + 512];
            e.name == Field(h, 0, 100) && Octal(h, 100, 8) == Some(e.mode) && Octal(h, 124, 12) == Some(|e.content|)
    decreases |ms|
  {
    hide GoodHeader, Octal, Field, Checksum;
    assert GoodMember(ms[0]);
    PeelArchive(rest, ms);
    PartsOfMember(rest, ms[0]);
    var n := |Lay(ms[0])|;
    if e == Described(ms[0], offset) {
      assert tar[offset..offset + 512] == rest[..512] == ms[0].header;
      MemberSays(ms[0], offset);
    } else {
      assert tar[offset + n..] == rest[n..];
      MembersLie(tar, ms[1..], rest[n..], offset + n, e);
    }
  }

  lemma HeaderOfEntry(tar: Bytes, es: seq<Entry>, e: Entry)
    requires Scan(tar, 0) == Ok(es) && e in es
    ensures e.offset + 512 <= |tar| && GoodHeader(tar[e.offset..e.offset + 512])
    ensures var h := tar[e.offset..e.offset + 512];
            e.name == Field(h, 0, 100) && Octal(h, 100, 8) == Some(e.mode) && Octal(h, 124, 12) == Some(|e.content|)
  {
    hide Scan, GoodHeader, IsArchive, EntriesOf;
    var ms := AcceptedIsArchive(tar, 0);
    ArchiveIsAccepted(tar, ms, 0);
    assert tar[0..] == tar;
    AllGoodOf(tar, ms);
    MembersLie(tar, ms, tar, 0, e);
  }

  lemma AllGoodOf(tar: Bytes, ms: seq<Member>)
    requires IsArchive(tar, ms)
    ensures AllGood(ms)
  {
  }

  lemma MagicIsUstar(m: Bytes)
    requires |m| == 6 && UntilNul(m) == [117, 115, 116, 97, 114]
    ensures m == [117, 115, 116, 97, 114, 0]
  {
    var m1, m2, m3, m4, m5 := m[1..], m[2..], m[3..], m[4..], m[5..];
    assert m1[1..] == m2 && m2[1..] == m3 && m3[1..] == m4 && m4[1..] == m5 && m5[1..] == [];
    assert UntilNul(m) == [m[0]] + UntilNul(m1);
    assert UntilNul(m1) == UntilNul(m)[1..] == [115, 116, 97, 114];
    assert UntilNul(m1) == [m1[0]] + UntilNul(m2);
    assert UntilNul(m2) == UntilNul(m1)[1..] == [116, 97, 114];
    assert UntilNul(m2) == [m2[0]] + UntilNul(m3);
    assert UntilNul(m3) == UntilNul(m2)[1..] == [97, 114];
    assert UntilNul(m3) == [m3[0]] + UntilNul(m4);
    assert UntilNul(m4) == UntilNul(m3)[1..] == [114];
    assert UntilNul(m4) == [m4[0]] + UntilNul(m5);
    assert UntilNul(m5) == UntilNul(m4)[1..] == [];
  }

  /** Tabs, line feeds, blanks and no-break spaces. */
  predicate AllBlank(pad: Bytes) {
    forall i :: 0 <= i < |pad| ==> pad[i] in [9, 10, 11, 12, 13, 32, 160]
  }

  lemma {:induction false} LeadingBlanks(pad: Bytes, text: Bytes)
    requires AllBlank(pad) && text != [] && !IsSpace(text[0])
    ensures TrimStart(pad + text) == text
  {
    if pad == [] {
      assert pad + text == text;
    } else {
      assert (pad + text)[1..] == pad[1..] + text;
      LeadingBlanks(pad[1..], text);
    }
  }

  lemma {:induction false} TrailingBlanks(text: Bytes, pad: Bytes)
    requires AllBlank(pad) && text != [] && !IsSpace(text[|text| - 1])
    ensures TrimEnd(text + pad) == text
    decreases |pad|
  {
    if pad == [] {
      assert text + pad == text;
    } else {
      assert (text + pad)[..|text + pad| - 1] == text + pad[..|pad| - 1];
      TrailingBlanks(text, pad[..|pad| - 1]);
    }
  }

  /** A number is read through white space before and behind it, and what follows a NUL. */
  lemma NumberMayBePadded(block: Bytes, start: nat, length: nat, before: Bytes, digits: Bytes, behind: Bytes, rest: Bytes)
    requires start + length <= |block| && block[start..start + length] == before + digits + behind + rest
    requires IsOctal(digits) && AllBlank(before) && AllBlank(behind) && (rest == [] || rest[0] == 0)
    ensures Octal(block, start, length) == Some(Value(digits))
  {
    var text := before + digits + behind;
    forall i | 0 <= i < |text|
      ensures text[i] != 0
    {
    }
    NoNulToCut(text, rest);
    assert UntilNul(rest) == [] && text + [] == text;
    assert block[start..start + length] == text + rest;
    assert Field(block, start, length) == text;
    assert text == before + (digits + behind) && (digits + behind)[0] == digits[0];
    LeadingBlanks(before, digits + behind);
    TrailingBlanks(digits, behind);
    assert TrimEnd(TrimStart(text)) == digits;
  }

  /** Why a block is refused: each refusal means that everything checked before it was in order, and this was not. */
  lemma RefusalSays(h: Bytes, remaining: nat)
    requires |h| == 512 && HeadingOf(h, remaining).Bad?
    ensures exists i :: 0 <= i < 512 && h[i] != 0
    ensures var summed := Octal(h, 148, 8) == Some(Total(h[..148]) + 256 + Total(h[156..]));
            var magic := Field(h, 257, 6) == [117, 115, 116, 97, 114];
            var sized := summed && magic && h[156] in [0, 48] && h[345] == 0 && Octal(h, 124, 12).Some?;
            match HeadingOf(h, remaining).error
            case ChecksumMismatch => Octal(h, 148, 8).Some? && !summed
            case NotUstar => summed && !magic
            case UnsupportedType => summed && magic && h[156] !in [0, 48]
            case UnsupportedPrefix => summed && magic && h[156] in [0, 48] && h[345] != 0
            case Truncated => sized && 512 + Octal(h, 124, 12).value > remaining
            case UnreadableNumber =>
              || Octal(h, 148, 8).None?
              || (summed && magic && h[156] in [0, 48] && h[345] == 0 && Octal(h, 124, 12).None?)
              || (sized && 512 + Octal(h, 124, 12).value <= remaining && Octal(h, 100, 8).None?)
            case NotGzip => false
  {
    ChecksumCountsBlanks(h);
    assert h[345..500][0] == h[345];
    assert Field(h, 345, 155) == [] <==> h[345] == 0;
    hide Octal, Checksum, SumFrom, Total;
  }

  // One archive as npm packs it.

  /** "package/cli.js". */
  const CLI: Bytes := [112, 97, 99, 107, 97, 103, 101, 47, 99, 108, 105, 46, 106, 115]

  /** "cli.js". */
  const FILE: Bytes := [99, 108, 105, 46, 106, 115]

  /** Mode 0o644, owners, a size of one byte, no time. */
  function Front(): Bytes {
    CLI + Nuls(86) + [48, 48, 48, 54, 52, 52, 32, 0] + Nuls(16) + [48, 48, 48, 48, 48, 48, 48, 48, 48, 48, 49, 32] + Nuls(12)
  }

  /** A regular file, no link, the magic and its version. */
  function Back(): Bytes {
    [48] + Nuls(100) + [117, 115, 116, 97, 114, 0] + [48, 48] + Nuls(247)
  }

  /** The sum of its bytes is 3196, which is 0o6174. */
  function Packed(): Bytes {
    Front() + [48, 48, 54, 49, 55, 52, 32, 0] + Back()
  }

  function OneFile(): Member {
    Member(Packed(), [33], Nuls(511))
  }

  function Archive(): Bytes {
    Lay(OneFile()) + Nuls(512)
  }

  lemma TotalOfTwo(a: Byte, b: Byte)
    ensures Total([a, b]) == a + b
  {
    assert [a, b][1..] == [b] && [b][1..] == [];
    assert Total([b]) == b;
  }

  lemma TotalOfFour(a: Byte, b: Byte, c: Byte, d: Byte)
    ensures Total([a, b, c, d]) == a + b + c + d
  {
    TotalOfTwo(a, b);
    TotalOfTwo(c, d);
    TotalOfSum([a, b], [c, d]);
    hide Total;
    assert [a, b] + [c, d] == [a, b, c, d];
  }

  lemma TotalOfEight(a: Byte, b: Byte, c: Byte, d: Byte, e: Byte, f: Byte, g: Byte, h: Byte)
    ensures Total([a, b, c, d, e, f, g, h]) == a + b + c + d + e + f + g + h
  {
    TotalOfFour(a, b, c, d);
    TotalOfFour(e, f, g, h);
    TotalOfSum([a, b, c, d], [e, f, g, h]);
    hide Total;
    assert [a, b, c, d] + [e, f, g, h] == [a, b, c, d, e, f, g, h];
  }

  lemma TotalOfName()
    ensures Total(CLI) == 1342
  {
    TotalOfEight(112, 97, 99, 107, 97, 103, 101, 47);
    TotalOfFour(99, 108, 105, 46);
    TotalOfTwo(106, 115);
    hide Total, CLI;
    CliInParts();
    TotalOfThree([112, 97, 99, 107, 97, 103, 101, 47], [99, 108, 105, 46], [106, 115]);
  }

  lemma CliInParts()
    ensures CLI == [112, 97, 99, 107, 97, 103, 101, 47] + [99, 108, 105, 46] + [106, 115]
  {
  }

  lemma TotalOfMode()
    ensures Total([48, 48, 48, 54, 52, 52, 32, 0]) == 334
  {
    TotalOfEight(48, 48, 48, 54, 52, 52, 32, 0);
  }

  lemma TotalOfSize()
    ensures Total([48, 48, 48, 48, 48, 48, 48, 48, 48, 48, 49, 32]) == 561
  {
    TotalOfEight(48, 48, 48, 48, 48, 48, 48, 48);
    TotalOfFour(48, 48, 49, 32);
    hide Total;
    var a: Bytes, b: Bytes := [48, 48, 48, 48, 48, 48, 48, 48], [48, 48, 49, 32];
    TotalOfSum(a, b);
    assert [48, 48, 48, 48, 48, 48, 48, 48, 48, 48, 49, 32] == a + b;
  }

  lemma TotalOfMagic()
    ensures Total([117, 115, 116, 97, 114, 0]) == 559
  {
    TotalOfFour(117, 115, 116, 97);
    TotalOfTwo(114, 0);
    hide Total;
    TotalOfSum([117, 115, 116, 97], [114, 0]);
    assert [117, 115, 116, 97, 114, 0] == [117, 115, 116, 97] + [114, 0];
  }

  lemma TotalOfThree(a: Bytes, b: Bytes, c: Bytes)
    ensures Total(a + b + c) == Total(a) + Total(b) + Total(c)
  {
    TotalOfSum(a, b);
    TotalOfSum(a + b, c);
  }

  lemma TotalOfFront()
    ensures Total(Front()) == 2237
  {
    TotalOfName();
    TotalOfMode();
    TotalOfSize();
    TotalOfNuls(86);
    TotalOfNuls(16);
    TotalOfNuls(12);
    hide Total, Nuls, CLI;
    var mode: Bytes, size: Bytes := [48, 48, 48, 54, 52, 52, 32, 0], [48, 48, 48, 48, 48, 48, 48, 48, 48, 48, 49, 32];
    TotalOfThree(CLI, Nuls(86), mode);
    TotalOfThree(CLI + Nuls(86) + mode, Nuls(16), size);
    TotalOfSum(CLI + Nuls(86) + mode + Nuls(16) + size, Nuls(12));
  }

  lemma TotalOfBack()
    ensures Total(Back()) == 703
  {
    TotalOfMagic();
    TotalOfTwo(48, 48);
    assert Total([48]) == 48;
    TotalOfNuls(100);
    TotalOfNuls(247);
    hide Total, Nuls;
    var magic: Bytes := [117, 115, 116, 97, 114, 0];
    TotalOfSum([48], Nuls(100));
    TotalOfSum([48] + Nuls(100), magic);
    TotalOfSum([48] + Nuls(100) + magic, [48, 48]);
    TotalOfSum([48] + Nuls(100) + magic + [48, 48], Nuls(247));
  }

  lemma LengthsOfParts()
    ensures |Front()| == 148 && |Back()| == 356
  {
  }

  lemma SumOfPacked()
    ensures |Packed()| == 512 && Checksum(Packed()) == 3196
  {
    TotalOfFront();
    TotalOfBack();
    LengthsOfParts();
    hide Front, Back, Total;
    assert Packed()[..148] == Front() && Packed()[156..] == Back();
    ChecksumCountsBlanks(Packed());
  }

  /** A field whose text is digits and then nothing, a blank, or a blank and a NUL. */
  lemma FieldOf(h: Bytes, start: nat, length: nat, digits: Bytes, rest: Bytes)
    requires start + length <= |h| && h[start..start + length] == digits + rest
    requires IsOctal(digits) && (rest == [] || rest == [32] || rest == [32, 0])
    ensures Octal(h, start, length) == Some(Value(digits))
  {
    CutAndTrim(digits, rest);
  }

  lemma {:induction false} ValueOfOneMore(text: Bytes, digit: Byte)
    requires IsOctal(text) && 48 <= digit <= 55
    ensures IsOctal(text + [digit]) && Value(text + [digit]) == 8 * Value(text) + digit - 48
  {
    assert (text + [digit])[..|text|] == text;
  }

  lemma ValueOfSix(a: Byte, b: Byte, c: Byte, d: Byte, e: Byte, f: Byte)
    requires IsOctal([a, b, c, d, e, f])
    ensures Value([a, b, c, d, e, f]) == 32768 * (a - 48) + 4096 * (b - 48) + 512 * (c - 48) + 64 * (d - 48) + 8 * (e - 48) + f - 48
  {
    var s: Bytes := [a, b, c, d, e, f];
    assert forall i :: 0 <= i < 6 ==> 48 <= s[i] <= 55;
    assert 48 <= s[0] <= 55 && 48 <= s[1] <= 55 && 48 <= s[2] <= 55 && 48 <= s[3] <= 55 && 48 <= s[4] <= 55 && 48 <= s[5] <= 55;
    assert [a][..0] == [];
    assert Value([a]) == a - 48;
    hide Value;
    ValueOfOneMore([a], b);
    assert [a] + [b] == [a, b];
    ValueOfOneMore([a, b], c);
    assert [a, b] + [c] == [a, b, c];
    ValueOfOneMore([a, b, c], d);
    assert [a, b, c] + [d] == [a, b, c, d];
    ValueOfOneMore([a, b, c, d], e);
    assert [a, b, c, d] + [e] == [a, b, c, d, e];
    ValueOfOneMore([a, b, c, d, e], f);
    assert [a, b, c, d, e] + [f] == [a, b, c, d, e, f];
  }

  lemma PartsOfPacked()
    ensures |Packed()| == 512
    ensures Packed()[148..156] == [48, 48, 54, 49, 55, 52] + [32, 0]
    ensures Packed()[100..108] == [48, 48, 48, 54, 52, 52] + [32, 0]
    ensures Packed()[124..136] == Zeros(5) + [48, 48, 48, 48, 48, 49] + [32]
    ensures Packed()[0..14] == CLI && Packed()[14] == 0
    ensures Packed()[156] == 48 && Packed()[257..262] == [117, 115, 116, 97, 114] && Packed()[262] == 0 && Packed()[345] == 0
  {
    var front, back, h := Front(), Back(), Packed();
    assert |front| == 148 && |back| == 356;
    assert h[100..108] == front[100..108] && h[124..136] == front[124..136] && h[0..14] == front[0..14];
    assert h[257..262] == back[101..106] && h[262] == back[106] && h[345] == back[189] && h[156] == back[0];
  }

  lemma NumbersOfPacked()
    ensures |Packed()| == 512
    ensures Octal(Packed(), 148, 8) == Some(3196) && Octal(Packed(), 100, 8) == Some(420) && Octal(Packed(), 124, 12) == Some(1)
  {
    PartsOfPacked();
    ValueOfSix(48, 48, 54, 49, 55, 52);
    ValueOfSix(48, 48, 48, 54, 52, 52);
    ValueOfSix(48, 48, 48, 48, 48, 49);
    hide Value, Octal, Packed, Zeros;
    var h := Packed();
    FieldOf(h, 148, 8, [48, 48, 54, 49, 55, 52], [32, 0]);
    FieldOf(h, 100, 8, [48, 48, 48, 54, 52, 52], [32, 0]);
    LeadingZeros(5, [48, 48, 48, 48, 48, 49]);
    FieldOf(h, 124, 12, Zeros(5) + [48, 48, 48, 48, 48, 49], [32]);
  }

  lemma TextOf(h: Bytes, start: nat, length: nat, text: Bytes)
    requires start + length <= |h| && |text| < length && h[start..start + |text|] == text && h[start + |text|] == 0
    requires forall i :: 0 <= i < |text| ==> text[i] != 0
    ensures Field(h, start, length) == text
  {
    var rest := h[start + |text|..start + length];
    assert h[start..start + length] == text + rest;
    NoNulToCut(text, rest);
    assert UntilNul(rest) == [];
  }

  lemma TextsOfPacked()
    ensures |Packed()| == 512 && Packed()[156] == 48
    ensures Field(Packed(), 0, 100) == CLI && Field(Packed(), 257, 6) == USTAR && Field(Packed(), 345, 155) == []
  {
    PartsOfPacked();
    hide Field, Packed;
    var h := Packed();
    TextOf(h, 0, 100, CLI);
    TextOf(h, 257, 6, USTAR);
    assert h[345..345] == [];
    TextOf(h, 345, 155, []);
  }

  lemma OneFileIsGood()
    ensures GoodMember(OneFile()) && Described(OneFile(), 0) == Entry(CLI, 420, 0, [33]) && |Lay(OneFile())| == 1024
  {
    SumOfPacked();
    NumbersOfPacked();
    TextsOfPacked();
    hide Octal, Field, Checksum, Packed;
    assert Blocks(1) == 512;
  }

  /** An archive of one file as npm packs it is accepted, with the file it holds. */
  lemma PackedIsAccepted()
    ensures Scan(Archive(), 0) == Ok([Entry(CLI, 420, 0, [33])])
  {
    OneFileIsGood();
    hide GoodMember, Described, Scan, Packed;
    var ms := [OneFile()];
    assert ms[1..] == [] && ms[0] == OneFile();
    assert forall m :: m in ms ==> m == OneFile();
    assert Flat(ms) == Lay(OneFile()) + Flat(ms[1..]) == Lay(OneFile());
    assert Archive()[1024..1536] == Nuls(512);
    assert IsArchive(Archive(), ms);
    ArchiveIsAccepted(Archive(), ms, 0);
    assert EntriesOf(ms[1..], 1024) == [];
    assert EntriesOf(ms, 0) == [Described(OneFile(), 0)] + EntriesOf(ms[1..], 1024) == [Described(OneFile(), 0)];
  }

  lemma ModeOfPacked()
    ensures Executable(420) == 493 && And(420, 73) == 0
  {
    assert Or(420, 73) == 2 * Or(210, 36) + 1 && Or(210, 36) == 2 * Or(105, 18) && Or(105, 18) == 2 * Or(52, 9) + 1;
    assert Or(52, 9) == 2 * Or(26, 4) + 1 && Or(26, 4) == 2 * Or(13, 2) && Or(13, 2) == 2 * Or(6, 1) + 1 && Or(6, 1) == 2 * Or(3, 0) + 1;
    assert Or(3, 0) == 2 * Or(1, 0) + 1 && Or(1, 0) == 1;
    assert And(420, 73) == 2 * And(210, 36) && And(210, 36) == 2 * And(105, 18) && And(105, 18) == 2 * And(52, 9);
    assert And(52, 9) == 2 * And(26, 4) && And(26, 4) == 2 * And(13, 2) && And(13, 2) == 2 * And(6, 1) && And(6, 1) == 2 * And(3, 0);
  }

  lemma CliStandsForFile()
    ensures Stem(CLI) == FILE
  {
    assert CLI == [112, 97, 99, 107, 97, 103, 101, 47] + FILE;
    StemStandsFor(CLI, FILE);
  }

  lemma CliIsRestored()
    ensures Restored(Entry(CLI, 420, 0, [33]), {FILE}) == Entry(CLI, 493, 0, [33])
    ensures !Lacks(Entry(CLI, 420, 0, [33]), {})
  {
    CliStandsForFile();
    ModeOfPacked();
    hide Stem, Executable, And;
  }

  /** With `cli.js` on the list it is made 0o755; without it the archive stays byte for byte. */
  lemma PackedIsMadeExecutable()
    ensures Scan(Normalized(Archive(), [Entry(CLI, 420, 0, [33])], {FILE}), 0) == Ok([Entry(CLI, 493, 0, [33])])
    ensures Normalized(Archive(), [Entry(CLI, 420, 0, [33])], {}) == Archive()
  {
    PackedIsAccepted();
    CliIsRestored();
    hide Scan, Archive, Lacks, Restored, PatchAt;
    var es := [Entry(CLI, 420, 0, [33])];
    NormalizedIsAccepted(Archive(), es, {FILE});
    assert RestoredAll(es, {FILE}) == [Entry(CLI, 493, 0, [33])];
    assert es[1..] == [];
    assert Normalized(Archive(), es, {}) == Normalized(Archive(), es[1..], {});
  }
}
