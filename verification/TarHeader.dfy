/** The fields of one ustar header block: text cut at a NUL, octal numbers, the checksum, and how they are written back. */
module TarHeader {
  import opened Options

  type Byte = b: int | 0 <= b < 256
  type Bytes = seq<Byte>

  const BLOCK := 512

  /** The bytes before the first NUL. */
  function UntilNul(s: Bytes): Bytes {
    if s == [] || s[0] == 0 then [] else [s[0]] + UntilNul(s[1..])
  }

  function Field(block: Bytes, start: nat, length: nat): Bytes
    requires start + length <= |block|
  {
    UntilNul(block[start..start + length])
  }

  /** White space of the Latin-1 range, as a string trim removes it. */
  predicate IsSpace(b: Byte) {
    9 <= b <= 13 || b == 32 || b == 160
  }

  function TrimStart(s: Bytes): Bytes {
    if s != [] && IsSpace(s[0]) then TrimStart(s[1..]) else s
  }

  function TrimEnd(s: Bytes): Bytes {
    if s != [] && IsSpace(s[|s| - 1]) then TrimEnd(s[..|s| - 1]) else s
  }

  predicate IsOctal(text: Bytes) {
    text != [] && forall i :: 0 <= i < |text| ==> 48 <= text[i] <= 55
  }

  function Value(text: Bytes): nat
    requires forall i :: 0 <= i < |text| ==> 48 <= text[i] <= 55
  {
    if text == [] then 0 else 8 * Value(text[..|text| - 1]) + (text[|text| - 1] - 48)
  }

  /** The number a header field holds, if its trimmed text is octal digits only. */
  function Octal(block: Bytes, start: nat, length: nat): Option<nat>
    requires start + length <= |block|
  {
    var text := TrimEnd(TrimStart(Field(block, start, length)));
    if IsOctal(text) then Some(Value(text)) else None
  }

  function Power8(n: nat): nat {
    if n == 0 then 1 else 8 * Power8(n - 1)
  }

  lemma {:induction false} ValueIsBelow(text: Bytes)
    requires forall i :: 0 <= i < |text| ==> 48 <= text[i] <= 55
    ensures Value(text) < Power8(|text|)
  {
    if text != [] {
      ValueIsBelow(text[..|text| - 1]);
    }
  }

  /** Octal digits of a number, most significant first. */
  function Digits(n: nat): Bytes {
    if n < 8 then [48 + n] else Digits(n / 8) + [48 + n % 8]
  }

  lemma {:induction false} DigitsReadBack(n: nat)
    ensures IsOctal(Digits(n)) && Value(Digits(n)) == n
  {
    if n < 8 {
      assert [48 + n][..0] == [];
    } else {
      DigitsReadBack(n / 8);
      assert Digits(n)[..|Digits(n)| - 1] == Digits(n / 8);
    }
  }

  /** A number has at most `width` octal digits exactly when it is below that power of eight. */
  lemma {:induction false} DigitsFit(n: nat, width: nat)
    requires width > 0
    ensures |Digits(n)| <= width <==> n < Power8(width)
  {
    if width == 1 {
      assert Power8(1) == 8;
    } else if n < 8 {
      PowerAtLeast8(width);
    } else {
      DigitsFit(n / 8, width - 1);
    }
  }

  lemma {:induction false} PowerAtLeast8(n: nat)
    requires n > 0
    ensures Power8(n) >= 8
  {
    if n > 1 {
      PowerAtLeast8(n - 1);
    }
  }

  function Zeros(n: nat): Bytes {
    seq(n, _ => 48)
  }

  /** Six octal digits at least. */
  function Padded(n: nat): Bytes {
    if |Digits(n)| < 6 then Zeros(6 - |Digits(n)|) + Digits(n) else Digits(n)
  }

  /** How a number is written into a header: padded, then a space and a NUL. */
  function Written(n: nat): Bytes {
    Padded(n) + [32, 0]
  }

  lemma PaddedReadsBack(n: nat)
    ensures IsOctal(Padded(n)) && Value(Padded(n)) == n
  {
    DigitsReadBack(n);
    if |Digits(n)| < 6 {
      LeadingZeros(6 - |Digits(n)|, Digits(n));
    }
  }

  lemma {:induction false} LeadingZeros(k: nat, text: Bytes)
    requires IsOctal(text)
    ensures IsOctal(Zeros(k) + text) && Value(Zeros(k) + text) == Value(text)
  {
    var all := Zeros(k) + text;
    assert all[..|all| - 1] == Zeros(k) + text[..|text| - 1];
    if |text| > 1 {
      LeadingZeros(k, text[..|text| - 1]);
    } else {
      ZerosAreNothing(k);
      assert text[..0] == [] && Zeros(k) + [] == Zeros(k);
    }
  }

  lemma {:induction false} ZerosAreNothing(k: nat)
    ensures Value(Zeros(k)) == 0
  {
    if k > 0 {
      assert Zeros(k)[..k - 1] == Zeros(k - 1);
      ZerosAreNothing(k - 1);
    }
  }

  lemma {:induction false} NoNulToCut(text: Bytes, rest: Bytes)
    requires forall i :: 0 <= i < |text| ==> text[i] != 0
    ensures UntilNul(text + rest) == text + UntilNul(rest)
  {
    if text == [] {
      assert text + rest == rest;
      assert text + UntilNul(rest) == UntilNul(rest);
    } else {
      assert (text + rest)[1..] == text[1..] + rest;
      NoNulToCut(text[1..], rest);
    }
  }

  /** What is written into a field of eight bytes reads back, even when a long number pushes its ending out of the field. */
  lemma WrittenReadsBack(n: nat, block: Bytes, start: nat)
    requires n < Power8(8) && start + |Written(n)| <= |block|
    requires block[start..start + |Written(n)|] == Written(n)
    ensures 8 <= |Written(n)| <= 10
    ensures Octal(block, start, 8) == Some(n)
  {
    DigitsFit(n, 8);
    var digits := Padded(n);
    PaddedReadsBack(n);
    var rest: Bytes := [32, 0][..8 - |digits|];
    assert block[start..start + 8] == Written(n)[..8] == digits + rest;
    CutAndTrim(digits, rest);
  }

  /** Octal digits followed by nothing, a space, or a space and a NUL, read as the digits alone. */
  lemma CutAndTrim(digits: Bytes, rest: Bytes)
    requires IsOctal(digits) && (rest == [] || rest == [32] || rest == [32, 0])
    ensures TrimEnd(TrimStart(UntilNul(digits + rest))) == digits
  {
    NoNulToCut(digits, rest);
    if rest == [] {
      assert UntilNul(digits + rest) == digits;
    } else {
      assert UntilNul(rest[1..]) == [];
      var text := digits + [32];
      assert UntilNul(digits + rest) == text;
      assert text[..|text| - 1] == digits;
      assert TrimEnd(text) == TrimEnd(digits);
    }
  }

  /** The sum over a block from index `i`, with the checksum field read as spaces. */
  function SumFrom(block: Bytes, i: nat): nat
    requires i <= |block|
    decreases |block| - i
  {
    if i == |block| then 0 else (if 148 <= i < 156 then 32 else block[i]) + SumFrom(block, i + 1)
  }

  function Checksum(block: Bytes): nat {
    SumFrom(block, 0)
  }

  /** The checksum does not depend on the field that holds it. */
  lemma {:induction false} ChecksumMasksItself(a: Bytes, b: Bytes, i: nat)
    requires |a| == |b| && i <= |a|
    requires forall j :: 0 <= j < |a| && !(148 <= j < 156) ==> a[j] == b[j]
    ensures SumFrom(a, i) == SumFrom(b, i)
    decreases |a| - i
  {
    if i < |a| {
      ChecksumMasksItself(a, b, i + 1);
    }
  }

  lemma {:induction false} SumIsSmall(block: Bytes, i: nat)
    requires i <= |block|
    ensures SumFrom(block, i) <= 255 * (|block| - i)
    decreases |block| - i
  {
    if i < |block| {
      SumIsSmall(block, i + 1);
    }
  }

  /** The checksum of a block always fits the six digits it is written in. */
  lemma ChecksumFits(block: Bytes)
    requires |block| == BLOCK
    ensures Checksum(block) < Power8(6) && |Written(Checksum(block))| == 8
  {
    SumIsSmall(block, 0);
    assert Power8(6) == 262144;
    DigitsFit(Checksum(block), 6);
  }

  /** Bit `k` of a number. */
  function Bit(n: nat, k: nat): nat {
    if k == 0 then n % 2 else Bit(n / 2, k - 1)
  }

  /** Bitwise or and and of two numbers. */
  function Or(a: nat, b: nat): nat {
    if a == 0 && b == 0 then 0 else 2 * Or(a / 2, b / 2) + (if a % 2 == 1 || b % 2 == 1 then 1 else 0)
  }

  function And(a: nat, b: nat): nat {
    if a == 0 || b == 0 then 0 else 2 * And(a / 2, b / 2) + (if a % 2 == 1 && b % 2 == 1 then 1 else 0)
  }

  /** 0o111: one execute bit each for owner, group and others. */
  const EXECUTE := 73

  function Executable(mode: nat): nat {
    Or(mode, EXECUTE)
  }

  predicate IsExecutable(mode: nat) {
    And(mode, EXECUTE) == EXECUTE
  }

  lemma {:induction false} BitOfOr(a: nat, b: nat, k: nat)
    ensures Bit(Or(a, b), k) == if Bit(a, k) == 1 || Bit(b, k) == 1 then 1 else 0
  {
    if a == 0 && b == 0 {
      BitOfZero(k);
    } else {
      assert Or(a, b) / 2 == Or(a / 2, b / 2);
      if k > 0 {
        BitOfOr(a / 2, b / 2, k - 1);
      }
    }
  }

  lemma {:induction false} BitOfZero(k: nat)
    ensures Bit(0, k) == 0
  {
    if k > 0 {
      BitOfZero(k - 1);
    }
  }

  /** And-ing back a mask that was or-ed in gives the mask. */
  lemma {:induction false} AndOfOr(a: nat, b: nat)
    ensures And(Or(a, b), b) == b
  {
    if b != 0 {
      assert Or(a, b) / 2 == Or(a / 2, b / 2);
      AndOfOr(a / 2, b / 2);
    }
  }

  lemma {:induction false} OrFits(a: nat, b: nat, width: nat)
    requires a < Power8(width) && b < Power8(width)
    ensures Or(a, b) < Power8(width)
  {
    if width == 0 {
      assert a == 0 && b == 0;
    } else {
      OrFits(a / 8, b / 8, width - 1);
      OrByEights(a, b);
    }
  }

  lemma OrByEights(a: nat, b: nat)
    ensures Or(a, b) < 8 * Or(a / 8, b / 8) + 8
  {
    assert Or(a, b) <= 2 * Or(a / 2, b / 2) + 1;
    assert Or(a / 2, b / 2) <= 2 * Or(a / 2 / 2, b / 2 / 2) + 1;
    assert Or(a / 2 / 2, b / 2 / 2) <= 2 * Or(a / 2 / 2 / 2, b / 2 / 2 / 2) + 1;
    assert a / 2 / 2 / 2 == a / 8 && b / 2 / 2 / 2 == b / 8;
  }

  /** Setting the execute bits sets them and keeps the number of octal digits a mode needs. */
  lemma ExecutableIsExecutable(mode: nat, width: nat)
    requires width >= 3 && mode < Power8(width)
    ensures IsExecutable(Executable(mode))
    ensures Executable(mode) < Power8(width)
  {
    AndOfOr(mode, EXECUTE);
    assert Power8(width) >= 512 by {
      assert Power8(width) == 8 * Power8(width - 1) && Power8(width - 1) == 8 * Power8(width - 2);
      PowerAtLeast8(width - 2);
    }
    OrFits(mode, EXECUTE, width);
  }
}
