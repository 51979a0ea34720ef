/** The order of strings, and decimal numbers padded to one width. */
module Text {
  /** Lexicographic order by characters, a proper prefix first. */
  predicate Less(a: string, b: string) {
    if b == "" then false
    else if a == "" then true
    else a[0] < b[0] || (a[0] == b[0] && Less(a[1..], b[1..]))
  }

  lemma {:induction false} LessIsStrict(a: string, b: string)
    ensures !(Less(a, b) && Less(b, a))
    ensures a != b ==> Less(a, b) || Less(b, a)
    ensures a == b ==> !Less(a, b)
  {
    if a != "" && b != "" {
      LessIsStrict(a[1..], b[1..]);
      assert a == [a[0]] + a[1..] && b == [b[0]] + b[1..];
    }
  }

  lemma {:induction false} LessIsTransitive(a: string, b: string, c: string)
    requires Less(a, b) && Less(b, c)
    ensures Less(a, c)
  {
    if a != "" && a[0] == b[0] == c[0] {
      LessIsTransitive(a[1..], b[1..], c[1..]);
    }
  }

  function Digit(d: nat): char
    requires d < 10
  {
    '0' + d as char
  }

  function Decimal(n: nat): string {
    if n < 10 then [Digit(n)] else Decimal(n / 10) + [Digit(n % 10)]
  }

  /** Zeros in front until the text has the width. */
  function PadStart(text: string, width: nat): string
    decreases width - |text|
  {
    if |text| >= width then text else PadStart("0" + text, width)
  }

  /** The last `width` decimal digits. */
  function Digits(n: nat, width: nat): string {
    if width == 0 then "" else Digits(n / 10, width - 1) + [Digit(n % 10)]
  }

  function Padded(n: nat, width: nat): string {
    PadStart(Decimal(n), width)
  }

  lemma {:induction false} DecimalGrows(n: nat, m: nat)
    requires n <= m
    ensures 1 <= |Decimal(n)| <= |Decimal(m)|
    decreases m
  {
    if n >= 10 {
      DecimalGrows(n / 10, m / 10);
    } else if m >= 10 {
      DecimalGrows(m / 10, m / 10);
    }
  }

  lemma {:induction false} PadOfOneMore(text: string, last: char, width: nat)
    ensures PadStart(text + [last], width + 1) == PadStart(text, width) + [last]
    decreases width - |text|
  {
    if |text| < width {
      PadOfOneMore("0" + text, last, width);
      assert "0" + (text + [last]) == ("0" + text) + [last];
    }
  }

  lemma {:induction false} PadOfNothing(width: nat)
    ensures PadStart("", width) == Digits(0, width)
  {
    if width > 0 {
      PadOfNothing(width - 1);
      PadOfOneMore("", '0', width - 1);
      assert "" + ['0'] == "0" + "";
    }
  }

  lemma {:induction false} PaddedIsDigits(n: nat, width: nat)
    requires |Decimal(n)| <= width
    ensures Padded(n, width) == Digits(n, width)
  {
    if n < 10 {
      PadOfNothing(width - 1);
      PadOfOneMore("", Digit(n), width - 1);
      assert "" + [Digit(n)] == [Digit(n)];
      assert n / 10 == 0 && n % 10 == n;
    } else {
      PaddedIsDigits(n / 10, width - 1);
      PadOfOneMore(Decimal(n / 10), Digit(n % 10), width - 1);
    }
  }

  lemma {:induction false} DigitsHaveWidth(n: nat, width: nat)
    ensures |Digits(n, width)| == width
  {
    if width > 0 {
      DigitsHaveWidth(n / 10, width - 1);
    }
  }

  lemma {:induction false} LessAppended(a: string, b: string, x: char, y: char)
    requires |a| == |b|
    ensures Less(a + [x], b + [y]) <==> Less(a, b) || (a == b && x < y)
  {
    if a == "" {
      assert a + [x] == [x] && b + [y] == [y];
    } else {
      LessAppended(a[1..], b[1..], x, y);
      assert (a + [x])[1..] == a[1..] + [x] && (b + [y])[1..] == b[1..] + [y];
      assert a == [a[0]] + a[1..] && b == [b[0]] + b[1..];
    }
  }

  lemma {:induction false} DecimalHasWidth(n: nat, width: nat)
    requires |Decimal(n)| <= width
    ensures width > 0 && (n >= 10 ==> |Decimal(n / 10)| <= width - 1)
  {
    DecimalGrows(n, n);
  }

  lemma {:induction false} DigitsIncrease(n: nat, m: nat, width: nat)
    requires n < m && |Decimal(m)| <= width
    ensures Less(Digits(n, width), Digits(m, width))
  {
    DecimalHasWidth(m, width);
    DigitsHaveWidth(n / 10, width - 1);
    DigitsHaveWidth(m / 10, width - 1);
    LessAppended(Digits(n / 10, width - 1), Digits(m / 10, width - 1), Digit(n % 10), Digit(m % 10));
    if n / 10 < m / 10 {
      DigitsIncrease(n / 10, m / 10, width - 1);
    } else {
      assert n / 10 == m / 10 && n % 10 < m % 10;
    }
  }

  /** Numbers padded to the width of the largest one compare as text the way they compare as numbers. */
  lemma PaddedOrder(n: nat, m: nat, largest: nat)
    requires n < m <= largest
    ensures var width := |Decimal(largest)|;
            Less(Padded(n, width), Padded(m, width)) && |Padded(n, width)| == |Padded(m, width)| == width
  {
    var width := |Decimal(largest)|;
    DecimalGrows(n, largest);
    DecimalGrows(m, largest);
    PaddedIsDigits(n, width);
    PaddedIsDigits(m, width);
    DigitsHaveWidth(n, width);
    DigitsHaveWidth(m, width);
    DigitsIncrease(n, m, width);
  }

  lemma {:induction false} CommonPrefix(prefix: string, a: string, b: string)
    ensures Less(prefix + a, prefix + b) <==> Less(a, b)
  {
    if prefix == "" {
      assert prefix + a == a && prefix + b == b;
    } else {
      CommonPrefix(prefix[1..], a, b);
      assert (prefix + a)[1..] == prefix[1..] + a && (prefix + b)[1..] == prefix[1..] + b;
    }
  }
}
