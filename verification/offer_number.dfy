/** Offer numbers `TKF-yyyyMM-NNN` (api/Services/OfferService.cs,
    `GenerateOfferNumber`). The next number takes the current local month
    and the previous number's third dash-separated part plus one; anything
    it cannot read restarts the sequence at 001. */
module OfferNumbering {
  import opened Common
  import opened Calendar

  const Prefix: string := "TKF"

  predicate IsDigit(c: char)
  {
    '0' <= c <= '9'
  }

  predicate AllDigits(s: string)
  {
    forall i :: 0 <= i < |s| ==> IsDigit(s[i])
  }

  predicate IsNumeral(s: string)
  {
    |s| > 0 && AllDigits(s)
  }

  function DigitChar(d: nat): (c: char)
    requires d < 10
    ensures IsDigit(c)
  {
    ('0' as int + d) as char
  }

  function DigitValue(c: char): nat
    requires IsDigit(c)
  {
    c as int - '0' as int
  }

  /** The decimal text of `n`, without leading zeros. */
  function Decimal(n: nat): (s: string)
    ensures IsNumeral(s)
    decreases n
  {
    if n < 10 then [DigitChar(n)] else Decimal(n / 10) + [DigitChar(n % 10)]
  }

  function Zeros(k: nat): (s: string)
    ensures |s| == k && AllDigits(s)
  {
    seq(k, _ => '0')
  }

  /** `n.ToString("D<width>")` for a non-negative `n`: its decimal text,
      zero-padded on the left to at least `width` digits. */
  function PadDigits(n: nat, width: nat): (s: string)
    ensures IsNumeral(s) && |s| >= width
  {
    var d := Decimal(n);
    if |d| < width then Zeros(width - |d|) + d else d
  }

  /** The value of a string of decimal digits. */
  function ParseDigits(s: string): (n: nat)
    requires AllDigits(s)
    ensures (forall i :: 0 <= i < |s| ==> s[i] == '0') ==> n == 0
  {
    if s == [] then 0 else ParseDigits(s[..|s| - 1]) * 10 + DigitValue(s[|s| - 1])
  }

  /** `int.TryParse`, restricted to plain digit strings. */
  function TryParseNumber(s: string): (r: Option<nat>)
    ensures r.Some? <==> IsNumeral(s)
  {
    if IsNumeral(s) then Some(ParseDigits(s)) else None
  }

  /** `string.Split(sep)`: the pieces between separators, empty pieces
      included; a string with k separators gives k + 1 pieces. */
  function Split(s: string, sep: char): (parts: seq<string>)
    ensures |parts| >= 1
  {
    if s == [] then [""]
    else
      var rest := Split(s[1..], sep);
      if s[0] == sep then [""] + rest
      else [[s[0]] + rest[0]] + rest[1..]
  }

  function Occurrences(s: string, c: char): nat
  {
    if s == [] then 0 else (if s[0] == c then 1 else 0) + Occurrences(s[1..], c)
  }

  /** Split yields one more piece than there are separators, and no piece
      contains the separator. */
  lemma {:induction false} SplitCount(s: string, sep: char)
    ensures |Split(s, sep)| == Occurrences(s, sep) + 1
    ensures forall i :: 0 <= i < |Split(s, sep)| ==> sep !in Split(s, sep)[i]
  {
    if s != [] {
      SplitCount(s[1..], sep);
    }
  }

  /** `yyyyMM` of a date. */
  function YearMonth(d: DateTime): (s: string)
    ensures IsNumeral(s) && |s| >= 6
  {
    PadDigits(d.year, 4) + PadDigits(d.month, 2)
  }

  /** The number with sequence `n` in month `ym`: for a month text
      without dashes it splits back into prefix, month and a numeral that
      reads as `n`. */
  function Format(ym: string, n: nat): (r: string)
    ensures '-' !in ym ==> Split(r, '-') == [Prefix, ym, PadDigits(n, 3)]
    ensures '-' !in ym ==> TryParseNumber(Split(r, '-')[2]) == Some(n)
  {
    var r := Prefix + "-" + ym + "-" + PadDigits(n, 3);
    PadRoundTrip(n, 3);
    assert '-' !in ym ==> Split(r, '-') == [Prefix, ym, PadDigits(n, 3)] by {
      if '-' !in ym {
        NumeralHasNoDash(PadDigits(n, 3));
        assert '-' !in Prefix;
        SplitThree(Prefix, ym, PadDigits(n, 3));
      }
    }
    r
  }

  /** The sequence value the next number carries: one more than the
      previous number's third part when that part reads as a number, 1 when
      there is no previous number or it cannot be read. */
  function NextSequence(last: Option<string>): (n: nat)
    ensures n >= 1
  {
    if last.None? || last.value == "" then 1
    else
      var parts := Split(last.value, '-');
      if |parts| == 3 && TryParseNumber(parts[2]).Some? then TryParseNumber(parts[2]).value + 1
      else 1
  }

  function GenerateOfferNumber(last: Option<string>, localNow: DateTime): (r: string)
    ensures StartsWith(r, Prefix + "-" + YearMonth(localNow) + "-")
  {
    if last.None? || last.value == "" then
      Prefix + "-" + YearMonth(localNow) + "-001"
    else
      var parts := Split(last.value, '-');
      if |parts| == 3 && TryParseNumber(parts[2]).Some? then
        var nextNumber := TryParseNumber(parts[2]).value + 1;
        Prefix + "-" + YearMonth(localNow) + "-" + PadDigits(nextNumber, 3)
      else
        Prefix + "-" + YearMonth(localNow) + "-001"
  }

  // ---------------------------------------------------------------------
  // Digits

  lemma {:induction false} DecimalRoundTrip(n: nat)
    ensures ParseDigits(Decimal(n)) == n
    decreases n
  {
    if n >= 10 {
      DecimalRoundTrip(n / 10);
      var d := Decimal(n);
      assert d[..|d| - 1] == Decimal(n / 10);
    }
  }

  lemma {:induction false} LeadingZerosIgnored(k: nat, s: string)
    requires AllDigits(s)
    ensures ParseDigits(Zeros(k) + s) == ParseDigits(s)
    decreases |s|
  {
    var z := Zeros(k) + s;
    if s == [] {
      assert z == Zeros(k);
      ZerosAreZero(k);
    } else {
      assert z[..|z| - 1] == Zeros(k) + s[..|s| - 1];
      LeadingZerosIgnored(k, s[..|s| - 1]);
    }
  }

  lemma {:induction false} ZerosAreZero(k: nat)
    ensures ParseDigits(Zeros(k)) == 0
  {
    if k > 0 {
      assert Zeros(k)[..k - 1] == Zeros(k - 1);
      ZerosAreZero(k - 1);
    }
  }

  /** Zero padding reads back as the number it pads. */
  lemma PadRoundTrip(n: nat, width: nat)
    ensures TryParseNumber(PadDigits(n, width)) == Some(n)
  {
    var d := Decimal(n);
    DecimalRoundTrip(n);
    if |d| < width {
      LeadingZerosIgnored(width - |d|, d);
    }
  }

  lemma PadOne()
    ensures PadDigits(1, 3) == "001"
  {
    assert Decimal(1) == "1";
    assert Zeros(2) == "00";
  }

  // ---------------------------------------------------------------------
  // Splitting a formatted number

  lemma {:induction false} SplitWithoutSeparator(x: string, sep: char)
    requires sep !in x
    ensures Split(x, sep) == [x]
  {
    if x != [] {
      assert x[0] in x;
      SplitWithoutSeparator(x[1..], sep);
      assert [x[0]] + x[1..] == x;
    }
  }

  lemma {:induction false} SplitAtFirstSeparator(x: string, y: string, sep: char)
    requires sep !in x
    ensures Split(x + [sep] + y, sep) == [x] + Split(y, sep)
  {
    if x == [] {
      assert x + [sep] + y == [sep] + y;
      assert ([sep] + y)[1..] == y;
    } else {
      assert (x + [sep] + y)[1..] == x[1..] + [sep] + y;
      SplitAtFirstSeparator(x[1..], y, sep);
      assert [x[0]] + x[1..] == x;
    }
  }

  /** Three dash-free pieces joined by dashes split back into themselves. */
  lemma SplitThree(a: string, b: string, c: string)
    requires '-' !in a && '-' !in b && '-' !in c
    ensures Split(a + "-" + b + "-" + c, '-') == [a, b, c]
  {
    SplitWithoutSeparator(c, '-');
    SplitAtFirstSeparator(b, c, '-');
    assert b + "-" + c == b + ['-'] + c;
    SplitAtFirstSeparator(a, b + "-" + c, '-');
    assert a + "-" + b + "-" + c == a + ['-'] + (b + "-" + c);
  }

  lemma NumeralHasNoDash(s: string)
    requires AllDigits(s)
    ensures '-' !in s
  {
  }

  // ---------------------------------------------------------------------
  // Properties of the numbering

  /** The generated number is the previous sequence plus one (or 1),
      formatted for the current month. */
  lemma GenerateFormatsNextSequence(last: Option<string>, localNow: DateTime)
    ensures GenerateOfferNumber(last, localNow) == Format(YearMonth(localNow), NextSequence(last))
  {
    PadOne();
  }

  /** With no previous number (null or empty) the month starts at 001. */
  lemma FirstNumberOfMonth(localNow: DateTime)
    ensures GenerateOfferNumber(None, localNow) == Prefix + "-" + YearMonth(localNow) + "-001"
    ensures GenerateOfferNumber(Some(""), localNow) == Prefix + "-" + YearMonth(localNow) + "-001"
  {
  }

  /** Only the third part of the previous number matters: its prefix and
      month are ignored, and the current month is used. */
  lemma NextNumberIgnoresPrefixAndMonth(a: string, b: string, digits: string, localNow: DateTime)
    requires '-' !in a && '-' !in b && IsNumeral(digits)
    ensures GenerateOfferNumber(Some(a + "-" + b + "-" + digits), localNow)
            == Format(YearMonth(localNow), ParseDigits(digits) + 1)
  {
    NumeralHasNoDash(digits);
    SplitThree(a, b, digits);
  }

  /** A previous number that does not split into exactly three parts, or
      whose third part is not a number, restarts the sequence at 001. */
  lemma UnreadablePreviousRestarts(last: string, localNow: DateTime)
    requires Occurrences(last, '-') != 2 || !IsNumeral(Split(last, '-')[|Split(last, '-')| - 1])
    ensures GenerateOfferNumber(Some(last), localNow) == Prefix + "-" + YearMonth(localNow) + "-001"
  {
    SplitCount(last, '-');
  }

  /** A generated number splits into the prefix, the month and a numeral
      that reads back as its sequence value. */
  lemma GeneratedNumberParses(last: Option<string>, localNow: DateTime)
    ensures Split(GenerateOfferNumber(last, localNow), '-')
            == [Prefix, YearMonth(localNow), PadDigits(NextSequence(last), 3)]
    ensures TryParseNumber(PadDigits(NextSequence(last), 3)) == Some(NextSequence(last))
  {
    GenerateFormatsNextSequence(last, localNow);
    NumeralHasNoDash(YearMonth(localNow));
    NumeralHasNoDash(PadDigits(NextSequence(last), 3));
    SplitThree(Prefix, YearMonth(localNow), PadDigits(NextSequence(last), 3));
    PadRoundTrip(NextSequence(last), 3);
  }

  /** Numbering continues: feeding a generated number back in, in any
      later (or earlier) month, yields the next sequence value. */
  lemma {:induction false} NumberingContinues(last: Option<string>, localNow: DateTime, nextNow: DateTime)
    ensures NextSequence(Some(GenerateOfferNumber(last, localNow))) == NextSequence(last) + 1
    ensures GenerateOfferNumber(Some(GenerateOfferNumber(last, localNow)), nextNow)
            == Format(YearMonth(nextNow), NextSequence(last) + 1)
  {
    GeneratedNumberParses(last, localNow);
    GenerateFormatsNextSequence(Some(GenerateOfferNumber(last, localNow)), nextNow);
  }
}
