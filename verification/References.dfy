/**
 * Printing and reading back order references,
 * `BDAY-EMP{token}-{year}-{seq:05d}`.
 */
module References {
  import opened Common

  const PREFIX := "BDAY-EMP"

  // ------------------------------------------------------------------
  // Decimal numerals
  // ------------------------------------------------------------------

  predicate IsDigit(c: char) { '0' <= c <= '9' }

  predicate AllDigits(s: string) { forall i :: 0 <= i < |s| ==> IsDigit(s[i]) }

  function Decimal(n: nat): (s: string)
    ensures |s| > 0 && AllDigits(s)
  {
    var last := ['0' + (n % 10) as char];
    if n < 10 then last else Decimal(n / 10) + last
  }

  /** The `:05d` format: zeros on the left up to five characters, never truncated. */
  function PadFive(s: string): string
    decreases 5 - |s|
  {
    if |s| < 5 then PadFive("0" + s) else s
  }

  function Value(s: string): nat
    requires AllDigits(s)
  {
    if s == "" then 0 else 10 * Value(s[..|s| - 1]) + (s[|s| - 1] - '0') as int
  }

  lemma {:induction false} ValueOfDecimal(n: nat)
    ensures Value(Decimal(n)) == n
  {
    if n >= 10 {
      ValueOfDecimal(n / 10);
      assert Decimal(n)[..|Decimal(n)| - 1] == Decimal(n / 10);
    }
  }

  lemma {:induction false} LeadingZero(s: string)
    requires AllDigits(s)
    ensures AllDigits("0" + s) && Value("0" + s) == Value(s)
  {
    if s != "" {
      LeadingZero(s[..|s| - 1]);
      assert ("0" + s)[..|s|] == "0" + s[..|s| - 1];
    }
  }

  lemma {:induction false} PaddingKeepsTheValue(s: string)
    requires AllDigits(s)
    ensures AllDigits(PadFive(s)) && Value(PadFive(s)) == Value(s)
    ensures |PadFive(s)| == if |s| < 5 then 5 else |s|
    decreases 5 - |s|
  {
    if |s| < 5 {
      LeadingZero(s);
      PaddingKeepsTheValue("0" + s);
    }
  }

  /** A numeral has `k` digits or fewer exactly when the number is below 10^k. */
  lemma {:induction false} DecimalLength(n: nat, k: nat)
    requires k >= 1
    ensures |Decimal(n)| <= k <==> n < Power10(k)
  {
    if n >= 10 {
      if k == 1 {
      } else {
        DecimalLength(n / 10, k - 1);
        assert n / 10 < Power10(k - 1) <==> n < 10 * Power10(k - 1);
      }
    } else {
      Power10AtLeastTen(k);
    }
  }

  function Power10(k: nat): nat { if k == 0 then 1 else 10 * Power10(k - 1) }

  lemma {:induction false} Power10AtLeastTen(k: nat)
    requires k >= 1
    ensures Power10(k) >= 10
  {
    if k <= 1 {
    } else {
      Power10AtLeastTen(k - 1);
    }
  }

  // ------------------------------------------------------------------
  // Printing
  // ------------------------------------------------------------------

  function Join(token: string, year: string, number: string): string {
    PREFIX + token + "-" + year + "-" + number
  }

  /** What `next_order_reference` returns for the sequence number it drew. */
  function Print(token: string, year: nat, number: nat): string {
    Join(token, Decimal(year), PadFive(Decimal(number)))
  }

  // ------------------------------------------------------------------
  // Decoding by the last two dashes, for any number of digits
  // ------------------------------------------------------------------

  datatype Decoded = Decoded(token: string, year: nat, number: nat)

  function LastDash(s: string): (i: int)
    ensures -1 <= i < |s|
    ensures i >= 0 ==> s[i] == '-'
  {
    if s == "" then -1
    else if s[|s| - 1] == '-' then |s| - 1
    else LastDash(s[..|s| - 1])
  }

  /** The identity a reference carries: who, which year, which number of that year. */
  function Decode(s: string): Option<Decoded> {
    var j := LastDash(s);
    if j < 0 then None else
    var i := LastDash(s[..j]);
    if i < |PREFIX| || s[..|PREFIX|] != PREFIX then None else
    var year, number := s[i + 1..j], s[j + 1..];
    if year == "" || number == "" || !AllDigits(year) || !AllDigits(number) then None
    else Some(Decoded(s[|PREFIX|..i], Value(year), Value(number)))
  }

  lemma {:induction false} LastDashBeforeDigits(a: string, digits: string)
    requires AllDigits(digits)
    ensures LastDash(a + "-" + digits) == |a|
  {
    var s := a + "-" + digits;
    if digits != "" {
      LastDashBeforeDigits(a, digits[..|digits| - 1]);
      assert s[..|s| - 1] == a + "-" + digits[..|digits| - 1];
    }
  }

  lemma DecodeJoined(token: string, year: string, number: string)
    requires AllDigits(year) && AllDigits(number) && year != "" && number != ""
    ensures Decode(Join(token, year, number)) == Some(Decoded(token, Value(year), Value(number)))
  {
    var s := Join(token, year, number);
    var head := PREFIX + token + "-" + year;
    LastDashBeforeDigits(head, number);
    assert s == head + "-" + number;
    assert s[..|head|] == head;
    assert s[|head| + 1..] == number;
    LastDashBeforeDigits(PREFIX + token, year);
    var i := |PREFIX + token|;
    assert s[i + 1..|head|] == year;
    assert s[|PREFIX|..i] == token;
    assert s[..|PREFIX|] == PREFIX;
  }

  lemma JoinIsInjective(t1: string, y1: string, n1: string, t2: string, y2: string, n2: string)
    requires AllDigits(y1) && AllDigits(n1) && AllDigits(y2) && AllDigits(n2)
    requires Join(t1, y1, n1) == Join(t2, y2, n2)
    ensures t1 == t2 && y1 == y2 && n1 == n2
  {
    var a1, a2 := PREFIX + t1 + "-" + y1, PREFIX + t2 + "-" + y2;
    LastDashBeforeDigits(a1, n1);
    LastDashBeforeDigits(a2, n2);
    assert Join(t1, y1, n1)[..|a1|] == a1 && Join(t2, y2, n2)[..|a2|] == a2;
    assert Join(t1, y1, n1)[|a1| + 1..] == n1 && Join(t2, y2, n2)[|a2| + 1..] == n2;
    LastDashBeforeDigits(PREFIX + t1, y1);
    LastDashBeforeDigits(PREFIX + t2, y2);
    assert a1[..|PREFIX + t1|] == PREFIX + t1 && a2[..|PREFIX + t2|] == PREFIX + t2;
    assert a1[|PREFIX + t1| + 1..] == y1 && a2[|PREFIX + t2| + 1..] == y2;
    assert (PREFIX + t1)[|PREFIX|..] == t1 && (PREFIX + t2)[|PREFIX|..] == t2;
  }

  /** Decoding undoes printing for every token, year and number, however long. */
  lemma DecodePrinted(token: string, year: nat, number: nat)
    ensures Decode(Print(token, year, number)) == Some(Decoded(token, year, number))
  {
    ValueOfDecimal(year);
    ValueOfDecimal(number);
    PaddingKeepsTheValue(Decimal(number));
    DecodeJoined(token, Decimal(year), PadFive(Decimal(number)));
  }

  /** No two printed references coincide unless all three parts do, past 99999 as well. */
  lemma PrintIsInjective(t1: string, y1: nat, n1: nat, t2: string, y2: nat, n2: nat)
    ensures Print(t1, y1, n1) == Print(t2, y2, n2) <==> t1 == t2 && y1 == y2 && n1 == n2
  {
    DecodePrinted(t1, y1, n1);
    DecodePrinted(t2, y2, n2);
  }

  // ------------------------------------------------------------------
  // The backfill's regular expression
  // ------------------------------------------------------------------

  datatype Parsed = Parsed(token: string, year: string, number: string)

  /**
   * `^BDAY-EMP(?P<token>.+)-(?P<year>\d{4})-(?P<seq>\d{5})$` under `match`:
   * `.` stops at a newline and `$` also matches just before a final newline.
   */
  function Parse(s: string): Option<Parsed> {
    ParseWhole(if |s| > 0 && s[|s| - 1] == '\n' then s[..|s| - 1] else s)
  }

  function ParseWhole(s: string): Option<Parsed> {
    var i, j := |s| - 11, |s| - 6;
    if i < |PREFIX| + 1 || s[..|PREFIX|] != PREFIX || s[i] != '-' || s[j] != '-' then None else
    var token, year, number := s[|PREFIX|..i], s[i + 1..j], s[j + 1..];
    if '\n' in token || !AllDigits(year) || !AllDigits(number) then None
    else Some(Parsed(token, year, number))
  }

  lemma Cut(t: string, h: nat, i: nat, j: nat)
    requires h <= i < j < |t|
    ensures t == t[..h] + t[h..i] + [t[i]] + t[i + 1..j] + [t[j]] + t[j + 1..]
  {
  }

  /** The groups put back together are the string, except for the newline `$` lets through. */
  lemma ReprintParsed(s: string)
    requires Parse(s).Some?
    ensures var p := Parse(s).value;
            && p.token != "" && |p.year| == 4 && |p.number| == 5
            && AllDigits(p.year) && AllDigits(p.number)
            && s == Join(p.token, p.year, p.number) + (if s[|s| - 1] == '\n' then "\n" else "")
  {
    hide ParseWhole, AllDigits;
    var t := if |s| > 0 && s[|s| - 1] == '\n' then s[..|s| - 1] else s;
    ReprintWhole(t);
    assert s == t + (if s[|s| - 1] == '\n' then "\n" else "");
  }

  lemma ReprintWhole(s: string)
    requires ParseWhole(s).Some?
    ensures var p := ParseWhole(s).value;
            && p.token != "" && |p.year| == 4 && |p.number| == 5
            && AllDigits(p.year) && AllDigits(p.number)
            && s == Join(p.token, p.year, p.number)
  {
    hide AllDigits;
    Cut(s, |PREFIX|, |s| - 11, |s| - 6);
  }

  /** So reprinting gives the original back exactly for strings without a final newline. */
  lemma ReprintIsExactWithoutNewline(s: string)
    requires Parse(s).Some?
    ensures Join(Parse(s).value.token, Parse(s).value.year, Parse(s).value.number) == s <==> s[|s| - 1] != '\n'
  {
    ReprintParsed(s);
  }

  /** Such a string: `$` lets the newline through, and the parts put back together lack it. */
  lemma AFinalNewlineIsParsed()
    ensures var s := Join("7", "2026", "00001") + "\n";
            Parse(s) == Some(Parsed("7", "2026", "00001")) && Join("7", "2026", "00001") != s
  {
    var whole := Join("7", "2026", "00001");
    ParseJoined("7", "2026", "00001");
    assert whole[|whole| - 1] == '1';
    assert (whole + "\n")[..|whole|] == whole;
  }

  /** The regular expression and the decoder agree on what they both read. */
  lemma ParsedIsDecoded(s: string)
    requires Parse(s).Some? && Decode(s).Some?
    ensures var p := Parse(s).value;
            && AllDigits(p.year) && AllDigits(p.number) && s == Join(p.token, p.year, p.number)
            && Decode(s).value == Decoded(p.token, Value(p.year), Value(p.number))
  {
    ReprintParsed(s);
    var p := Parse(s).value;
    DecodeJoined(p.token, p.year, p.number);
  }

  /**
   * The backfill can read a printed reference exactly when the token is a
   * non-empty single line, the year has four digits and the number at most five;
   * then it reads the three parts that were printed.
   */
  lemma ParsePrinted(token: string, year: nat, number: nat)
    ensures Parse(Print(token, year, number)).Some?
       <==> token != "" && '\n' !in token && 1000 <= year < 10000 && number < 100000
    ensures Parse(Print(token, year, number)).Some? ==>
              Parse(Print(token, year, number)).value == Parsed(token, Decimal(year), PadFive(Decimal(number)))
  {
    var y, n := Decimal(year), PadFive(Decimal(number));
    PaddingKeepsTheValue(Decimal(number));
    FourDigitYear(year);
    FiveDigitNumber(number);
    assert Join(token, y, n)[|Join(token, y, n)| - 1] == n[|n| - 1];
    if token != "" && '\n' !in token && |y| == 4 && |n| == 5 {
      ParseJoined(token, y, n);
    }
    if Parse(Join(token, y, n)).Some? {
      ReprintParsed(Join(token, y, n));
      var p := Parse(Join(token, y, n)).value;
      JoinIsInjective(token, y, n, p.token, p.year, p.number);
    }
  }

  lemma ParseJoined(token: string, year: string, number: string)
    requires token != "" && '\n' !in token
    requires AllDigits(year) && |year| == 4 && AllDigits(number) && |number| == 5
    ensures Parse(Join(token, year, number)) == Some(Parsed(token, year, number))
  {
    var s := Join(token, year, number);
    assert s[|s| - 1] == number[4];
    assert s[..|PREFIX|] == PREFIX;
    assert s[|PREFIX|..|s| - 11] == token;
    assert s[|s| - 10..|s| - 6] == year;
    assert s[|s| - 5..] == number;
  }

  lemma FourDigitYear(year: nat)
    ensures |Decimal(year)| == 4 <==> 1000 <= year < 10000
  {
    DecimalLength(year, 4);
    DecimalLength(year, 3);
    assert Power10(4) == 10000 && Power10(3) == 1000;
  }

  lemma FiveDigitNumber(number: nat)
    ensures |PadFive(Decimal(number))| == 5 <==> number < 100000
  {
    PaddingKeepsTheValue(Decimal(number));
    DecimalLength(number, 5);
    assert Power10(5) == 100000 by { assert Power10(3) == 1000; }
  }
}
