/** Flight times as text: the HH:MM printer of the pilot statistics and the parser of the PIREP form.

    Go integers are 64 bits wide; division and remainder truncate toward zero.
 */
module FlightTime {
  import opened GoStrings
  import opened PipeLists

  const MAX_INT: int := 0x7FFF_FFFF_FFFF_FFFF
  const MIN_INT: int := -0x8000_0000_0000_0000

  type Int64 = n: int | MIN_INT <= n <= MAX_INT witness 0

  function Quo(a: int, b: int): int
    requires b > 0
  {
    if a >= 0 then a / b else -((-a) / b)
  }

  function Rem(a: int, b: int): int
    requires b > 0
  {
    a - Quo(a, b) * b
  }

  function Wrapped(n: int): Int64 {
    if MIN_INT <= n <= MAX_INT then n else (n - MIN_INT) % 0x1_0000_0000_0000_0000 + MIN_INT
  }

  predicate IsDigit(c: char) {
    '0' <= c <= '9'
  }

  function DigitAt(d: nat): char
    requires d < 10
  {
    ('0' as int + d) as char
  }

  function Digits(n: nat): (s: string)
    ensures s != "" && forall c <- s :: IsDigit(c)
    ensures n < 10 <==> |s| == 1
  {
    if n < 10 then [DigitAt(n)] else Digits(n / 10) + [DigitAt(n % 10)]
  }

  /** %02d: the width counts the sign. */
  function Padded(n: int): string {
    if n < 0 then "-" + Digits(-n) else if n < 10 then "0" + Digits(n) else Digits(n)
  }

  /** formatTimeSeconds of an integer. */
  function FormatSeconds(secs: Int64): string {
    Padded(Quo(secs, 3600)) + ":" + Padded(Quo(Rem(secs, 3600), 60))
  }

  function NumberOf(s: string): nat
    requires forall c <- s :: IsDigit(c)
  {
    if s == "" then 0
    else
      assert IsDigit(s[|s| - 1]);
      NumberOf(s[..|s| - 1]) * 10 + (s[|s| - 1] as int - '0' as int)
  }

  predicate AllDigits(s: string) {
    s != "" && forall c <- s :: IsDigit(c)
  }

  function Clamped(n: int): Int64 {
    if n < MIN_INT then MIN_INT else if n > MAX_INT then MAX_INT else n
  }

  /** The number strconv.Atoi returns, its error ignored: zero for text that is not a number, the nearest
      bound for a number out of range. */
  function Atoi(s: string): Int64 {
    if AllDigits(s) then Clamped(NumberOf(s))
    else if s != "" && s[0] == '+' && AllDigits(s[1..]) then Clamped(NumberOf(s[1..]))
    else if s != "" && s[0] == '-' && AllDigits(s[1..]) then Clamped(0 - NumberOf(s[1..]))
    else 0
  }

  /** parseFlightTime */
  function ParseFlightTime(text: string): Int64 {
    var parts := Split(text, ':');
    if |parts| != 2 then 0 else Wrapped(Atoi(parts[0]) * 3600 + Atoi(parts[1]) * 60)
  }

  lemma {:induction false} DigitsRoundTrip(n: nat)
    ensures NumberOf(Digits(n)) == n
  {
    if n >= 10 {
      DigitsRoundTrip(n / 10);
      var s := Digits(n);
      assert s[..|s| - 1] == Digits(n / 10);
    }
  }

  lemma {:induction false} LeadingZero(s: string)
    requires forall c <- s :: IsDigit(c)
    ensures (forall c <- "0" + s :: IsDigit(c)) && NumberOf("0" + s) == NumberOf(s)
  {
    if s != "" {
      LeadingZero(s[..|s| - 1]);
      assert ("0" + s)[..|s|] == "0" + s[..|s| - 1];
    }
  }

  lemma AtoiOfDigits(s: string)
    requires AllDigits(s)
    ensures Atoi(s) == Clamped(NumberOf(s)) && Atoi("-" + s) == Clamped(0 - NumberOf(s))
  {
    assert ("-" + s)[1..] == s;
    assert !AllDigits("-" + s) by {
      assert ("-" + s)[0] == '-' && '-' in "-" + s;
    }
  }

  lemma PaddedText(n: int)
    ensures n < 0 ==> AllDigits(Digits(-n)) && NumberOf(Digits(-n)) == -n && Padded(n) == "-" + Digits(-n)
    ensures n >= 0 ==> AllDigits(Padded(n)) && NumberOf(Padded(n)) == n
  {
    if n < 0 {
      DigitsRoundTrip(-n);
    } else {
      DigitsRoundTrip(n);
      LeadingZero(Digits(n));
    }
  }

  /** Printing a number in at least two places and reading it back gives the number. */
  lemma PaddedRoundTrip(n: Int64)
    ensures Atoi(Padded(n)) == n
  {
    var m: int := n;
    PaddedText(m);
    AtoiOfDigits(if m < 0 then Digits(-m) else Padded(m));
  }

  lemma PaddedHasNoColon(n: int)
    ensures ':' !in Padded(n)
  {}

  lemma SplitAtColon(a: string, b: string)
    requires ':' !in a && ':' !in b
    ensures Split(a + ":" + b, ':') == [a, b]
  {
    var s := a + ":" + b;
    assert s[|a|] == ':' && s[|a| + 1..] == b && s[..|a|] == a;
    LastIndexIs(s, ':', |a|);
    assert LastIndex(a, ':') == |a|;
  }

  lemma ParsesParts(a: string, b: string, x: int, y: int)
    requires ':' !in a && ':' !in b && Atoi(a) == x && Atoi(b) == y
    ensures ParseFlightTime(a + ":" + b) == Wrapped(x * 3600 + y * 60)
  {
    SplitAtColon(a, b);
  }

  /** The text of two numbers reads as hours and minutes. */
  lemma ParsesPadded(hours: Int64, mins: Int64)
    requires MIN_INT <= hours * 3600 + mins * 60 <= MAX_INT
    ensures ParseFlightTime(Padded(hours) + ":" + Padded(mins)) == hours * 3600 + mins * 60
  {
    PaddedHasNoColon(hours);
    PaddedHasNoColon(mins);
    PaddedRoundTrip(hours);
    PaddedRoundTrip(mins);
    ParsesParts(Padded(hours), Padded(mins), hours, mins);
  }

  lemma WholeMinutes(secs: nat)
    ensures var hours, mins := secs / 3600, (secs % 3600) / 60;
            hours <= secs && mins < 60 && hours * 3600 + mins * 60 == secs / 60 * 60
  {
    var hours := secs / 3600;
    var rest := secs - hours * 3600;
    assert secs / 60 == hours * 60 + rest / 60;
  }

  lemma HoursAndMinutes(secs: int)
    ensures var hours, mins := Quo(secs, 3600), Quo(Rem(secs, 3600), 60);
            && hours * 3600 + mins * 60 == secs - Rem(secs, 60)
            && -60 < mins < 60 && (secs >= 0 ==> 0 <= hours <= secs) && (secs <= 0 ==> secs <= hours <= 0)
  {
    WholeMinutes(if secs >= 0 then secs else -secs);
  }

  /** Printing any number of seconds and parsing the text back loses exactly the odd seconds, for hours
      of any number of digits and for negative times too. */
  lemma SecondsRoundTrip(secs: Int64)
    ensures ParseFlightTime(FormatSeconds(secs)) == secs - Rem(secs, 60)
  {
    var hours, mins := Quo(secs, 3600), Quo(Rem(secs, 3600), 60);
    HoursAndMinutes(secs);
    assert MIN_INT <= hours * 3600 + mins * 60 <= MAX_INT;
    ParsesPadded(hours, mins);
  }

  /** And the other way: a time written as HH:MM with minutes below sixty is printed as it was read. */
  lemma TextRoundTrip(hours: nat, mins: nat, secs: Int64)
    requires mins < 60 && secs == hours * 3600 + mins * 60
    ensures ParseFlightTime(Padded(hours) + ":" + Padded(mins)) == secs
    ensures FormatSeconds(secs) == Padded(hours) + ":" + Padded(mins)
  {
    ParsesPadded(hours, mins);
    FormatsParts(secs, hours, mins);
  }

  lemma FormatsParts(secs: Int64, hours: nat, mins: nat)
    requires mins < 60 && secs == hours * 3600 + mins * 60
    ensures FormatSeconds(secs) == Padded(hours) + ":" + Padded(mins)
  {
    assert Quo(secs, 3600) == hours;
    assert Quo(Rem(secs, 3600), 60) == mins;
  }

  // ----- what the text looks like -----

  /** Division is toward zero: what is left over has the sign of the dividend. */
  lemma QuoTruncates(a: int, b: int)
    requires b > 0
    ensures a == Quo(a, b) * b + Rem(a, b) && -b < Rem(a, b) < b
    ensures (a >= 0 ==> Rem(a, b) >= 0) && (a <= 0 ==> Rem(a, b) <= 0)
  {
    if a < 0 {
      assert (-a) / b * b + (-a) % b == -a;
      assert Quo(a, b) * b == -((-a) / b * b);
    }
  }

  /** Decimal, the last digit last. */
  lemma DigitsAreDecimal(n: nat, d: nat)
    requires d < 10
    ensures Digits(d) == [('0' as int + d) as char]
    ensures n > 0 ==> Digits(n * 10 + d) == Digits(n) + [('0' as int + d) as char]
  {}

  lemma {:induction false} NoLeadingZero(n: nat)
    ensures Digits(n)[0] == '0' <==> n == 0
  {
    if n >= 10 {
      NoLeadingZero(n / 10);
    }
  }

  /** At least two places: one digit is led by a zero, more are not; a minus sign takes a place. */
  lemma PaddedWidth(n: int)
    ensures |Padded(n)| >= 2
    ensures 0 <= n < 10 ==> Padded(n) == ['0', ('0' as int + n) as char]
    ensures n >= 10 ==> Padded(n)[0] != '0' && AllDigits(Padded(n))
    ensures n < 0 ==> Padded(n)[0] == '-' && Padded(n)[1] != '0' && AllDigits(Padded(n)[1..])
  {
    NoLeadingZero(if n < 0 then -n else n);
    if n < 0 {
      assert Padded(n)[1..] == Digits(-n);
    }
  }

  /** What a part of the text is read as: digits, with a sign or without, as their number, or the nearest bound
      when that is too large. */
  lemma AtoiShows(digits: string)
    requires AllDigits(digits)
    ensures var n: int := NumberOf(digits);
            && Atoi("+" + digits) == Atoi(digits)
            && (n <= 9_223_372_036_854_775_807 ==> Atoi(digits) == n && Atoi("-" + digits) == -n)
            && (n > 9_223_372_036_854_775_807 ==>
                  Atoi(digits) == 9_223_372_036_854_775_807 && Atoi("-" + digits) == -9_223_372_036_854_775_808)
  {
    assert ("+" + digits)[1..] == digits;
    assert '+' in "+" + digits;
    AtoiOfDigits(digits);
  }

  /** Anything else is zero. */
  lemma AtoiOfOther(s: string)
    requires !AllDigits(s) && (s != "" && s[0] in {'+', '-'} ==> !AllDigits(s[1..]))
    ensures Atoi(s) == 0
  {}

  /** The sum of the parts is taken modulo 2 to the 64th. */
  lemma WrappedShows(n: int)
    ensures (Wrapped(n) - n) % 18_446_744_073_709_551_616 == 0
  {}

  /** A text that is not two parts around one colon is no time at all. */
  lemma OtherTextIsZero(text: string)
    ensures |Split(text, ':')| != 2 ==> ParseFlightTime(text) == 0
  {}
}
