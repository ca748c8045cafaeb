/**
 * The YYYY-MM-DD strings the application keys its records and its holiday
 * list by: String(year), then month and day each padded to two digits with
 * `padStart(2, '0')`.
 */
module DateFormat {
  import opened Wrappers
  import opened Dates

  predicate IsDigit(c: char) {
    '0' <= c <= '9'
  }

  function DigitChar(n: nat): (c: char)
    requires n < 10
    ensures IsDigit(c)
  {
    ('0' as int + n) as char
  }

  function DigitValue(c: char): nat
    requires IsDigit(c)
  {
    c as nat - '0' as nat
  }

  /** Decimal digits of `n`, no leading zeros (Number.prototype.toString). */
  function NatToDecimal(n: nat): (s: string)
    ensures |s| >= 1
    ensures forall i :: 0 <= i < |s| ==> IsDigit(s[i])
    decreases n
  {
    if n < 10 then [DigitChar(n)] else NatToDecimal(n / 10) + [DigitChar(n % 10)]
  }

  /** String(i) for an integer: a minus sign then the digits of |i|. */
  function IntToDecimal(i: int): string {
    if i < 0 then "-" + NatToDecimal(-i) else NatToDecimal(i)
  }

  /** `s.padStart(2, '0')`. */
  function PadStart2(s: string): string {
    if |s| >= 2 then s else seq(2 - |s|, _ => '0') + s
  }

  /** The local-calendar YYYY-MM-DD string of a date. */
  function IsoString(d: Date): string {
    IntToDecimal(d.year) + "-" + PadStart2(NatToDecimal(d.month)) + "-" + PadStart2(NatToDecimal(d.day))
  }

  predicate AllDigits(s: string) {
    forall i :: 0 <= i < |s| ==> IsDigit(s[i])
  }

  /** Value of a run of decimal digits (leading zeros allowed). */
  function ParseNat(s: string): nat
    requires AllDigits(s)
    decreases |s|
  {
    if s == [] then 0 else ParseNat(s[..|s| - 1]) * 10 + DigitValue(s[|s| - 1])
  }

  function ParseInt(s: string): Option<int> {
    if |s| >= 2 && s[0] == '-' && AllDigits(s[1..]) then Some(0 - ParseNat(s[1..]) as int)
    else if |s| >= 1 && AllDigits(s) then Some(ParseNat(s))
    else None
  }

  /** Reads back a YYYY-MM-DD string: a year, '-', two month digits, '-', two day digits. */
  function ParseIso(s: string): Option<CivilDate> {
    if |s| < 7 || s[|s| - 6] != '-' || s[|s| - 3] != '-' then None
    else
      var y, m, d := s[..|s| - 6], s[|s| - 5..|s| - 3], s[|s| - 2..];
      if !AllDigits(m) || !AllDigits(d) then None
      else match ParseInt(y)
        case None => None
        case Some(year) => Some(CivilDate(year, ParseNat(m), ParseNat(d)))
  }

  // ---------------------------------------------------------------------------

  lemma {:induction false} ParseNatToDecimal(n: nat)
    ensures ParseNat(NatToDecimal(n)) == n
    decreases n
  {
    if n >= 10 {
      var s := NatToDecimal(n);
      assert s[..|s| - 1] == NatToDecimal(n / 10);
      ParseNatToDecimal(n / 10);
    }
  }

  lemma ParseIntToDecimal(i: int)
    ensures ParseInt(IntToDecimal(i)) == Some(i)
  {
    ParseNatToDecimal(if i < 0 then -i else i);
    if i < 0 {
      assert IntToDecimal(i)[1..] == NatToDecimal(-i);
    }
  }

  lemma DigitRoundTrip(n: nat)
    requires n < 10
    ensures DigitValue(DigitChar(n)) == n
  {
    assert n in {0, 1, 2, 3, 4, 5, 6, 7, 8, 9};
  }

  /** Two-digit padding of a number below 100 is its tens digit then its units digit. */
  lemma TwoDigits(n: nat)
    requires n < 100
    ensures PadStart2(NatToDecimal(n)) == [DigitChar(n / 10), DigitChar(n % 10)]
    ensures ParseNat(PadStart2(NatToDecimal(n))) == n
  {
    if n >= 10 {
      assert NatToDecimal(n / 10) == [DigitChar(n / 10)];
    }
    var s := [DigitChar(n / 10), DigitChar(n % 10)];
    DigitRoundTrip(n / 10);
    DigitRoundTrip(n % 10);
    assert s[..1] == [DigitChar(n / 10)];
    assert s[..1][..0] == [];
    assert ParseNat(s[..1]) == n / 10;
    assert ParseNat(s) == (n / 10) * 10 + n % 10;
  }

  /** A four-digit year is written with exactly its four digits. */
  lemma FourDigits(n: nat)
    requires 1000 <= n < 10000
    ensures NatToDecimal(n) == [DigitChar(n / 1000), DigitChar(n / 100 % 10), DigitChar(n / 10 % 10), DigitChar(n % 10)]
  {
    assert NatToDecimal(n / 1000) == [DigitChar(n / 1000)];
    assert NatToDecimal(n / 100) == NatToDecimal(n / 100 / 10) + [DigitChar(n / 100 % 10)];
    assert n / 100 / 10 == n / 1000;
    assert NatToDecimal(n / 10) == NatToDecimal(n / 10 / 10) + [DigitChar(n / 10 % 10)];
    assert n / 10 / 10 == n / 100;
  }

  /** The ten characters of the string of a date with a four-digit year. */
  lemma IsoStringDigits(d: Date)
    requires 1000 <= d.year < 10000
    ensures IsoString(d) == [
      DigitChar(d.year / 1000), DigitChar(d.year / 100 % 10), DigitChar(d.year / 10 % 10), DigitChar(d.year % 10),
      '-', DigitChar(d.month / 10), DigitChar(d.month % 10),
      '-', DigitChar(d.day / 10), DigitChar(d.day % 10)]
  {
    FourDigits(d.year);
    TwoDigits(d.month);
    TwoDigits(d.day);
  }

  /** Formatting then parsing gives the date back. */
  lemma {:induction false} ParseIsoRoundTrip(d: Date)
    ensures ParseIso(IsoString(d)) == Some(d)
  {
    var y, m, dd := IntToDecimal(d.year), PadStart2(NatToDecimal(d.month)), PadStart2(NatToDecimal(d.day));
    TwoDigits(d.month);
    TwoDigits(d.day);
    var s := IsoString(d);
    assert s == y + "-" + m + "-" + dd;
    assert s[..|s| - 6] == y;
    assert s[|s| - 5..|s| - 3] == m;
    assert s[|s| - 2..] == dd;
    assert s[|s| - 6] == '-' && s[|s| - 3] == '-';
    ParseIntToDecimal(d.year);
  }

  /** Distinct dates have distinct strings. */
  lemma IsoStringInjective(a: Date, b: Date)
    ensures IsoString(a) == IsoString(b) <==> a == b
  {
    ParseIsoRoundTrip(a);
    ParseIsoRoundTrip(b);
  }

  /** The string starts with the decimal year, as `startsWith(year.toString())` expects. */
  lemma IsoStringStartsWithYear(d: Date)
    ensures IntToDecimal(d.year) <= IsoString(d)
  {
  }
}
