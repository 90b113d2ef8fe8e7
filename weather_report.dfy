/**
  The `WeatherReport` value of bot/services/weather/get_data.py and its
  derived `condition` text: a fixed table of WMO weather codes with the
  fallback "Code N" for every code the table does not hold.
*/
module WeatherReport {
  import opened Wrappers

  /** One current-weather reading; immutable once built. */
  datatype Report = Report(
    temperature: real,
    windspeed: real,
    winddirection: real,
    weathercode: int,
    time: string)

  /** The codes that have their own description. */
  const KnownCodes: set<int> := {0, 1, 2, 3, 45, 48, 51, 61, 71, 95}

  /** The description table, emoji included. */
  function Describe(code: int): Option<string>
  {
    match code
    case 0 => Some("Clear \U{2600}\U{FE0F}")
    case 1 => Some("Mainly clear \U{1F324}")
    case 2 => Some("Partly cloudy \U{26C5}\U{FE0F}")
    case 3 => Some("Overcast \U{2601}\U{FE0F}")
    case 45 => Some("Fog \U{1F32B}")
    case 48 => Some("Depositing rime fog \U{2744}\U{FE0F}")
    case 51 => Some("Light drizzle \U{1F327}")
    case 61 => Some("Light rain \U{1F326}")
    case 71 => Some("Light snowfall \U{1F328}")
    case 95 => Some("Thunderstorm \U{26C8}")
    case _ => None
  }

  /** `condition`: the table entry, or "Code N" with N written in decimal. */
  function Condition(code: int): (s: string)
    ensures code in KnownCodes ==> Describe(code) == Some(s)
    ensures code !in KnownCodes ==> s == "Code " + IntToString(code)
  {
    match Describe(code)
    case Some(text) => text
    case None => "Code " + IntToString(code)
  }

  // ---------------------------------------------------------------------
  // Decimal text of an integer, as Python's f"{n}" writes it, and its
  // inverse, which shows that the fallback text names the code exactly.
  // ---------------------------------------------------------------------

  predicate IsDigit(c: char)
  {
    '0' <= c <= '9'
  }

  predicate AllDigits(s: string)
  {
    forall i :: 0 <= i < |s| ==> IsDigit(s[i])
  }

  function DigitChar(d: nat): (c: char)
    requires d < 10
    ensures IsDigit(c) && (c as int) - ('0' as int) == d
  {
    (('0' as int) + d) as char
  }

  /** Digits of n, most significant first, no leading zeros. */
  function NatToString(n: nat): (s: string)
    decreases n
  {
    if n < 10 then [DigitChar(n)] else NatToString(n / 10) + [DigitChar(n % 10)]
  }

  function IntToString(i: int): (s: string)
  {
    if i < 0 then "-" + NatToString(-i) else NatToString(i)
  }

  /** The value of a string of decimal digits (most significant first). */
  function DigitsValue(s: string): (n: nat)
    requires AllDigits(s)
  {
    if s == [] then 0
    else DigitsValue(s[..|s| - 1]) * 10 + ((s[|s| - 1] as int) - ('0' as int))
  }

  /** Reads back an optional minus sign followed by at least one digit. */
  function ParseInt(s: string): (r: Option<int>)
  {
    if |s| >= 2 && s[0] == '-' && AllDigits(s[1..]) then Some(0 - DigitsValue(s[1..]))
    else if |s| >= 1 && AllDigits(s) then Some(DigitsValue(s))
    else None
  }

  lemma {:induction false} NatToStringDigits(n: nat)
    ensures |NatToString(n)| >= 1 && AllDigits(NatToString(n))
    ensures DigitsValue(NatToString(n)) == n
    decreases n
  {
    if n >= 10 {
      NatToStringDigits(n / 10);
      var s := NatToString(n);
      assert s[..|s| - 1] == NatToString(n / 10);
    }
  }

  /** Writing an integer in decimal and reading it back gives the integer. */
  lemma IntToStringRoundTrip(i: int)
    ensures ParseInt(IntToString(i)) == Some(i)
  {
    if i < 0 {
      NatToStringDigits(-i);
      assert IntToString(i)[1..] == NatToString(-i);
    } else {
      NatToStringDigits(i);
    }
  }

  /** Distinct codes are written differently. */
  lemma IntToStringInjective(a: int, b: int)
    ensures IntToString(a) == IntToString(b) ==> a == b
  {
    IntToStringRoundTrip(a);
    IntToStringRoundTrip(b);
  }

  /**
    A code outside the table gets the text "Code " followed by a number
    that reads back as that very code, so two unmapped codes never share a
    description and none of them is mistaken for a table entry.
  */
  lemma FallbackNamesCode(code: int)
    requires code !in KnownCodes
    ensures |Condition(code)| > 5 && Condition(code)[..5] == "Code "
    ensures ParseInt(Condition(code)[5..]) == Some(code)
    ensures forall other :: other in KnownCodes ==> Condition(code) != Condition(other)
  {
    IntToStringRoundTrip(code);
    NatToStringDigits(if code < 0 then -code else code);
    assert Condition(code)[5..] == IntToString(code);
    forall other | other in KnownCodes
      ensures Condition(code) != Condition(other)
    {
      TableTextsAreNotFallbacks(other);
    }
  }

  /** No table text begins the way a fallback text does. */
  lemma TableTextsAreNotFallbacks(code: int)
    requires code in KnownCodes
    ensures |Condition(code)| >= 5 && Condition(code)[..5] != "Code "
  {
    var text := Condition(code);
    assert Describe(code) == Some(text);
    assert text[2] != 'd';
    assert text[..5][2] != "Code "[2];
  }

  /** The table gives each known code its own text, and unknown codes none. */
  lemma DescribeCoversKnownCodes(code: int)
    ensures Describe(code).Some? <==> code in KnownCodes
  {
  }

  /** Two codes have the same condition text only if they are the same code. */
  lemma ConditionInjective(a: int, b: int)
    ensures Condition(a) == Condition(b) ==> a == b
  {
    if Condition(a) == Condition(b) {
      DescribeCoversKnownCodes(a);
      DescribeCoversKnownCodes(b);
      if a !in KnownCodes && b !in KnownCodes {
        assert IntToString(a) == Condition(a)[5..];
        assert IntToString(b) == Condition(b)[5..];
        IntToStringInjective(a, b);
      } else if a !in KnownCodes {
        FallbackNamesCode(a);
      } else if b !in KnownCodes {
        FallbackNamesCode(b);
      }
    }
  }
}
