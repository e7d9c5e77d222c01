/** Text forms of a time of day: the 24-hour "HH:MM" string an alarm stores,
    the parse that reads it back, and the 12-hour display with a Tamil
    morning/evening suffix. */
module TimeText {
  import opened Wrappers

  predicate IsDigit(c: char) { '0' <= c <= '9' }

  predicate AllDigits(s: string) { forall i :: 0 <= i < |s| ==> IsDigit(s[i]) }

  function DigitChar(d: nat): (c: char)
    requires d < 10
    ensures IsDigit(c)
  {
    (('0' as int) + d) as char
  }

  function DigitValue(c: char): nat
    requires IsDigit(c)
  {
    (c as int) - ('0' as int)
  }

  /** `String(n)` for a non-negative integer: its decimal digits, most significant first. */
  function DecimalString(n: nat): (s: string)
    ensures |s| >= 1 && AllDigits(s)
  {
    if n < 10 then [DigitChar(n)] else DecimalString(n / 10) + [DigitChar(n % 10)]
  }

  /** `s.padStart(2, '0')`. */
  function PadStart2(s: string): string
  {
    if |s| >= 2 then s else if |s| == 1 then "0" + s else "00"
  }

  /** `String(n).padStart(2, '0')`, as the save and the display both write it. */
  function Pad2(n: nat): string
  {
    PadStart2(DecimalString(n))
  }

  /** The stored time string of an alarm, built from the picker's hour and minute. */
  function FormatTime(h: nat, m: nat): string
  {
    Pad2(h) + ":" + Pad2(m)
  }

  /** The value of a string of decimal digits. */
  function DigitsValue(s: string): nat
    requires AllDigits(s)
  {
    if s == [] then 0 else DigitsValue(s[..|s| - 1]) * 10 + DigitValue(s[|s| - 1])
  }

  /** The longest prefix of `s` made of decimal digits. */
  function DigitPrefix(s: string): (p: string)
    ensures AllDigits(p) && p <= s
    ensures |p| < |s| ==> !IsDigit(s[|p|])
  {
    if s == [] || !IsDigit(s[0]) then [] else [s[0]] + DigitPrefix(s[1..])
  }

  /** `parseInt(s)` on text without leading blanks or sign: the value of the
      leading digits, or no number (NaN) when `s` does not start with a digit. */
  function ParseInt(s: string): Option<nat>
  {
    if |s| > 0 && IsDigit(s[0]) then Some(DigitsValue(DigitPrefix(s))) else None
  }

  /** The text of `t` before its first ':' (all of `t` when it has none). */
  function BeforeColon(t: string): (p: string)
    ensures p <= t && ':' !in p
    ensures |p| < |t| ==> t[|p|] == ':'
  {
    if t == [] || t[0] == ':' then [] else [t[0]] + BeforeColon(t[1..])
  }

  /** The first two fields of `t.split(':')`; the second is absent (`undefined`)
      when `t` has no ':'. */
  function Fields(t: string): (string, Option<string>)
  {
    var hh := BeforeColon(t);
    if |hh| == |t| then (hh, None) else (hh, Some(BeforeColon(t[|hh| + 1..])))
  }

  /** Reading a stored time back: split on ':' and `parseInt` both fields. */
  function ParseTime(t: string): Option<(nat, nat)>
  {
    var (hh, mm) := Fields(t);
    match (ParseInt(hh), mm)
    case (Some(h), Some(ms)) =>
      (match ParseInt(ms)
       case Some(m) => Some((h, m))
       case None => None)
    case _ => None
  }

  /** A stored time is well formed when it reads back as a real time of day. */
  predicate ValidTime(t: string)
  {
    var p := ParseTime(t);
    p.Some? && p.value.0 < 24 && p.value.1 < 60
  }

  lemma {:induction false} DigitsOfDecimal(n: nat)
    ensures DigitsValue(DecimalString(n)) == n
  {
    if n >= 10 {
      var s := DecimalString(n);
      assert s[..|s| - 1] == DecimalString(n / 10);
      DigitsOfDecimal(n / 10);
    }
  }

  lemma {:induction false} LeadingZero(s: string)
    requires AllDigits(s)
    ensures AllDigits("0" + s) && DigitsValue("0" + s) == DigitsValue(s)
  {
    if s != [] {
      var z := "0" + s;
      assert z[..|z| - 1] == "0" + s[..|s| - 1];
      LeadingZero(s[..|s| - 1]);
    }
  }

  lemma {:induction false} DigitPrefixAll(s: string, rest: string)
    requires AllDigits(s)
    requires rest == [] || !IsDigit(rest[0])
    ensures DigitPrefix(s + rest) == s
  {
    if s != [] {
      assert (s + rest)[1..] == s[1..] + rest;
      DigitPrefixAll(s[1..], rest);
    }
  }

  lemma {:induction false} BeforeColonDigits(s: string, rest: string)
    requires AllDigits(s)
    requires rest == [] || rest[0] == ':'
    ensures BeforeColon(s + rest) == s
  {
    if s != [] {
      assert (s + rest)[1..] == s[1..] + rest;
      BeforeColonDigits(s[1..], rest);
    }
  }

  /** A padded number reads back as the number. */
  lemma Pad2Parses(n: nat, rest: string)
    requires rest == [] || rest[0] == ':'
    ensures AllDigits(Pad2(n)) && |Pad2(n)| >= 2
    ensures ParseInt(Pad2(n) + rest) == Some(n)
    ensures BeforeColon(Pad2(n) + rest) == Pad2(n)
  {
    var d := DecimalString(n);
    DigitsOfDecimal(n);
    if |d| == 1 {
      LeadingZero(d);
    }
    DigitPrefixAll(Pad2(n), rest);
    BeforeColonDigits(Pad2(n), rest);
  }

  /** Splitting two digit strings joined by ':' gives them back. */
  lemma FieldsOfJoined(hs: string, ms: string)
    requires AllDigits(hs) && AllDigits(ms)
    ensures Fields(hs + ":" + ms) == (hs, Some(ms))
  {
    var t := hs + ":" + ms;
    BeforeColonDigits(hs, ":" + ms);
    assert t == hs + (":" + ms);
    BeforeColonDigits(ms, []);
    assert t[|hs| + 1..] == ms + [];
  }

  /** Below 100, the padded text is exactly the tens digit and the units digit. */
  lemma Pad2Digits(n: nat)
    requires n < 100
    ensures Pad2(n) == [DigitChar(n / 10), DigitChar(n % 10)]
  {
    if n >= 10 {
      assert DecimalString(n) == DecimalString(n / 10) + [DigitChar(n % 10)];
    }
  }

  /** Format/parse round trip: the stored string of any hour and minute reads
      back as that hour and minute. */
  lemma {:induction false} FormatParseRoundTrip(h: nat, m: nat)
    ensures ParseTime(FormatTime(h, m)) == Some((h, m))
  {
    var hs, ms := Pad2(h), Pad2(m);
    Pad2Parses(h, []);
    Pad2Parses(m, []);
    assert hs + [] == hs && ms + [] == ms;
    FieldsOfJoined(hs, ms);
  }

  /** For an hour and a minute below 100 the stored string is two digits,
      ':', two digits. */
  lemma FormatTimeShape(h: nat, m: nat)
    requires h < 100 && m < 100
    ensures FormatTime(h, m) == [DigitChar(h / 10), DigitChar(h % 10), ':', DigitChar(m / 10), DigitChar(m % 10)]
  {
    Pad2Digits(h);
    Pad2Digits(m);
  }

  /** Every time the save can store is well formed. */
  lemma FormatTimeValid(h: nat, m: nat)
    requires h < 24 && m < 60
    ensures ValidTime(FormatTime(h, m))
  {
    FormatParseRoundTrip(h, m);
  }

  const Morning: string := "காலை"
  const Evening: string := "மாலை"

  /** The 12-hour clock hour shown for a 24-hour hour. */
  function Hour12(hr: nat): nat
  {
    if hr > 12 then hr - 12 else if hr == 0 then 12 else hr
  }

  /** The morning/evening suffix shown for a 24-hour hour. */
  function Meridiem(hr: nat): string
  {
    if hr >= 12 then Evening else Morning
  }

  /** The usual reading of a 12-hour time back into a 24-hour hour. */
  function To24(h12: nat, meridiem: string): nat
  {
    if meridiem == Evening then (if h12 == 12 then 12 else h12 + 12)
    else (if h12 == 12 then 0 else h12)
  }

  /** On a real hour the 12-hour display is 1..12 and loses nothing: the
      standard reading recovers the hour. */
  lemma TwelveHourRoundTrip(hr: nat)
    requires hr < 24
    ensures 1 <= Hour12(hr) <= 12
    ensures To24(Hour12(hr), Meridiem(hr)) == hr
  {
  }

  /** The alarm card's time text: hour in 12-hour form padded to two digits,
      the minute field verbatim, then the suffix. A field that does not parse
      shows as `NaN`, a missing minute field as `undefined`, as in JavaScript. */
  function FmtTime(t: string): string
  {
    var (hh, mm) := Fields(t);
    var hr := ParseInt(hh);
    var ap := if hr.Some? && hr.value >= 12 then Evening else Morning;
    var hText := if hr.Some? then Pad2(Hour12(hr.value)) else "NaN";
    hText + ":" + (if mm.Some? then mm.value else "undefined") + " " + ap
  }

  /** The card text of a stored time: two-digit 12-hour hour, the stored
      two-digit minute, and the suffix; the hour text reads back as the
      12-hour hour, which the suffix turns back into the stored hour. */
  lemma {:induction false} FmtTimeOfStored(h: nat, m: nat)
    requires h < 24 && m < 60
    ensures FmtTime(FormatTime(h, m)) == Pad2(Hour12(h)) + ":" + Pad2(m) + " " + Meridiem(h)
    ensures |Pad2(Hour12(h))| == 2 && ParseInt(Pad2(Hour12(h))) == Some(Hour12(h))
    ensures To24(Hour12(h), Meridiem(h)) == h
  {
    var hs, ms := Pad2(h), Pad2(m);
    Pad2Parses(h, []);
    Pad2Parses(m, []);
    Pad2Parses(Hour12(h), []);
    assert hs + [] == hs && Pad2(Hour12(h)) + [] == Pad2(Hour12(h));
    FieldsOfJoined(hs, ms);
    Pad2Digits(Hour12(h));
  }
}
