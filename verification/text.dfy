/** The string helpers the coordinator leans on: JavaScript's
    `Number.prototype.toString()` for non-negative integers,
    `String.prototype.padStart`, `String.prototype.endsWith` and
    `Array.prototype.join`, and the `HH:MM:SS` clock text built from them. */
module Text {
  import opened Wrappers

  predicate IsDigit(c: char) {
    '0' <= c <= '9'
  }

  predicate AllDigits(s: string) {
    forall i :: 0 <= i < |s| ==> IsDigit(s[i])
  }

  function DigitValue(c: char): (d: nat)
    requires IsDigit(c)
    ensures d < 10
  {
    c as int - '0' as int
  }

  function DigitChar(d: nat): (c: char)
    requires d < 10
    ensures IsDigit(c) && DigitValue(c) == d
  {
    "0123456789"[d]
  }

  /** The value of a string of decimal digits, most significant first;
      leading zeros are allowed. This is the reading direction, independent
      of the writing direction `Decimal`. */
  function ValueOf(s: string): nat
    requires AllDigits(s)
  {
    if s == [] then 0 else 10 * ValueOf(s[..|s| - 1]) + DigitValue(s[|s| - 1])
  }

  /** `n.toString()` for a non-negative integer: shortest decimal digits. */
  function Decimal(n: nat): (r: string)
    ensures 1 <= |r|
    ensures AllDigits(r)
  {
    if n < 10 then [DigitChar(n)] else Decimal(n / 10) + [DigitChar(n % 10)]
  }

  /** Decimal is a faithful rendering: reading its digits back gives n. */
  lemma {:induction false} DecimalRoundTrip(n: nat)
    ensures ValueOf(Decimal(n)) == n
  {
    if n >= 10 {
      var r := Decimal(n);
      assert r[..|r| - 1] == Decimal(n / 10);
      DecimalRoundTrip(n / 10);
    }
  }

  /** Decimal writes no superfluous digits: one digit below 10, two below 100,
      at least three from 100 on, and a leading zero only for zero itself. */
  lemma {:induction false} DecimalLength(n: nat)
    ensures n < 10 <==> |Decimal(n)| == 1
    ensures 10 <= n < 100 <==> |Decimal(n)| == 2
    ensures 100 <= n <==> |Decimal(n)| >= 3
    ensures Decimal(n)[0] == '0' <==> n == 0
  {
    if n >= 10 {
      DecimalLength(n / 10);
    }
  }

  /** `s.padStart(width, fill)` with a one-character fill string. */
  function PadStart(s: string, width: nat, fill: char): (r: string)
    ensures |r| == if |s| >= width then |s| else width
    ensures r[|r| - |s|..] == s
    ensures forall i :: 0 <= i < |r| - |s| ==> r[i] == fill
  {
    if |s| >= width then s else seq(width - |s|, _ => fill) + s
  }

  /** `n.toString().padStart(2, '0')`, one component of the clock text. */
  function TwoDigits(n: nat): string {
    PadStart(Decimal(n), 2, '0')
  }

  /** Below 100 the padded component is exactly two digits and reads back
      as n; from 100 on the padding leaves the decimal text alone. */
  lemma TwoDigitsRoundTrip(n: nat)
    ensures n < 100 ==> |TwoDigits(n)| == 2 && AllDigits(TwoDigits(n)) && ValueOf(TwoDigits(n)) == n
    ensures n >= 100 ==> TwoDigits(n) == Decimal(n)
  {
    DecimalLength(n);
    DecimalRoundTrip(n);
    var t := TwoDigits(n);
    if n < 10 {
      assert t == ['0', DigitChar(n)];
      assert t[..1] == ['0'];
      assert ValueOf(t[..1]) == 10 * ValueOf([]) + 0;
    }
  }

  /** `parts.join(sep)` */
  function Join(parts: seq<string>, sep: string): (r: string)
    ensures |parts| == 1 ==> r == parts[0]
  {
    if |parts| == 0 then ""
    else if |parts| == 1 then parts[0]
    else parts[0] + sep + Join(parts[1..], sep)
  }

  /** The clock text `[h, m, s].map(padStart 2).join(':')` for the hour,
      minute and second components of a local time. */
  function ClockText(hours: nat, minutes: nat, seconds: nat): string {
    Join([TwoDigits(hours), TwoDigits(minutes), TwoDigits(seconds)], ":")
  }

  /** Reads an `HH:MM:SS` text back into its three components; None for any
      text not of that shape. */
  function ParseClock(t: string): Option<(nat, nat, nat)> {
    if |t| == 8 && t[2] == ':' && t[5] == ':' && AllDigits(t[0..2]) && AllDigits(t[3..5]) && AllDigits(t[6..8])
    then Some((ValueOf(t[0..2]), ValueOf(t[3..5]), ValueOf(t[6..8])))
    else None
  }

  /** For components below 100 (every hour, minute and second a clock
      shows) the clock text is eight characters, colons at 2 and 5, and
      parses back to the same components. */
  lemma ClockTextRoundTrip(hours: nat, minutes: nat, seconds: nat)
    requires hours < 100 && minutes < 100 && seconds < 100
    ensures |ClockText(hours, minutes, seconds)| == 8
    ensures ParseClock(ClockText(hours, minutes, seconds)) == Some((hours, minutes, seconds))
  {
    TwoDigitsRoundTrip(hours);
    TwoDigitsRoundTrip(minutes);
    TwoDigitsRoundTrip(seconds);
    var a, b, c := TwoDigits(hours), TwoDigits(minutes), TwoDigits(seconds);
    JoinThree(a, b, c, ":");
    ColonSlices(a, b, c);
  }

  /** Joining three parts puts the separator between neighbours only. */
  lemma JoinThree(a: string, b: string, c: string, sep: string)
    ensures Join([a, b, c], sep) == a + sep + b + sep + c
  {
    assert [a, b, c][1..] == [b, c];
    assert [b, c][1..] == [c];
  }

  /** The positions of the components inside `a:b:c` when each is two long. */
  lemma ColonSlices(a: string, b: string, c: string)
    requires |a| == 2 && |b| == 2 && |c| == 2
    ensures var t := a + ":" + b + ":" + c;
      |t| == 8 && t[2] == ':' && t[5] == ':' && t[0..2] == a && t[3..5] == b && t[6..8] == c
  {
  }

  /** `s.endsWith(suffix)` */
  predicate EndsWith(s: string, suffix: string) {
    |suffix| <= |s| && s[|s| - |suffix|..] == suffix
  }

  /** EndsWith holds exactly of the strings that are some prefix followed
      by the suffix. */
  lemma EndsWithDecomposition(s: string, suffix: string)
    ensures EndsWith(s, suffix) ==> s == s[..|s| - |suffix|] + suffix
    ensures forall p :: EndsWith(p + suffix, suffix)
  {
    forall p
      ensures EndsWith(p + suffix, suffix)
    {
      assert (p + suffix)[|p|..] == suffix;
    }
  }
}
