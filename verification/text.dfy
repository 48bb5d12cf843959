/** The few pieces of `java.lang.String`, `Integer` and `Boolean` the core
    relies on: blankness, decimal rendering (`%d`), `Integer.parseInt` and
    `Boolean.parseBoolean`.
 */
module Text {
  import opened Results

  /** Java `int`. */
  const IntMin: int := -0x8000_0000
  const IntMax: int := 0x7FFF_FFFF
  newtype int32 = x: int | -0x8000_0000 <= x <= 0x7FFF_FFFF

  /** `Character.isWhitespace`: the ASCII controls tab to carriage return
      and U+001C to U+001F, and every space, line or paragraph separator
      of Unicode except the non-breaking ones (U+00A0, U+2007, U+202F). */
  predicate IsWhitespace(c: char) {
    || ('\t' <= c <= '\r')
    || ('\U{001C}' <= c <= ' ')
    || c == '\U{1680}'
    || ('\U{2000}' <= c <= '\U{2006}')
    || ('\U{2008}' <= c <= '\U{200A}')
    || c == '\U{2028}' || c == '\U{2029}'
    || c == '\U{205F}' || c == '\U{3000}'
  }

  /** `String.isBlank`: empty or whitespace only. */
  predicate IsBlank(s: string) {
    forall i | 0 <= i < |s| :: IsWhitespace(s[i])
  }

  /** `String.trim`: what it strips from both ends, every character up to
      and including the space. */
  predicate Trimmed(c: char) {
    c <= ' '
  }

  /** `s.trim().isEmpty()`. */
  predicate TrimsToEmpty(s: string) {
    forall i | 0 <= i < |s| :: Trimmed(s[i])
  }

  /** `s != null && !s.isBlank()`, the guard every page parameter passes. */
  predicate HasText(s: Option<string>) {
    s.Some? && !IsBlank(s.value)
  }

  predicate IsDigit(c: char) {
    '0' <= c <= '9'
  }

  predicate AllDigits(s: string) {
    forall i | 0 <= i < |s| :: IsDigit(s[i])
  }

  function DigitValue(c: char): (d: nat)
    requires IsDigit(c)
    ensures d < 10
  {
    c as int - '0' as int
  }

  function DigitChar(d: nat): (c: char)
    requires d < 10
    ensures IsDigit(c) && DigitValue(c) == d
  {
    ('0' as int + d) as char
  }

  /** The value of a run of decimal digits, most significant first. */
  function DigitsValue(s: string): nat
    requires AllDigits(s)
    decreases |s|
  {
    if s == [] then 0 else DigitsValue(s[..|s| - 1]) * 10 + DigitValue(s[|s| - 1])
  }

  /** The shortest decimal digits of `n`. */
  function NatDigits(n: nat): (s: string)
    ensures |s| >= 1 && AllDigits(s)
    ensures |s| > 1 ==> s[0] != '0'
  {
    if n < 10 then [DigitChar(n)] else NatDigits(n / 10) + [DigitChar(n % 10)]
  }

  /** `String.format("%s", s)` of a possibly null string. */
  function Shown(s: Option<string>): string {
    s.GetOr("null")
  }

  /** `String.format("%d", n)`. */
  function Show(n: int): string {
    if n < 0 then "-" + NatDigits(-n) else NatDigits(n)
  }

  /** An optional sign followed by at least one digit, read with unbounded
      precision; `None` on any other string. */
  function ParseDecimal(s: string): Option<int> {
    if |s| >= 2 && s[0] == '-' && AllDigits(s[1..]) then Some(0 - DigitsValue(s[1..]) as int)
    else if |s| >= 2 && s[0] == '+' && AllDigits(s[1..]) then Some(DigitsValue(s[1..]))
    else if |s| >= 1 && AllDigits(s) then Some(DigitsValue(s))
    else None
  }

  /** `Integer.parseInt(s)`: `None` where Java throws `NumberFormatException`. */
  function ParseInt(s: string): (r: Option<int32>)
    ensures r.Some? <==> ParseDecimal(s).Some? && IntMin <= ParseDecimal(s).value <= IntMax
    ensures r.Some? ==> r.value as int == ParseDecimal(s).value
  {
    match ParseDecimal(s)
    case Some(v) => if IntMin <= v <= IntMax then Some(v as int32) else None
    case None => None
  }

  /** `Character.toLowerCase` on the ASCII capitals; every other character
      is left as it is. */
  function LowerAscii(c: char): char {
    if 'A' <= c <= 'Z' then (c as int - 'A' as int + 'a' as int) as char else c
  }

  /** `Boolean.parseBoolean(s)`: `"true".equalsIgnoreCase(s)`. */
  predicate ParseBoolean(s: string) {
    |s| == 4
    && (s[0] == 't' || s[0] == 'T')
    && (s[1] == 'r' || s[1] == 'R')
    && (s[2] == 'u' || s[2] == 'U')
    && (s[3] == 'e' || s[3] == 'E')
  }

  lemma {:induction false} NatDigitsRoundTrip(n: nat)
    ensures DigitsValue(NatDigits(n)) == n
  {
    if n >= 10 {
      var s := NatDigits(n);
      assert s[..|s| - 1] == NatDigits(n / 10);
      NatDigitsRoundTrip(n / 10);
    }
  }

  /** Reading back a rendered number gives the number: the `%d` in a
      message can be recovered exactly. */
  lemma ShowRoundTrip(n: int)
    ensures ParseDecimal(Show(n)) == Some(n)
  {
    var d := NatDigits(if n < 0 then -n else n);
    NatDigitsRoundTrip(if n < 0 then -n else n);
    if n < 0 {
      assert Show(n)[1..] == d;
    } else {
      assert IsDigit(d[0]);
    }
  }

  /** `Integer.parseInt` accepts every `int` it could have printed. */
  lemma ParseIntShow(n: int32)
    ensures ParseInt(Show(n as int)) == Some(n)
  {
    ShowRoundTrip(n as int);
  }

  /** A string holding anything but digits after an optional leading sign
      is rejected, whatever its value would have been. */
  lemma ParseIntRejectsNonDigit(s: string, i: nat)
    requires i < |s| && !IsDigit(s[i])
    requires i > 0 || (s[0] != '-' && s[0] != '+')
    ensures ParseInt(s).None?
  {
    if i > 0 {
      assert s[1..][i - 1] == s[i];
    }
  }

  /** A decimal number outside the `int` range is rejected rather than
      wrapped. */
  lemma ParseIntRejectsOutOfRange(n: int)
    requires n < IntMin || n > IntMax
    ensures ParseInt(Show(n)).None?
  {
    ShowRoundTrip(n);
  }

  /** A number printed between two fixed pieces of text can be read back
      from between them. */
  lemma ShowEmbedded(prefix: string, n: int, suffix: string)
    ensures var m := prefix + Show(n) + suffix;
      ParseDecimal(m[|prefix| .. |m| - |suffix|]) == Some(n)
  {
    var m := prefix + Show(n) + suffix;
    assert m[|prefix| .. |m| - |suffix|] == Show(n);
    ShowRoundTrip(n);
  }
}
