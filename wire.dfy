/**
 * The text conventions the command handlers rely on: ASCII case folding of
 * fragments and Rust's `str::parse` for `i64` and `usize`.  The decimal
 * formatters are the inverse partners of the parsers.
 */
module Wire {
  import opened Wrappers

  const I64Min: int := -0x8000_0000_0000_0000
  const I64Max: int := 0x7FFF_FFFF_FFFF_FFFF
  /** `usize::MAX` on a 64-bit target. */
  const UsizeMax: int := 0xFFFF_FFFF_FFFF_FFFF

  function UpperChar(c: char): (u: char)
    ensures !('a' <= c <= 'z') ==> u == c
  {
    if 'a' <= c <= 'z' then (c as int - 32) as char else c
  }

  /** Upper-cases the ASCII letters of `s` and leaves every other character alone. */
  function Upper(s: string): (u: string)
    ensures |u| == |s|
  {
    seq(|s|, i requires 0 <= i < |s| => UpperChar(s[i]))
  }

  /** A two-letter flag matches whatever the case of each of its letters. */
  lemma FlagIgnoresCase(s: string, flag: string)
    requires |flag| == 2 && 'A' <= flag[0] <= 'Z' && 'A' <= flag[1] <= 'Z'
    ensures Upper(s) == flag <==>
      |s| == 2 && (s[0] == flag[0] || s[0] as int == flag[0] as int + 32)
               && (s[1] == flag[1] || s[1] as int == flag[1] as int + 32)
  {
    if Upper(s) == flag {
      assert UpperChar(s[0]) == flag[0] && UpperChar(s[1]) == flag[1];
    }
    if |s| == 2 && (s[0] == flag[0] || s[0] as int == flag[0] as int + 32)
                && (s[1] == flag[1] || s[1] as int == flag[1] as int + 32) {
      assert Upper(s)[0] == flag[0] && Upper(s)[1] == flag[1];
    }
  }

  predicate IsDigit(c: char) {
    '0' <= c <= '9'
  }

  predicate AllDigits(s: string) {
    forall i :: 0 <= i < |s| ==> IsDigit(s[i])
  }

  /** The value of a string of decimal digits, most significant first. */
  function DigitsValue(s: string): (v: nat)
    requires AllDigits(s)
  {
    if |s| == 0 then 0
    else DigitsValue(s[..|s| - 1]) * 10 + (s[|s| - 1] as int - '0' as int)
  }

  /** `s.parse::<usize>()`: an optional `+`, then at least one digit, at most `usize::MAX`. */
  function ParseUsize(s: string): (r: Option<nat>)
    ensures r.Some? ==> r.value <= UsizeMax
    ensures r.Some? ==> |s| > 0 && (IsDigit(s[0]) || s[0] == '+')
  {
    var digits := if |s| > 0 && s[0] == '+' then s[1..] else s;
    if |digits| == 0 || !AllDigits(digits) || DigitsValue(digits) > UsizeMax then None
    else Some(DigitsValue(digits))
  }

  /** `s.parse::<i64>()`: an optional `+` or `-`, then at least one digit, within the `i64` range. */
  function ParseI64(s: string): (r: Option<int>)
    ensures r.Some? ==> I64Min <= r.value <= I64Max
  {
    var negative := |s| > 0 && s[0] == '-';
    var digits := if |s| > 0 && (s[0] == '-' || s[0] == '+') then s[1..] else s;
    if |digits| == 0 || !AllDigits(digits) then None
    else
      var v: int := if negative then 0 - DigitsValue(digits) as int else DigitsValue(digits);
      if I64Min <= v <= I64Max then Some(v) else None
  }

  function DigitChar(d: nat): (c: char)
    requires d < 10
    ensures IsDigit(c)
  {
    ('0' as int + d) as char
  }

  /** Decimal text of `n`, without leading zeros. */
  function NatToText(n: nat): (s: string)
    ensures |s| >= 1 && AllDigits(s)
  {
    if n < 10 then [DigitChar(n)] else NatToText(n / 10) + [DigitChar(n % 10)]
  }

  /** Decimal text of `n`, with a leading `-` when it is negative. */
  function IntToText(n: int): (s: string)
    ensures n < 0 ==> |s| >= 2 && s[0] == '-' && AllDigits(s[1..])
    ensures n >= 0 ==> AllDigits(s)
  {
    if n < 0 then "-" + NatToText(-n) else NatToText(n)
  }

  lemma {:induction false} DigitsRoundTrip(n: nat)
    ensures DigitsValue(NatToText(n)) == n
  {
    if n >= 10 {
      var s := NatToText(n);
      assert s[..|s| - 1] == NatToText(n / 10);
      DigitsRoundTrip(n / 10);
    }
  }

  /** Parsing the decimal text of any `usize` gives the number back. */
  lemma UsizeRoundTrip(n: nat)
    requires n <= UsizeMax
    ensures ParseUsize(NatToText(n)) == Some(n)
  {
    DigitsRoundTrip(n);
  }

  /** Parsing the decimal text of any `i64` gives the number back. */
  lemma I64RoundTrip(n: int)
    requires I64Min <= n <= I64Max
    ensures ParseI64(IntToText(n)) == Some(n)
  {
    if n < 0 {
      DigitsRoundTrip(-n);
      assert IntToText(n)[1..] == NatToText(-n);
    } else {
      DigitsRoundTrip(n);
    }
  }
}
