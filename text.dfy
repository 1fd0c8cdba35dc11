/** The pieces of Rust's string and integer library that the proxy's parsing
    relies on: `str::parse::<u64>`, the decimal `Display` of integers,
    `str::split` with a `char` separator and `str::trim_start_matches`. */
module Text {
  import opened Wrappers

  const U64_LIMIT: int := 0x1_0000_0000_0000_0000

  /** Values of Rust's `u64`. */
  type U64 = x: int | 0 <= x < U64_LIMIT

  predicate IsDigit(c: char) {
    '0' <= c <= '9'
  }

  predicate AllDigits(s: string) {
    forall i :: 0 <= i < |s| ==> IsDigit(s[i])
  }

  function DigitValue(c: char): nat
    requires IsDigit(c)
  {
    (c as int) - ('0' as int)
  }

  function DigitChar(d: nat): (c: char)
    requires d < 10
    ensures IsDigit(c) && DigitValue(c) == d
  {
    ('0' as int + d) as char
  }

  /** The number a run of decimal digits denotes, read most significant first. */
  function DigitsValue(s: string): nat
    requires AllDigits(s)
    decreases |s|
  {
    if s == [] then 0 else DigitsValue(s[..|s| - 1]) * 10 + DigitValue(s[|s| - 1])
  }

  /** `s.parse::<u64>()`: an optional `+`, then one or more decimal digits whose
      value fits in 64 bits. Rust accumulates with checked arithmetic; since every
      prefix denotes at most the value of the whole, an intermediate overflow
      happens exactly when the final value is 2^64 or more. */
  function ParseU64(s: string): Option<U64> {
    var digits := if |s| > 0 && s[0] == '+' then s[1..] else s;
    if |digits| == 0 || !AllDigits(digits) then None
    else
      var v := DigitsValue(digits);
      if v < U64_LIMIT then Some(v) else None
  }

  /** `format!("{}", n)`: decimal digits without leading zeros. */
  function Dec(n: nat): (s: string)
    ensures |s| > 0 && AllDigits(s)
    decreases n
  {
    if n < 10 then [DigitChar(n)] else Dec(n / 10) + [DigitChar(n % 10)]
  }

  lemma {:induction false} DecValue(n: nat)
    ensures DigitsValue(Dec(n)) == n
    decreases n
  {
    if n >= 10 {
      var s := Dec(n);
      assert s[..|s| - 1] == Dec(n / 10);
      DecValue(n / 10);
    }
  }

  /** Formatting a `u64` and parsing it back gives the same number. */
  lemma ParseDec(n: U64)
    ensures ParseU64(Dec(n)) == Some(n)
  {
    DecValue(n);
  }

  /** The decimal text of a number of 2^64 or more does not parse as a `u64`. */
  lemma ParseDecOverflow(n: nat)
    requires n >= U64_LIMIT
    ensures ParseU64(Dec(n)) == None
  {
    DecValue(n);
  }

  /** Index of the first occurrence of `c` in `s`. */
  function IndexOf(s: string, c: char): (i: nat)
    requires c in s
    ensures i < |s| && s[i] == c && c !in s[..i]
  {
    if s[0] == c then 0 else 1 + IndexOf(s[1..], c)
  }

  /** `s.split(sep)`, collected: the fields between separators, in order.
      There is always at least one field. */
  function Split(s: string, sep: char): (fields: seq<string>)
    ensures |fields| > 0
    ensures forall i :: 0 <= i < |fields| ==> sep !in fields[i]
    decreases |s|
  {
    if sep !in s then [s]
    else
      var i := IndexOf(s, sep);
      [s[..i]] + Split(s[i + 1..], sep)
  }

  /** The first field ends at the first separator. */
  lemma SplitAfterField(a: string, sep: char, b: string)
    requires sep !in a
    ensures Split(a + [sep] + b, sep) == [a] + Split(b, sep)
  {
    var s := a + [sep] + b;
    var i := IndexOf(s, sep);
    assert s[|a|] == sep;
    assert s[..i] == a && s[i + 1..] == b;
  }

  /** `str::split(...).last()` */
  function Last(fields: seq<string>): string
    requires |fields| > 0
  {
    fields[|fields| - 1]
  }

  /** `s.trim_start_matches(pat)`: removes `pat` from the front as long as it is
      there (an empty pattern removes nothing). */
  function TrimStartMatches(s: string, pat: string): (r: string)
    ensures |r| <= |s| && r == s[|s| - |r|..]
    ensures |pat| > 0 ==> !(pat <= r)
    decreases |s|
  {
    if |pat| > 0 && pat <= s then TrimStartMatches(s[|pat|..], pat) else s
  }

  lemma TrimStartMatchesOnce(pat: string, s: string)
    requires |pat| > 0
    ensures TrimStartMatches(pat + s, pat) == TrimStartMatches(s, pat)
  {
    assert pat <= pat + s;
    assert (pat + s)[|pat|..] == s;
  }
}
