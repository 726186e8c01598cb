/** String helpers used by gcp.go: `strings.HasSuffix` and the `%d` verb of
    `fmt.Sprintf` applied to a non-negative index. Strings are `seq<char>`. */
module Text {

  /** `strings.HasSuffix(s, suffix)`. */
  predicate HasSuffix(s: string, suffix: string)
  {
    |suffix| <= |s| && s[|s| - |suffix|..] == suffix
  }

  lemma SuffixOfItself(s: string)
    ensures HasSuffix(s, s)
  {
    assert s[0..] == s;
  }

  /** A longer-or-equal string ending in `suffix` keeps ending in it after a prefix is added. */
  lemma {:induction false} SuffixSurvivesPrefix(p: string, s: string, suffix: string)
    requires HasSuffix(s, suffix)
    ensures HasSuffix(p + s, suffix)
  {
    var t := p + s;
    assert t[|t| - |suffix|..] == s[|s| - |suffix|..];
  }

  function DigitChar(d: nat): (c: char)
    requires d < 10
    ensures '0' <= c <= '9'
  {
    ('0' as int + d) as char
  }

  /** The decimal text of `n`, as `fmt.Sprintf("%d", n)` writes it. */
  function DecimalString(n: nat): (s: string)
    decreases n
  {
    if n < 10 then [DigitChar(n)] else DecimalString(n / 10) + [DigitChar(n % 10)]
  }

  /** Reads decimal text back; the inverse of `DecimalString`. */
  function ParseDecimal(s: string): int
  {
    if s == [] then 0 else ParseDecimal(s[..|s| - 1]) * 10 + (s[|s| - 1] as int - '0' as int)
  }

  lemma {:induction false} DecimalRoundTrip(n: nat)
    ensures ParseDecimal(DecimalString(n)) == n
    decreases n
  {
    var s := DecimalString(n);
    if n < 10 {
      assert s[..|s| - 1] == [];
    } else {
      DecimalRoundTrip(n / 10);
      assert s[..|s| - 1] == DecimalString(n / 10);
    }
  }

  /** Different indices never print the same text. */
  lemma DecimalInjective(i: nat, j: nat)
    requires DecimalString(i) == DecimalString(j)
    ensures i == j
  {
    DecimalRoundTrip(i);
    DecimalRoundTrip(j);
  }
}
