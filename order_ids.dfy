/**
 * Client order ids: the per-session counter, the trading pair and the
 * millisecond timestamp written out in decimal, followed by a random suffix
 * over a fixed alphabet that pads the id to 32 characters.
 */
module OrderIds {

  /** The length every generated id is padded to. */
  const MaxIdLength: nat := 32

  /** English lower-case letters, upper-case letters, digits, then "_-.|". */
  const IdAlphabet: string :=
    "abcdefghijklmnopqrstuvwxyzABCDEFGHIJKLMNOPQRSTUVWXYZ0123456789_-.|"

  predicate OverAlphabet(s: string) {
    forall i :: 0 <= i < |s| ==> s[i] in IdAlphabet
  }

  predicate IsDigit(c: char) {
    '0' <= c <= '9'
  }

  predicate AllDigits(s: string) {
    forall i :: 0 <= i < |s| ==> IsDigit(s[i])
  }

  function DigitChar(d: nat): (c: char)
    requires d < 10
    ensures IsDigit(c) && (c as int) - ('0' as int) == d
  {
    (('0' as int) + d) as char
  }

  /** A non-negative integer as a JavaScript template literal renders it. */
  function DecimalString(n: nat): (s: string)
    ensures |s| >= 1
    ensures AllDigits(s)
    ensures n > 0 ==> s[0] != '0'
  {
    if n < 10 then [DigitChar(n)]
    else DecimalString(n / 10) + [DigitChar(n % 10)]
  }

  /** The value of a string of decimal digits. */
  function ParseDecimal(s: string): nat
    requires AllDigits(s)
  {
    if s == [] then 0
    else ParseDecimal(s[..|s| - 1]) * 10 + ((s[|s| - 1] as int) - ('0' as int))
  }

  /** Reading back the decimal rendering of a number yields the number. */
  lemma {:induction false} ParseDecimalString(n: nat)
    ensures ParseDecimal(DecimalString(n)) == n
  {
    var s := DecimalString(n);
    if n >= 10 {
      var init := DecimalString(n / 10);
      assert s[..|s| - 1] == init;
      ParseDecimalString(n / 10);
    }
  }

  /** Distinct numbers have distinct decimal renderings. */
  lemma DecimalStringInjective(a: nat, b: nat)
    requires DecimalString(a) == DecimalString(b)
    ensures a == b
  {
    ParseDecimalString(a);
    ParseDecimalString(b);
  }

  /** The deterministic part of an id: counter, pair and timestamp. */
  function IdPrefix(counter: nat, pair: string, timestamp: nat): (r: string)
    ensures var n, k := |DecimalString(counter)|, |pair|;
      && |r| == n + k + |DecimalString(timestamp)|
      && AllDigits(r[..n]) && ParseDecimal(r[..n]) == counter
      && r[n..n + k] == pair
      && AllDigits(r[n + k..]) && ParseDecimal(r[n + k..]) == timestamp
  {
    var c, t := DecimalString(counter), DecimalString(timestamp);
    ParseDecimalString(counter);
    ParseDecimalString(timestamp);
    var r := c + pair + t;
    assert r[..|c|] == c && r[|c|..|c| + |pair|] == pair && r[|c| + |pair|..] == t;
    r
  }

  /**
   * The random part of an id: as many symbols of the random stream as are
   * needed to pad the prefix to 32 characters.
   */
  function Suffix(prefix: string, entropy: string): (s: string)
    requires |entropy| >= MaxIdLength
    ensures |prefix| <= MaxIdLength ==> |prefix + s| == MaxIdLength
    ensures OverAlphabet(entropy) ==> OverAlphabet(s)
  {
    if |prefix| <= MaxIdLength then entropy[..MaxIdLength - |prefix|] else []
  }

  /**
   * For one pair and one timestamp, distinct counter values give distinct
   * prefixes.
   */
  lemma PrefixInjective(a: nat, b: nat, pair: string, timestamp: nat)
    requires IdPrefix(a, pair, timestamp) == IdPrefix(b, pair, timestamp)
    ensures a == b
  {
    var da, db := DecimalString(a), DecimalString(b);
    var rest := pair + DecimalString(timestamp);
    assert IdPrefix(a, pair, timestamp) == da + rest;
    assert IdPrefix(b, pair, timestamp) == db + rest;
    assert |da| == |db|;
    assert da == (da + rest)[..|da|];
    assert db == (db + rest)[..|db|];
    DecimalStringInjective(a, b);
  }

  /**
   * Two ids for the same pair and timestamp whose counters differ but have the
   * same number of digits differ whatever random suffixes they get.
   */
  lemma DistinctCountersGiveDistinctIds(a: nat, b: nat, pair: string, timestamp: nat,
                                        suffixA: string, suffixB: string)
    requires a != b
    requires |DecimalString(a)| == |DecimalString(b)|
    ensures IdPrefix(a, pair, timestamp) + suffixA != IdPrefix(b, pair, timestamp) + suffixB
  {
    var pa, pb := IdPrefix(a, pair, timestamp), IdPrefix(b, pair, timestamp);
    var n := |DecimalString(a)|;
    assert (pa + suffixA)[..n] == pa[..n];
    assert (pb + suffixB)[..n] == pb[..n];
    assert ParseDecimal(pa[..n]) != ParseDecimal(pb[..n]);
  }
}
