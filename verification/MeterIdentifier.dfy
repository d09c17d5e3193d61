/** The idempotency key of a usage push, as a string, and why two rows never share one. */
module MeterIdentifier {

  datatype Metric = Bandwidth | Requests

  function Name(m: Metric): string {
    match m
    case Bandwidth => "bandwidth_bytes"
    case Requests => "requests"
  }

  const NANOS := 1_000_000_000

  /** Whole seconds since the epoch of a time in nanoseconds. */
  function Unix(t: int): int {
    t / NANOS
  }

  function Digit(d: nat): char
    requires d < 10
  {
    "0123456789"[d]
  }

  function Digits(n: nat): string {
    if n < 10 then [Digit(n)] else Digits(n / 10) + [Digit(n % 10)]
  }

  /** The %d verb. */
  function Decimal(n: int): string {
    if n < 0 then "-" + Digits(-n) else Digits(n)
  }

  /**
    The text followed by the number. Spelled out recursively rather than as one concatenation, so that the verifier
    does not unfold the digits of every identifier it meets; SpellAppends is the concatenation.
   */
  function Spell(text: string, n: int): string {
    if text == "" then Decimal(n) else [text[0]] + Spell(text[1..], n)
  }

  lemma {:induction false} SpellAppends(text: string, n: int)
    ensures Spell(text, n) == text + Decimal(n)
  {
    if text != "" {
      SpellAppends(text[1..], n);
      assert text == [text[0]] + text[1..];
    }
  }

  /** meterIdentifier. */
  function Identifier(org: string, m: Metric, start: int): string {
    Spell("mu_" + org + "_" + Name(m) + "_", Unix(start))
  }

  predicate IsDigits(s: string) {
    s != "" && forall i :: 0 <= i < |s| ==> '0' <= s[i] <= '9'
  }

  lemma {:induction false} DigitsAreDigits(n: nat)
    ensures IsDigits(Digits(n))
  {
    if n >= 10 {
      DigitsAreDigits(n / 10);
    }
  }

  lemma {:induction false} DigitsInjective(a: nat, b: nat)
    requires Digits(a) == Digits(b)
    ensures a == b
  {
    var x, y := Digits(a), Digits(b);
    assert x[|x| - 1] == Digit(a % 10) && y[|y| - 1] == Digit(b % 10);
    if a >= 10 {
      DigitsAreDigits(a / 10);
    }
    if b >= 10 {
      DigitsAreDigits(b / 10);
    }
    if a >= 10 && b >= 10 {
      assert x[..|x| - 1] == Digits(a / 10) && y[..|y| - 1] == Digits(b / 10);
      DigitsInjective(a / 10, b / 10);
    }
  }

  lemma SignShows(n: int)
    ensures Decimal(n) != "" && (Decimal(n)[0] == '-' <==> n < 0)
  {
    DigitsAreDigits(if n < 0 then -n else n);
  }

  lemma DecimalInjective(a: int, b: int)
    requires Decimal(a) == Decimal(b)
    ensures a == b
  {
    SignShows(a);
    SignShows(b);
    if a < 0 && b < 0 {
      assert Decimal(a)[1..] == Digits(-a) && Decimal(b)[1..] == Digits(-b);
      DigitsInjective(-a, -b);
    } else if a >= 0 && b >= 0 {
      DigitsInjective(a, b);
    }
  }

  lemma DecimalHasNoUnderscore(n: int)
    ensures '_' !in Decimal(n)
  {
    DigitsAreDigits(if n < 0 then -n else n);
  }

  lemma LongerTailHasSeparator(a: string, d: string, a': string, d': string)
    requires a + "_" + d == a' + "_" + d' && |d| < |d'|
    ensures '_' in d'
  {
    assert (a + "_" + d)[|a|] == '_';
    assert (a' + "_" + d')[|a|] == d'[|a| - |a'| - 1];
  }

  /** What follows the last separator, and so also what precedes it, is determined by the whole. */
  lemma SplitAtLast(a: string, d: string, a': string, d': string)
    requires a + "_" + d == a' + "_" + d' && '_' !in d && '_' !in d'
    ensures a == a' && d == d'
  {
    if |d| < |d'| {
      LongerTailHasSeparator(a, d, a', d');
    } else if |d'| < |d| {
      LongerTailHasSeparator(a', d', a, d);
    } else {
      var s, s' := a + "_" + d, a' + "_" + d';
      assert s[..|a|] == a && s'[..|a'|] == a';
      assert s[|a| + 1..] == d && s'[|a'| + 1..] == d';
    }
  }

  lemma SamePrefix(p: string, x: string, y: string)
    requires p + x == p + y
    ensures x == y
  {
    assert (p + x)[|p|..] == x && (p + y)[|p|..] == y;
  }

  /** The two metric names differ in their last letters, so the metric can be read off the end. */
  lemma OrgAndMetric(org: string, m: Metric, org': string, m': Metric)
    requires org + "_" + Name(m) == org' + "_" + Name(m')
    ensures org == org' && m == m'
  {
    var s, s' := org + "_" + Name(m), org' + "_" + Name(m');
    assert s[|s| - 2] == Name(m)[|Name(m)| - 2] && s'[|s'| - 2] == Name(m')[|Name(m')| - 2];
    assert m == m';
    assert s[..|org|] == org && s'[..|org'|] == org';
  }

  /** Over the two metrics, the identifier determines the organisation, the metric and the second. */
  lemma IdentifierInjective(org: string, m: Metric, t: int, org': string, m': Metric, t': int)
    requires Identifier(org, m, t) == Identifier(org', m', t')
    ensures org == org' && m == m' && Unix(t) == Unix(t')
  {
    var d, d' := Decimal(Unix(t)), Decimal(Unix(t'));
    var a, a' := org + "_" + Name(m), org' + "_" + Name(m');
    Regroup(org, m, Unix(t));
    Regroup(org', m', Unix(t'));
    SamePrefix("mu_", a + "_" + d, a' + "_" + d');
    DecimalHasNoUnderscore(Unix(t));
    DecimalHasNoUnderscore(Unix(t'));
    SplitAtLast(a, d, a', d');
    OrgAndMetric(org, m, org', m');
    DecimalInjective(Unix(t), Unix(t'));
  }

  lemma Regroup(org: string, m: Metric, n: int)
    ensures Spell("mu_" + org + "_" + Name(m) + "_", n) == "mu_" + (org + "_" + Name(m) + "_" + Decimal(n))
  {
    SpellAppends("mu_" + org + "_" + Name(m) + "_", n);
  }

  /** The identifier's text: mu_, the organisation, the metric's name and the second, joined by underscores. */
  lemma IdentifierMeans(org: string, m: Metric, start: int)
    ensures var name := if m == Bandwidth then "bandwidth_bytes" else "requests";
      Identifier(org, m, start) == "mu_" + (org + "_" + name + "_" + Decimal(start / 1_000_000_000))
  {
    Regroup(org, m, Unix(start));
  }

  /** Decimal notation, the most significant digit first. */
  lemma DecimalMeans(n: int, d: nat)
    requires 0 <= n && d < 10
    ensures Decimal(d) == [('0' as int + d) as char]
    ensures n > 0 ==> Decimal(10 * n + d) == Decimal(n) + [('0' as int + d) as char]
    ensures n > 0 ==> Decimal(-n) == "-" + Decimal(n)
  {
  }
}
