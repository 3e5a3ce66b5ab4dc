/**
 * Truthiness: how the pivot evaluator reads a datum as a two-valued boolean
 * (`ConvertToBool`, pkg/pivot/operator.go).
 */
module Truthiness {
  import opened Wrappers
  import opened Values

  predicate IsNonzeroDigit(c: char) {
    '1' <= c <= '9'
  }

  // ---------------------------------------------------------------------
  // The pattern `^\-{0,1}[1-9]+|^\-{0,1}0+[1-9]` as written, as a language.
  // ---------------------------------------------------------------------

  /** `[1-9]+` */
  ghost predicate NonzeroDigits(w: string) {
    |w| >= 1 && forall i :: 0 <= i < |w| ==> IsNonzeroDigit(w[i])
  }

  /** `0+[1-9]` */
  ghost predicate ZerosThenDigit(w: string) {
    && |w| >= 2
    && (forall i :: 0 <= i < |w| - 1 ==> w[i] == '0')
    && IsNonzeroDigit(w[|w| - 1])
  }

  /** `\-{0,1}[1-9]+` */
  ghost predicate FirstAlternative(w: string) {
    NonzeroDigits(w) || (|w| >= 1 && w[0] == '-' && NonzeroDigits(w[1..]))
  }

  /** `\-{0,1}0+[1-9]` */
  ghost predicate SecondAlternative(w: string) {
    ZerosThenDigit(w) || (|w| >= 1 && w[0] == '-' && ZerosThenDigit(w[1..]))
  }

  ghost predicate InPattern(w: string) {
    FirstAlternative(w) || SecondAlternative(w)
  }

  /**
   * Both alternatives are anchored with `^` and nothing anchors their end,
   * so the pattern matches `s` exactly when some prefix of `s` is a word of
   * its language.
   */
  ghost predicate PatternMatches(s: string) {
    exists p :: 0 <= p <= |s| && InPattern(s[..p])
  }

  // ---------------------------------------------------------------------
  // The computable form `^-?0*[1-9]`.
  // ---------------------------------------------------------------------

  /** `0*[1-9]` at the start of `t` */
  predicate ZerosThenNonzero(t: string): (r: bool)
    ensures r ==> |t| > 0 && '0' <= t[0] <= '9'
    ensures |t| > 0 && IsNonzeroDigit(t[0]) ==> r
    decreases |t|
  {
    |t| > 0 && (if t[0] == '0' then ZerosThenNonzero(t[1..]) else IsNonzeroDigit(t[0]))
  }

  /** `-?0*[1-9]` at the start of `s` */
  predicate LeadingNonzero(s: string): (r: bool)
    ensures r ==> |s| > 0 && (s[0] == '-' || '0' <= s[0] <= '9')
    ensures |s| > 0 && IsNonzeroDigit(s[0]) ==> r
    ensures r && s[0] == '-' ==> |s| > 1 && '0' <= s[1] <= '9'
  {
    if |s| > 0 && s[0] == '-' then ZerosThenNonzero(s[1..]) else ZerosThenNonzero(s)
  }

  ghost predicate ZerosBefore(t: string, k: int)
    requires 0 <= k <= |t|
  {
    forall j :: 0 <= j < k ==> t[j] == '0'
  }

  /** `ZerosThenNonzero(t)` holds exactly when some nonzero digit of `t` has only zeros before it. */
  lemma {:induction false} ZerosThenNonzeroIndex(t: string)
    ensures ZerosThenNonzero(t) <==>
      exists k :: 0 <= k < |t| && IsNonzeroDigit(t[k]) && ZerosBefore(t, k)
    decreases |t|
  {
    if |t| > 0 && t[0] == '0' {
      ZerosThenNonzeroIndex(t[1..]);
      if ZerosThenNonzero(t) {
        var k :| 0 <= k < |t| - 1 && IsNonzeroDigit(t[1..][k]) && ZerosBefore(t[1..], k);
        assert IsNonzeroDigit(t[k + 1]) && ZerosBefore(t, k + 1);
      }
      if exists k :: 0 <= k < |t| && IsNonzeroDigit(t[k]) && ZerosBefore(t, k) {
        var k :| 0 <= k < |t| && IsNonzeroDigit(t[k]) && ZerosBefore(t, k);
        assert k >= 1;
        assert IsNonzeroDigit(t[1..][k - 1]) && ZerosBefore(t[1..], k - 1);
      }
    } else if |t| > 0 {
      if ZerosThenNonzero(t) {
        assert IsNonzeroDigit(t[0]) && ZerosBefore(t, 0);
      }
      if exists k :: 0 <= k < |t| && IsNonzeroDigit(t[k]) && ZerosBefore(t, k) {
        var k :| 0 <= k < |t| && IsNonzeroDigit(t[k]) && ZerosBefore(t, k);
        assert k == 0;
      }
    }
  }

  /** A word of `0*[1-9]` exists as a prefix of `t` exactly when the scanner accepts `t`. */
  lemma UnsignedPrefix(t: string)
    ensures ZerosThenNonzero(t) <==>
      exists p :: 1 <= p <= |t| && (NonzeroDigits(t[..p]) || ZerosThenDigit(t[..p]))
  {
    ZerosThenNonzeroIndex(t);
    if ZerosThenNonzero(t) {
      var k :| 0 <= k < |t| && IsNonzeroDigit(t[k]) && ZerosBefore(t, k);
      if k == 0 {
        assert NonzeroDigits(t[..1]);
      } else {
        assert ZerosThenDigit(t[..k + 1]);
      }
    }
    if exists p :: 1 <= p <= |t| && (NonzeroDigits(t[..p]) || ZerosThenDigit(t[..p])) {
      var p :| 1 <= p <= |t| && (NonzeroDigits(t[..p]) || ZerosThenDigit(t[..p]));
      if NonzeroDigits(t[..p]) {
        assert IsNonzeroDigit(t[..p][0]);
        assert IsNonzeroDigit(t[0]) && ZerosBefore(t, 0);
      } else {
        assert IsNonzeroDigit(t[..p][p - 1]);
        assert forall j :: 0 <= j < p - 1 ==> t[..p][j] == '0';
        assert IsNonzeroDigit(t[p - 1]) && ZerosBefore(t, p - 1);
      }
    }
  }

  /**
   * The two alternatives of the pattern as written together mean `^-?0*[1-9]`:
   * an optional minus, any number of zeros, then a nonzero digit, whatever follows.
   */
  lemma StringTruthIsPattern(s: string)
    ensures LeadingNonzero(s) <==> PatternMatches(s)
  {
    if |s| > 0 && s[0] == '-' {
      var t := s[1..];
      UnsignedPrefix(t);
      if LeadingNonzero(s) {
        var p :| 1 <= p <= |t| && (NonzeroDigits(t[..p]) || ZerosThenDigit(t[..p]));
        assert s[..p + 1][1..] == t[..p];
        assert InPattern(s[..p + 1]);
      }
      if PatternMatches(s) {
        var p :| 0 <= p <= |s| && InPattern(s[..p]);
        var w := s[..p];
        assert w[0] == '-';
        assert !NonzeroDigits(w) && !ZerosThenDigit(w);
        assert w[1..] == t[..p - 1];
      }
    } else {
      UnsignedPrefix(s);
      if LeadingNonzero(s) {
        var p :| 1 <= p <= |s| && (NonzeroDigits(s[..p]) || ZerosThenDigit(s[..p]));
        assert InPattern(s[..p]);
      }
      if PatternMatches(s) {
        var p :| 0 <= p <= |s| && InPattern(s[..p]);
        var w := s[..p];
        assert |w| >= 1 && w[0] == s[0];
        assert NonzeroDigits(w) || ZerosThenDigit(w);
      }
    }
  }

  function Abs(x: real): (a: real)
    ensures a >= 0.0 && (a == x || a == -x)
  {
    if x < 0.0 then -x else x
  }

  /**
   * `ConvertToBool`: the truthiness of a datum. A string is true when the
   * leading-number pattern matches it; a kind without a rule is the
   * unreachable-kind panic.
   */
  function ConvertToBool(v: Value): (r: Result<bool, Failure>)
    ensures r.Err? <==> v.Time? || v.Other?
    ensures r.Err? ==> r.error == UnreachableKind(v)
    ensures v.Str? ==> (r == Ok(true) <==> PatternMatches(v.s)) && (r == Ok(false) <==> !PatternMatches(v.s))
  {
    match v
    case Null => Ok(false)
    case Int64(i) => Ok(i != 0)
    case Uint64(u) => Ok(u != 0)
    case Float32(x) => Ok(Abs(x) >= 1.0)
    case Float64(x) => Ok(Abs(x) >= 1.0)
    case Str(s) => StringTruthIsPattern(s); Ok(LeadingNonzero(s))
    case Decimal(d, _) => Ok(d != 0)
    case _ => Err(UnreachableKind(v))
  }

  /** The truthiness rule of each kind that has one. */
  lemma TruthinessByKind(v: Value)
    ensures v.Null? ==> ConvertToBool(v) == Ok(false)
    ensures v.Int64? ==> ConvertToBool(v) == Ok(v.i != 0)
    ensures v.Uint64? ==> ConvertToBool(v) == Ok(v.u != 0)
    ensures v.Float32? ==> ConvertToBool(v) == Ok(v.f32 >= 1.0 || v.f32 <= -1.0)
    ensures v.Float64? ==> ConvertToBool(v) == Ok(v.f64 >= 1.0 || v.f64 <= -1.0)
    ensures v.Decimal? ==> ConvertToBool(v) == Ok(v.unscaled != 0)
  {
  }

  /** The datum built from a bool reads back as that bool. */
  lemma BoolValueRoundTrip(b: bool)
    ensures ConvertToBool(BoolValue(b)) == Ok(b)
  {
  }

  /** Sample strings: which leading-number prefixes are true. */
  lemma StringTruthExamples()
    ensures ConvertToBool(Str("1")) == Ok(true)
    ensures ConvertToBool(Str("-1")) == Ok(true)
    ensures ConvertToBool(Str("007")) == Ok(true)
    ensures ConvertToBool(Str("1a")) == Ok(true)
    ensures ConvertToBool(Str("0")) == Ok(false)
    ensures ConvertToBool(Str("-0")) == Ok(false)
    ensures ConvertToBool(Str("0.5")) == Ok(false)
    ensures ConvertToBool(Str("a")) == Ok(false)
    ensures ConvertToBool(Str("")) == Ok(false)
    ensures ConvertToBool(Str("--1")) == Ok(false)
  {
    assert "007"[1..] == "07" && "07"[1..] == "7";
    assert "-0"[1..] == "0" && "0"[1..] == "";
    assert "0.5"[1..] == ".5";
    assert "--1"[1..] == "-1";
  }

  /** The absolute-value threshold for floats, on both sides of zero. */
  lemma FloatTruthExamples()
    ensures ConvertToBool(Float64(0.9)) == Ok(false)
    ensures ConvertToBool(Float64(1.0)) == Ok(true)
    ensures ConvertToBool(Float64(-1.5)) == Ok(true)
    ensures ConvertToBool(Float32(-0.5)) == Ok(false)
  {
  }
}
