/**
 * `compare`: the signed ordering of two datums used by the six comparison
 * operators (pkg/pivot/operator.go). The engine library's comparison is
 * tried first; when it fails, a fallback chain keyed on the two kinds
 * applies, and any pair it does not cover panics.
 */
module Comparison {
  import opened Wrappers
  import opened Values

  /** The conversions tried, in this order, on a string compared with a time value. */
  const DatetimeTargets: seq<FieldType> := [TypeTimestamp, TypeDate, TypeFloat]

  /** One step of the chain: convert string `s` to `target`, then compare time `t` with it. */
  function ConvertAndCompare(lib: Engine, t: Value, s: Value, target: FieldType): Option<int> {
    match lib.convertTo(s, target)
    case None => None
    case Some(i) => lib.compareDatum(t, i)
  }

  /** The steps of `targets` are tried in order and the first one that succeeds wins. */
  function FirstConversion(lib: Engine, t: Value, s: Value, targets: seq<FieldType>): (r: Option<int>)
    ensures r.None? <==>
      forall k :: 0 <= k < |targets| ==> ConvertAndCompare(lib, t, s, targets[k]).None?
    ensures r.Some? ==>
      exists k :: && 0 <= k < |targets|
                  && ConvertAndCompare(lib, t, s, targets[k]) == r
                  && forall j :: 0 <= j < k ==> ConvertAndCompare(lib, t, s, targets[j]).None?
    decreases |targets|
  {
    if targets == [] then None
    else
      match ConvertAndCompare(lib, t, s, targets[0])
      case Some(r) => Some(r)
      case None =>
        var rest := FirstConversion(lib, t, s, targets[1..]);
        assert forall k :: 1 <= k < |targets| ==> targets[k] == targets[1..][k - 1];
        rest
  }

  /** The kind pairs the fallback chain covers. */
  predicate HasFallback(a: Value, b: Value) {
    || (IsNumeric(a) && b.Str?)
    || (a.Time? && b.Str?)
    || (a.Str? && IsNumeric(b))
    || (a.Str? && b.Time?)
  }

  /** `compare(a, b)`: negative, zero or positive for a < b, a = b, a > b. */
  function Compare(lib: Engine, a: Value, b: Value): (r: Result<int, Failure>)
    ensures lib.compareDatum(a, b).Some? ==> r == Ok(lib.compareDatum(a, b).value)
    ensures r.Err? ==> r.error == CompareError(a, b)
    ensures lib.compareDatum(a, b).None? && !HasFallback(a, b) ==> r.Err?
    ensures a.Time? && b.Str? ==> r.Ok?
  {
    match lib.compareDatum(a, b)
    case Some(res) => Ok(res)
    case None =>
      if IsNumeric(a) && b.Str? then
        match lib.compareDatum(a, Zero)
        case Some(i) => Ok(i)
        case None => Err(CompareError(a, b))
      else if a.Time? && b.Str? then
        match FirstConversion(lib, a, b, DatetimeTargets)
        case Some(r) => Ok(r)
        // The source leaves this case open (a TODO says it should panic).
        case None => Ok(0)
      else if a.Str? && IsNumeric(b) then
        match lib.compareDatum(b, Zero)
        case Some(i) => Ok(-i)
        case None => Err(CompareError(a, b))
      else if a.Str? && b.Time? then
        match FirstConversion(lib, b, a, DatetimeTargets)
        case Some(r) => Ok(-r)
        case None => Err(CompareError(a, b))
      else
        Err(CompareError(a, b))
  }

  /**
   * Number against string, once the engine comparison has failed: the
   * number compared with integer 0, or a panic when that fails too.
   */
  lemma NumberStringFallback(lib: Engine, n: Value, s: Value)
    requires IsNumeric(n) && s.Str? && lib.compareDatum(n, s).None?
    ensures Compare(lib, n, s).Ok? <==> lib.compareDatum(n, Zero).Some?
    ensures Compare(lib, n, s).Ok? ==> Compare(lib, n, s).value == lib.compareDatum(n, Zero).value
    ensures Compare(lib, n, s).Err? ==> Compare(lib, n, s).error == CompareError(n, s)
  {
  }

  /**
   * String against number, once the engine comparison has failed: the
   * negation of the number compared with integer 0, or a panic when that fails.
   */
  lemma StringNumberFallback(lib: Engine, s: Value, n: Value)
    requires s.Str? && IsNumeric(n) && lib.compareDatum(s, n).None?
    ensures Compare(lib, s, n).Ok? <==> lib.compareDatum(n, Zero).Some?
    ensures Compare(lib, s, n).Ok? ==> Compare(lib, s, n).value == -lib.compareDatum(n, Zero).value
    ensures Compare(lib, s, n).Err? ==> Compare(lib, s, n).error == CompareError(s, n)
  {
  }

  /** When both orders take the fallback, swapping a number and a string negates the result. */
  lemma NumericStringSwap(lib: Engine, n: Value, s: Value)
    requires IsNumeric(n) && s.Str?
    requires lib.compareDatum(n, s).None? && lib.compareDatum(s, n).None?
    ensures Compare(lib, n, s).Ok? <==> Compare(lib, s, n).Ok?
    ensures Compare(lib, n, s).Ok? ==> Compare(lib, n, s).value == -Compare(lib, s, n).value
  {
  }

  /**
   * Time against string, once the engine comparison has failed: the first
   * conversion (Timestamp, Date, Float) that converts and compares wins.
   */
  lemma TimeStringFallback(lib: Engine, t: Value, s: Value, k: nat)
    requires t.Time? && s.Str? && lib.compareDatum(t, s).None?
    requires k < |DatetimeTargets| && ConvertAndCompare(lib, t, s, DatetimeTargets[k]).Some?
    requires forall j :: 0 <= j < k ==> ConvertAndCompare(lib, t, s, DatetimeTargets[j]).None?
    ensures Compare(lib, t, s) == Ok(ConvertAndCompare(lib, t, s, DatetimeTargets[k]).value)
  {
  }

  /**
   * String against time, once the engine comparison has failed: the
   * negation of the first conversion that converts and compares.
   */
  lemma StringTimeFallback(lib: Engine, s: Value, t: Value, k: nat)
    requires s.Str? && t.Time? && lib.compareDatum(s, t).None?
    requires k < |DatetimeTargets| && ConvertAndCompare(lib, t, s, DatetimeTargets[k]).Some?
    requires forall j :: 0 <= j < k ==> ConvertAndCompare(lib, t, s, DatetimeTargets[j]).None?
    ensures Compare(lib, s, t) == Ok(-ConvertAndCompare(lib, t, s, DatetimeTargets[k]).value)
  {
  }

  /** Time against string with every conversion failing reports "equal". */
  lemma TimeStringExhausted(lib: Engine, t: Value, s: Value)
    requires t.Time? && s.Str? && lib.compareDatum(t, s).None?
    requires forall k :: 0 <= k < |DatetimeTargets| ==> ConvertAndCompare(lib, t, s, DatetimeTargets[k]).None?
    ensures Compare(lib, t, s) == Ok(0)
  {
  }

  /** String against time with every conversion failing panics. */
  lemma StringTimeExhausted(lib: Engine, s: Value, t: Value)
    requires s.Str? && t.Time? && lib.compareDatum(s, t).None?
    requires forall k :: 0 <= k < |DatetimeTargets| ==> ConvertAndCompare(lib, t, s, DatetimeTargets[k]).None?
    ensures Compare(lib, s, t) == Err(CompareError(s, t))
  {
  }

  /**
   * When both orders take the fallback and every conversion fails, the two
   * directions disagree: time against string is "equal", string against time panics.
   */
  lemma TimeStringAsymmetry(lib: Engine, t: Value, s: Value)
    requires t.Time? && s.Str?
    requires lib.compareDatum(t, s).None? && lib.compareDatum(s, t).None?
    requires forall k :: 0 <= k < |DatetimeTargets| ==> ConvertAndCompare(lib, t, s, DatetimeTargets[k]).None?
    ensures Compare(lib, t, s).Ok? && !Compare(lib, s, t).Ok?
  {
  }
}
