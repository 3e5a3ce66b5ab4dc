/**
 * Runtime values of the pivot evaluator (the engine's tagged datum) and the
 * engine library calls the operator layer relies on.
 */
module Values {
  import opened Wrappers

  const MinInt64: int := -0x8000_0000_0000_0000
  const MaxInt64: int := 0x7fff_ffff_ffff_ffff
  const MaxUint64: int := 0xffff_ffff_ffff_ffff

  type I64 = x: int | MinInt64 <= x <= MaxInt64
  type U64 = x: int | 0 <= x <= MaxUint64

  /**
   * One datum, tagged by its kind. Floats carry their value as a real
   * (no NaN, infinities or float32 rounding); a decimal carries its
   * unscaled digits and its scale; a time value carries the engine's packed
   * representation; `Other` stands for every remaining kind (bytes,
   * durations, enums, sets, bits, JSON, ...), identified by its kind code.
   */
  datatype Value =
    | Null
    | Int64(i: I64)
    | Uint64(u: U64)
    | Float32(f32: real)
    | Float64(f64: real)
    | Str(s: string)
    | Decimal(unscaled: int, scale: nat)
    | Time(packed: int)
    | Other(kind: nat)

  /** The four kinds the comparison fallback treats as numeric. */
  predicate IsNumeric(v: Value) {
    v.Float32? || v.Float64? || v.Int64? || v.Uint64?
  }

  /** The integer zero the comparison fallback compares numbers against. */
  const Zero: Value := Int64(0)

  /**
   * The datum the engine builds from a Go bool: the integer 1 or 0.
   */
  function BoolValue(b: bool): (v: Value)
    ensures v.Int64? && (v.i == 1 || v.i == 0)
    ensures b <==> v.i != 0
  {
    Int64(if b then 1 else 0)
  }

  /** The field types a string is converted to before it meets a time value. */
  datatype FieldType = TypeTimestamp | TypeDate | TypeFloat

  /**
   * The engine library as the operator layer sees it: `compareDatum(a, b)`
   * is `a.CompareDatum(b)` (None when it returns an error) and
   * `convertTo(v, t)` is `v.ConvertTo(NewFieldType(t))` (None on error).
   * Their behaviour is not modelled: every property below holds for any
   * engine.
   */
  datatype Engine = Engine(
    compareDatum: (Value, Value) -> Option<int>,
    convertTo: (Value, FieldType) -> Option<Value>)

  /** Why an evaluation panics. */
  datatype Failure =
    | UnreachableKind(v: Value)
    | CompareError(a: Value, b: Value)
}
