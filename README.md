# Pivot oracle operator layer, in Dafny

This project models the ternary-logic operator layer of the wreck-it pivot
oracle (`pkg/pivot/operator.go`). The pivot oracle picks a row it knows is in
a table and builds a WHERE predicate that should select that row. It then
evaluates the predicate against the row's values by itself and compares the
answer with the database's. The operator layer is the part of that evaluator
that applies one SQL operator to two runtime values.

- `Values` (`value.dfy`): the tagged runtime datum. It covers NULL, Int64,
  Uint64, Float32, Float64, String, Decimal and Time, plus `Other` for every
  remaining kind. It also holds the engine-library interface `Engine` and
  the panic reasons `Failure`.
- `Truthiness` (`truthiness.dfy`): `ConvertToBool` and the string pattern
  `^\-{0,1}[1-9]+|^\-{0,1}0+[1-9]`. The pattern is defined twice: once as a
  language with its two alternatives as written, and once as a scanner for
  `^-?0*[1-9]`. A lemma proves the two agree.
- `Comparison` (`compare.dfy`): `compare`. The engine comparison is tried
  first. If it fails, a fallback chain keyed on the two kinds applies. The
  ordered Timestamp, Date, Float conversion chain is its own function.
- `Operators` (`operators.dfy`): the eval closures of XOR, AND, OR, GT, LT,
  NE, EQ, GE and LE, with their NULL propagation and algebraic properties.
- `Registry` (`registry.dfy`): the nine `Function` descriptors and `init`,
  which attaches the accepted-type maps in two loops.
- `Wrappers` (`wrappers.dfy`): `Option`, and `Result` with an `Err` case
  that stands for a Go panic.

Modelling decisions:

- The engine library's `CompareDatum` and `ConvertTo` are the two function
  fields of an `Engine` value. Every member that calls the engine library
  takes that value as a parameter, so each property holds for any engine
  behaviour. A call that
  returns an error is `None`.
- Each Go panic is an `Err` result: `UnreachableKind` from `ConvertToBool`
  and `CompareError` from `compare`. The operators pass these on.
- A Go `bool` handed to `SetValue` becomes the integer datum 1 or 0
  (`BoolValue`). This is the engine library's convention. It is why
  `(NOT NOT c0) = c0` is false for `c0 = 2`.
- Go's `&&` and `||` skip the right operand once the left one decides. So
  AND with a false left operand, and OR with a true one, never call
  `ConvertToBool` on the right operand. For example, `0 AND <time>` is 0,
  but `<time> AND 0` panics (`ShortCircuitAsymmetry`). So AND and OR are
  commutative only when both orders succeed (`LogicCommutative`).
- The package-level `Function` variables are a `map<Op, Function>`.
  `Registry.Init` builds it from the declared descriptors and returns it.
  `RegisterLogic` and `RegisterComparisons` are `init`'s two `for` loops.
- Accept masks are sets of argument classes, and XOR on masks is symmetric
  difference (`MaskXor`). The definitions of `AnyArg`, `StringArg`,
  `DatetimeArg` and `NewAcceptTypeMap` are not part of this model. `Init`
  takes `anyArg` and the map `NewAcceptTypeMap` returns as parameters.

The two time/string fallbacks are not symmetric, and the model keeps them
as the code has them:

- String compared with time, when all three conversions fail, does not
  return "equal". It falls through to the final panic
  (operator.go:179-198). Only time compared with string returns 0
  (operator.go:170-171). `TimeStringExhausted` and `StringTimeExhausted` state the two directions, and `TimeStringAsymmetry` puts them side by side.

## Model

| member | source | states |
|---|---|---|
| Values.BoolValue | pkg/pivot/operator.go:21 | the datum built from a bool is Int64 1 or 0, and it is nonzero exactly when the bool is true |
| Truthiness.ZerosThenNonzeroIndex | pkg/pivot/operator.go:129 | the scanner accepts exactly the strings in which some nonzero digit has only zeros before it |
| Truthiness.UnsignedPrefix | pkg/pivot/operator.go:129 | the scanner accepts a string exactly when some prefix matches `[1-9]+` or `0+[1-9]` |
| Truthiness.ZerosThenNonzero | pkg/pivot/operator.go:129 | the computed `0*[1-9]` test: accepted strings start with a digit, and every string starting with a nonzero digit is accepted |
| Truthiness.LeadingNonzero | pkg/pivot/operator.go:129 | the computed `-?0*[1-9]` test: accepted strings start with a minus or a digit, a minus is followed by a digit, and every string starting with a nonzero digit is accepted |
| Truthiness.StringTruthIsPattern | pkg/pivot/operator.go:127-130 | the two-alternative pattern as written matches exactly the strings of the form `-?0*[1-9]` followed by anything, in both directions |
| Truthiness.Abs | pkg/pivot/operator.go:124 | the absolute value is non-negative and equals the argument or its negation |
| Truthiness.ConvertToBool | pkg/pivot/operator.go:115-137 | panics exactly for kinds without a rule (time and the rest), reporting the datum; a string is true exactly when the leading-number pattern matches it and false exactly when it does not |
| Truthiness.TruthinessByKind | pkg/pivot/operator.go:117-133 | NULL is false; Int64, Uint64 and Decimal are true iff nonzero; Float32 and Float64 are true iff the absolute value is at least 1 |
| Truthiness.BoolValueRoundTrip | pkg/pivot/operator.go:21 | an operator's boolean result reads back as the same boolean |
| Truthiness.StringTruthExamples | pkg/pivot/operator.go:127-130 | "1", "-1", "007" and "1a" are true; "0", "-0", "0.5", "a", "" and "--1" are false |
| Truthiness.FloatTruthExamples | pkg/pivot/operator.go:123-126 | 0.9 and -0.5 are false; 1.0 and -1.5 are true |
| Comparison.FirstConversion | pkg/pivot/operator.go:155-169 | the steps are tried in order, each converting the string to the target type and then calling the engine comparison of the time value with the converted value (`ConvertAndCompare`); the result is absent exactly when every step fails, and otherwise it is the result of the first step that succeeds |
| Comparison.Compare | pkg/pivot/operator.go:139-201 | a successful primary comparison is returned unchanged; when it fails, every kind pair outside the four fallback pairs panics; time against string never panics; a panic reports the two datums |
| Comparison.NumberStringFallback | pkg/pivot/operator.go:143-151 | once the engine comparison of a number with a string fails, the result is the number compared with integer 0, and it is a panic exactly when that comparison fails too |
| Comparison.StringNumberFallback | pkg/pivot/operator.go:173-178 | once the engine comparison of a string with a number fails, the result is the negation of the number compared with integer 0, and it is a panic exactly when that comparison fails too |
| Comparison.NumericStringSwap | pkg/pivot/operator.go:144-178 | when both orders take the fallback, swapping a number and a string negates the result, and one order succeeds exactly when the other does |
| Comparison.TimeStringFallback | pkg/pivot/operator.go:152-169 | once the engine comparison of a time with a string fails, the result is that of the first conversion (Timestamp, Date, Float) that converts and compares |
| Comparison.StringTimeFallback | pkg/pivot/operator.go:179-194 | once the engine comparison of a string with a time fails, the result is the negation of the first conversion that converts and compares |
| Comparison.TimeStringExhausted | pkg/pivot/operator.go:152-171 | time against string with every conversion failing is 0 |
| Comparison.StringTimeExhausted | pkg/pivot/operator.go:179-198 | string against time with every conversion failing panics |
| Comparison.TimeStringAsymmetry | pkg/pivot/operator.go:152-198 | when both orders take the fallback and every conversion fails, time against string succeeds but string against time panics |
| Operators.Holds | pkg/pivot/operator.go:49-94 | each comparison's predicate, by sign table: a positive sign satisfies GT, NE and GE; zero satisfies EQ, GE and LE; a negative sign satisfies LT, NE and LE |
| Operators.Eval | pkg/pivot/operator.go:14-97 | the result is NULL exactly when an argument is NULL; any other successful result is the boolean datum 1 or 0 |
| Operators.NullPropagation | pkg/pivot/operator.go:17-20 | each of the nine operators returns NULL if and only if one of its arguments is NULL |
| Operators.NullSkipsEngine | pkg/pivot/operator.go:45-48 | with a NULL argument the result does not depend on the engine, so `compare` is never reached |
| Operators.LogicOverTruthiness | pkg/pivot/operator.go:15-41 | for arguments with a truthiness, XOR, AND and OR are inequality, conjunction and disjunction of that truthiness |
| Operators.LogicCommutative | pkg/pivot/operator.go:15-41 | XOR, AND and OR give the same result in both operand orders when both succeed; XOR succeeds in one order iff it succeeds in the other |
| Operators.ShortCircuitAsymmetry | pkg/pivot/operator.go:24-41 | an instance of the two short-circuits: a time value as the right operand of `0 AND` or `1 OR` does not panic, but as the left operand it does; XOR converts both operands, so it panics |
| Operators.LogicPanics | pkg/pivot/operator.go:15-41 | for non-NULL arguments, XOR panics exactly when converting the left operand panics or, after it succeeds, converting the right one does; AND only converts the right one after a true left one and OR after a false one; the failure is the panicking conversion's |
| Operators.AndShortCircuit | pkg/pivot/operator.go:30 | AND with a non-NULL left operand that reads as false is false for every non-NULL right operand, which is never converted |
| Operators.OrShortCircuit | pkg/pivot/operator.go:39 | OR with a non-NULL left operand that reads as true is true for every non-NULL right operand, which is never converted |
| Operators.ComparisonBySign | pkg/pivot/operator.go:43-96 | GT, LT, NE, EQ, GE and LE are the predicates >0, <0, !=0, ==0, >=0 and <=0 on `compare`, and they panic when `compare` panics |
| Operators.ComparisonComplements | pkg/pivot/operator.go:43-96 | for non-NULL arguments whose comparison succeeds: GT is true exactly when LE is not, LT exactly when GE is not, EQ exactly when NE is not, and GE exactly when GT or EQ is |
| Operators.AndWithDecimalExample | pkg/pivot/generator_test.go:192-204 | `1 AND 0.4` is true, because the decimal 0.4 is nonzero |
| Operators.OrExample | pkg/pivot/generator_test.go:89-104 | `c1 OR c0` with c1 = 0 and c0 = 1 is true |
| Operators.OrNullExample | pkg/pivot/generator_test.go:136-148 | `0 OR c0` with c0 NULL is NULL |
| Registry.MaskXor | pkg/pivot/operator.go:109-110 | a class is in the XOR of two masks exactly when it is in one of them but not both |
| Registry.DeclaredNamesDistinct | pkg/pivot/operator.go:15-96 | the nine declared descriptors (`Declared`: no accepted types, arity 2, name, closure) carry pairwise different names |
| Registry.ComparisonAcceptMap | pkg/pivot/operator.go:108-110 | the comparison map: the default map with the datetime entry set to `AnyArg` with the string bit flipped and the string entry set to `AnyArg` with the datetime bit flipped; every other entry is the default |
| Registry.ComparisonMasksExclude | pkg/pivot/operator.go:106-112 | when `AnyArg` holds both bits, a comparison accepts a datetime argument with every class but string, and a string argument with every class but datetime; every other class keeps its default mask |
| Registry.RegisterLogic | pkg/pivot/operator.go:100-104 | XOR, AND and OR get two default maps; every other descriptor is unchanged |
| Registry.RegisterComparisons | pkg/pivot/operator.go:106-112 | the six comparisons get the comparison map in both positions; the logic descriptors are unchanged |
| Registry.Init | pkg/pivot/operator.go:99-113 | starting from the nine declared literals, all nine operators are registered with arity 2, their names and closures, and one accepted-type map per argument: two default maps for XOR, AND and OR, and the comparison map twice for each comparison |

## Left out

- `EvaluateRow`, the tree walk, column resolution, the schema model and `NOT` / unary minus: their source is not part of this model.
- The engine library's `CompareDatum`, `ConvertTo`, `NewFieldType`, `MyDecimal` and `StatementContext`: these are foreign calls. They are parameters of the model (`Engine`), with no assumption about their behaviour. That includes signed and unsigned integer comparison.
- IEEE floating point: Float32 and Float64 payloads are reals. NaN, infinities and float32 rounding are not modelled.
- Go's `regexp` engine: only the one pattern of operator.go:129 is modelled, as a string predicate.
- Panic messages are not modelled. `Failure` records only which datums caused the panic. The error that `compare`'s panic prints is also dropped.
- Registry.Init: the `AcceptType` maps are values. Go shares one `mArg` map object between a comparison's two argument positions, and that aliasing is not modelled. Nothing changes the maps after `init`, so this has no visible effect.
- Registry.Init: `NewAcceptTypeMap` is assumed to return a fresh map with the same contents on every call (a parameter), because its definition is not part of this model. If it returned one shared map, the writes at operator.go:109-110 would also change the logic operators' maps; the model does not capture that.
- Comparison.Compare: Go's `-i` on an `int` would wrap for the minimum value. Integers here are unbounded. The engine returns -1, 0 or 1, so this has no effect.
- cmd/pivot/main.go: command-line parsing, connection handling and the driver loop are orchestration, not evaluation.
