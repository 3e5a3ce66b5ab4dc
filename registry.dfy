/**
 * The operator registry: the nine `Function` descriptors of
 * pkg/pivot/operator.go and the `init` that attaches their per-argument
 * accepted-type maps.
 */
module Registry {
  import opened Operators

  /**
   * The argument classes of the accept masks. Only the two that `init`
   * names are distinguished; the others are kept abstract.
   */
  datatype ArgKind = StringArg | DatetimeArg | OtherArg(bit: nat)

  /** A bit mask of argument classes, as the set of its bits. */
  type Mask = set<ArgKind>

  /** An accepted-type map: for each argument class, the mask it is accepted with. */
  type AcceptMap = map<ArgKind, Mask>

  /** Bitwise XOR of two masks. */
  function MaskXor(m1: Mask, m2: Mask): (r: Mask)
    ensures forall k :: k in r <==> (k in m1) != (k in m2)
  {
    (m1 - m2) + (m2 - m1)
  }

  /** `Function`: accepted types per argument, arity bounds, name, and the eval closure's operator. */
  datatype Function = Function(acceptType: seq<AcceptMap>, minArgs: nat, maxArgs: nat, name: string, eval: Op)

  function OpName(op: Op): string {
    match op
    case Xor => "XOR"
    case And => "AND"
    case Or => "OR"
    case Gt => "GT"
    case Lt => "LT"
    case Ne => "NE"
    case Eq => "EQ"
    case Ge => "GE"
    case Le => "LE"
  }

  /** The nine descriptors as declared, before `init`: no accepted types yet, two arguments. */
  function Declared(op: Op): Function {
    Function([], 2, 2, OpName(op), op)
  }

  /** The nine declared descriptors carry nine different names. */
  lemma DeclaredNamesDistinct()
    ensures forall o1, o2 :: o1 != o2 ==> Declared(o1).name != Declared(o2).name
  {
  }

  const AllOps: set<Op> := {Xor, And, Or, Gt, Lt, Ne, Eq, Ge, Le}

  /** The map every comparison gets for both of its arguments. */
  function ComparisonAcceptMap(anyArg: Mask, defaults: AcceptMap): (m: AcceptMap)
    ensures m.Keys == defaults.Keys + {DatetimeArg, StringArg}
    ensures forall k :: k in m[DatetimeArg] <==> (k in anyArg) != (k == StringArg)
    ensures forall k :: k in m[StringArg] <==> (k in anyArg) != (k == DatetimeArg)
    ensures forall k :: k in defaults && k != DatetimeArg && k != StringArg ==> m[k] == defaults[k]
  {
    defaults[DatetimeArg := MaskXor(anyArg, {StringArg})][StringArg := MaskXor(anyArg, {DatetimeArg})]
  }

  /**
   * With both bits in `anyArg`, a comparison accepts a datetime argument
   * with everything but strings and a string argument with everything but
   * datetimes; every other class keeps its default mask.
   */
  lemma ComparisonMasksExclude(anyArg: Mask, defaults: AcceptMap)
    requires StringArg in anyArg && DatetimeArg in anyArg
    ensures ComparisonAcceptMap(anyArg, defaults)[DatetimeArg] == anyArg - {StringArg}
    ensures ComparisonAcceptMap(anyArg, defaults)[StringArg] == anyArg - {DatetimeArg}
    ensures DatetimeArg in ComparisonAcceptMap(anyArg, defaults)[DatetimeArg]
    ensures StringArg in ComparisonAcceptMap(anyArg, defaults)[StringArg]
    ensures forall k :: k in defaults && k != StringArg && k != DatetimeArg ==>
      k in ComparisonAcceptMap(anyArg, defaults) && ComparisonAcceptMap(anyArg, defaults)[k] == defaults[k]
  {
  }

  /** The order in which `init` visits the operators of each of its two loops. */
  const LogicOrder: seq<Op> := [Xor, And, Or]
  const ComparisonOrder: seq<Op> := [Lt, Gt, Le, Ge, Ne, Eq]

  /** The position of `op` in the loop of `init` that visits it. */
  function LoopPosition(op: Op): nat {
    match op
    case Xor => 0
    case And => 1
    case Or => 2
    case Lt => 0
    case Gt => 1
    case Le => 2
    case Ge => 3
    case Ne => 4
    case Eq => 5
  }

  lemma LoopOrdersCoverOps()
    ensures forall op :: op in AllOps
    ensures forall op :: IsLogic(op) ==> LoopPosition(op) < |LogicOrder| && LogicOrder[LoopPosition(op)] == op
    ensures forall op :: IsComparison(op) ==>
      LoopPosition(op) < |ComparisonOrder| && ComparisonOrder[LoopPosition(op)] == op
  {
    forall op: Op ensures op in AllOps {
      match op
      case Xor =>
      case And =>
      case Or =>
      case Gt =>
      case Lt =>
      case Ne =>
      case Eq =>
      case Ge =>
      case Le =>
    }
  }

  /** The accepted types of `op` once the first loop of `init` has visited `i` operators. */
  function LogicStage(op: Op, i: nat, defaults: AcceptMap): seq<AcceptMap> {
    if IsLogic(op) && LoopPosition(op) < i then [defaults, defaults] else []
  }

  /** The accepted types of `op` once the second loop of `init` has visited `i` operators. */
  function ComparisonStage(op: Op, i: nat, defaults: AcceptMap, cmpMap: AcceptMap): seq<AcceptMap> {
    if IsLogic(op) then [defaults, defaults]
    else if LoopPosition(op) < i then [cmpMap, cmpMap]
    else []
  }

  /**
   * `init`: every logic operator gets two default maps, every comparison
   * the comparison map in both positions; nothing else of a descriptor
   * changes. `defaults` is what `NewAcceptTypeMap` returns and `anyArg` the
   * mask of all classes.
   */
  method Init(anyArg: Mask, defaults: AcceptMap) returns (reg: map<Op, Function>)
    ensures forall op :: op in reg
    ensures forall op :: op in reg ==>
      && reg[op].minArgs == 2 && reg[op].maxArgs == 2
      && reg[op].name == OpName(op) && reg[op].eval == op
      && |reg[op].acceptType| == reg[op].maxArgs
    ensures forall op :: op in reg && IsLogic(op) ==> reg[op].acceptType == [defaults, defaults]
    ensures forall op :: op in reg && IsComparison(op) ==>
      reg[op].acceptType == [ComparisonAcceptMap(anyArg, defaults), ComparisonAcceptMap(anyArg, defaults)]
  {
    LoopOrdersCoverOps();
    reg := map op | op in AllOps :: Declared(op);
    reg := RegisterLogic(reg, defaults);
    reg := RegisterComparisons(reg, anyArg, defaults);
    forall op: Op
      ensures reg[op].name == OpName(op) && reg[op].eval == op
      ensures reg[op].minArgs == 2 && reg[op].maxArgs == 2
    {
      assert reg[op] == Declared(op).(acceptType := reg[op].acceptType);
    }
  }

  /** The first loop of `init`: two default maps for XOR, AND and OR. */
  method RegisterLogic(decl: map<Op, Function>, defaults: AcceptMap) returns (reg: map<Op, Function>)
    requires forall op :: op in decl && decl[op] == Declared(op)
    ensures forall op :: op in reg && reg[op] == Declared(op).(acceptType := LogicStage(op, |LogicOrder|, defaults))
  {
    LoopOrdersCoverOps();
    reg := decl;
    for i := 0 to |LogicOrder|
      invariant forall op :: op in reg && reg[op] == Declared(op).(acceptType := LogicStage(op, i, defaults))
    {
      assert IsLogic(LogicOrder[i]) && LoopPosition(LogicOrder[i]) == i;
      var f := reg[LogicOrder[i]];
      f := f.(acceptType := []);
      f := f.(acceptType := f.acceptType + [defaults]);
      f := f.(acceptType := f.acceptType + [defaults]);
      assert f == Declared(LogicOrder[i]).(acceptType := [defaults, defaults]);
      reg := reg[LogicOrder[i] := f];
    }
  }

  /** The second loop of `init`: the comparison map, twice, for each comparison. */
  method RegisterComparisons(decl: map<Op, Function>, anyArg: Mask, defaults: AcceptMap)
    returns (reg: map<Op, Function>)
    requires forall op :: op in decl && decl[op] == Declared(op).(acceptType := LogicStage(op, |LogicOrder|, defaults))
    ensures forall op ::
              && op in reg
              && reg[op] == Declared(op).(acceptType :=
                   ComparisonStage(op, |ComparisonOrder|, defaults, ComparisonAcceptMap(anyArg, defaults)))
  {
    LoopOrdersCoverOps();
    ghost var cmpMap := ComparisonAcceptMap(anyArg, defaults);
    reg := decl;
    for i := 0 to |ComparisonOrder|
      invariant forall op :: op in reg && reg[op] == Declared(op).(acceptType := ComparisonStage(op, i, defaults, cmpMap))
    {
      assert IsComparison(ComparisonOrder[i]) && LoopPosition(ComparisonOrder[i]) == i;
      var f := reg[ComparisonOrder[i]];
      f := f.(acceptType := []);
      var mArg := defaults;
      mArg := mArg[DatetimeArg := MaskXor(anyArg, {StringArg})];
      mArg := mArg[StringArg := MaskXor(anyArg, {DatetimeArg})];
      f := f.(acceptType := f.acceptType + [mArg, mArg]);
      assert f == Declared(ComparisonOrder[i]).(acceptType := [cmpMap, cmpMap]);
      reg := reg[ComparisonOrder[i] := f];
    }
  }
}
