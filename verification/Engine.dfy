/** The JsonLogic-style evaluator: RuleEngine, its operators, and RuleCondition. */
module Engine {
  import opened Common
  import opened Values

  datatype Relation = Gt | Lt | Ge | Le

  datatype Operator =
    | VarOp | AndOp | OrOp | Compare(rel: Relation) | Equals | NotEquals
    | InOp | ContainsOp | Multiply | InHolidayPeriod

  /** `evaluate` returns a value, raises ValueError, or raises something else. */
  datatype Outcome = Val(value: Value) | ValueErr | OtherErr

  // --------------------------------------------------------------- registry

  function Symbol(op: Operator): string {
    match op
    case VarOp => "var"
    case AndOp => "and"
    case OrOp => "or"
    case Compare(Gt) => ">"
    case Compare(Lt) => "<"
    case Compare(Ge) => ">="
    case Compare(Le) => "<="
    case Equals => "=="
    case NotEquals => "!="
    case InOp => "in"
    case ContainsOp => "contains"
    case Multiply => "*"
    case InHolidayPeriod => "in_holiday_period"
  }

  const OPERATORS := [
    VarOp, AndOp, OrOp, Compare(Gt), Compare(Lt), Compare(Ge), Compare(Le), Equals, NotEquals,
    InOp, Multiply, ContainsOp, InHolidayPeriod]

  function OperatorOf(symbol: string): Option<Operator> {
    if symbol == "var" then Some(VarOp)
    else if symbol == "and" then Some(AndOp)
    else if symbol == "or" then Some(OrOp)
    else if symbol == ">" then Some(Compare(Gt))
    else if symbol == "<" then Some(Compare(Lt))
    else if symbol == ">=" then Some(Compare(Ge))
    else if symbol == "<=" then Some(Compare(Le))
    else if symbol == "==" then Some(Equals)
    else if symbol == "!=" then Some(NotEquals)
    else if symbol == "in" then Some(InOp)
    else if symbol == "contains" then Some(ContainsOp)
    else if symbol == "*" then Some(Multiply)
    else if symbol == "in_holiday_period" then Some(InHolidayPeriod)
    else None
  }

  /** No two operators share a symbol, so registration order cannot hide one. */
  lemma OperatorOfSymbol(symbol: string, op: Operator)
    ensures OperatorOf(symbol) == Some(op) <==> symbol == Symbol(op)
  {
    match op case Compare(rel) => { match rel case _ => } case _ =>
  }

  class PluginRegistry {
    var evaluators: map<string, Operator>

    constructor ()
      ensures evaluators == map[]
    {
      evaluators := map[];
    }

    method Register(op: Operator)
      modifies this
      ensures evaluators == old(evaluators)[Symbol(op) := op]
    {
      evaluators := evaluators[Symbol(op) := op];
    }

    /** ValueError (None) for a symbol nobody registered. */
    function Lookup(symbol: string): Option<Operator>
      reads this
    {
      if symbol in evaluators then Some(evaluators[symbol]) else None
    }
  }

  method DefaultRegistry() returns (registry: PluginRegistry)
    ensures fresh(registry)
    ensures forall symbol :: registry.Lookup(symbol) == OperatorOf(symbol)
  {
    registry := new PluginRegistry();
    for i := 0 to |OPERATORS|
      invariant fresh(registry)
      invariant forall s :: s in registry.evaluators <==> exists j :: 0 <= j < i && Symbol(OPERATORS[j]) == s
      invariant forall s :: s in registry.evaluators ==> Symbol(registry.evaluators[s]) == s
    {
      registry.Register(OPERATORS[i]);
    }
    forall symbol ensures registry.Lookup(symbol) == OperatorOf(symbol) {
      RegisteredExactly(symbol);
      if symbol in registry.evaluators {
        OperatorOfSymbol(symbol, registry.evaluators[symbol]);
      }
    }
  }

  lemma RegisteredExactly(symbol: string)
    ensures OperatorOf(symbol).Some? <==> exists j :: 0 <= j < |OPERATORS| && Symbol(OPERATORS[j]) == symbol
  {
    if OperatorOf(symbol).Some? {
      var op := OperatorOf(symbol).value;
      OperatorOfSymbol(symbol, op);
      assert Symbol(OPERATORS[0]) == "var" && Symbol(OPERATORS[1]) == "and" && Symbol(OPERATORS[2]) == "or";
      assert Symbol(OPERATORS[3]) == ">" && Symbol(OPERATORS[4]) == "<" && Symbol(OPERATORS[5]) == ">=";
      assert Symbol(OPERATORS[6]) == "<=" && Symbol(OPERATORS[7]) == "==" && Symbol(OPERATORS[8]) == "!=";
      assert Symbol(OPERATORS[9]) == "in" && Symbol(OPERATORS[10]) == "*" && Symbol(OPERATORS[11]) == "contains";
      assert Symbol(OPERATORS[12]) == "in_holiday_period";
    } else if j :| 0 <= j < |OPERATORS| && Symbol(OPERATORS[j]) == symbol {
      OperatorOfSymbol(symbol, OPERATORS[j]);
    }
  }

  // -------------------------------------------------------------- operators

  /** `path.split(".")` */
  function Segments(path: string): (parts: seq<string>)
    ensures parts != []
  {
    if path == "" then [""]
    else
      var rest := Segments(path[1..]);
      if path[0] == '.' then [""] + rest else [[path[0]] + rest[0]] + rest[1..]
  }

  function Walk(current: Value, parts: seq<string>): Value {
    if parts == [] then current
    else if current.Dict? && parts[0] in current.m then Walk(current.m[parts[0]], parts[1..])
    else Null
  }

  /** What `{"var": path}` reads for a nonempty dotted path. */
  function Lookup(data: Object, path: string): Value { Walk(Dict(data), Segments(path)) }

  /** The loop of VarEvaluator. */
  method ResolvePath(data: Object, path: string) returns (v: Value)
    ensures v == Lookup(data, path)
  {
    var parts := Segments(path);
    v := Dict(data);
    var i := 0;
    while i < |parts|
      invariant 0 <= i <= |parts|
      invariant Walk(v, parts[i..]) == Lookup(data, path)
    {
      if v.Dict? && parts[i] in v.m {
        v := v.m[parts[i]];
      } else {
        return Null;
      }
      i := i + 1;
    }
  }

  /** A segment with no dot in it is one step of the walk. */
  lemma {:induction false} SegmentsHead(head: string, rest: string)
    requires forall i :: 0 <= i < |head| ==> head[i] != '.'
    ensures Segments(head + "." + rest) == [head] + Segments(rest)
  {
    var path := head + "." + rest;
    if head == "" {
      assert path[1..] == rest;
    } else {
      assert path[1..] == head[1..] + "." + rest;
      SegmentsHead(head[1..], rest);
      assert [head[0]] + head[1..] == head;
    }
  }

  lemma {:induction false} SegmentsOfName(name: string)
    requires forall i :: 0 <= i < |name| ==> name[i] != '.'
    ensures Segments(name) == [name]
  {
    if name != "" {
      SegmentsOfName(name[1..]);
      assert [name[0]] + name[1..] == name;
    }
  }

  function Number(v: Value): Option<real> {
    match v
    case Bool(b) => Some(if b then 1.0 else 0.0)
    case Int(i) => Some(i as real)
    case Float(r) => Some(r)
    case _ => None
  }

  predicate Holds(rel: Relation, x: real, y: real) {
    match rel case Gt => x > y case Lt => x < y case Ge => x >= y case Le => x <= y
  }

  predicate HoldsStr(rel: Relation, a: string, b: string) {
    match rel
    case Gt => StrLess(b, a) case Lt => StrLess(a, b)
    case Ge => !StrLess(a, b) case Le => !StrLess(b, a)
  }

  /** Python's ordering comparison; None stands for TypeError. */
  function Ordered(rel: Relation, a: Value, b: Value): Option<bool>
    decreases a
  {
    if Number(a).Some? && Number(b).Some? then Some(Holds(rel, Number(a).value, Number(b).value))
    else if a.Str? && b.Str? then Some(HoldsStr(rel, a.s, b.s))
    else if a.List? && b.List? then OrderedLists(rel, a.items, b.items)
    else None
  }

  function OrderedLists(rel: Relation, xs: seq<Value>, ys: seq<Value>): Option<bool>
    decreases xs
  {
    if xs == [] || ys == [] then Some(Holds(rel, |xs| as real, |ys| as real))
    else if PyEq(xs[0], ys[0]) then OrderedLists(rel, xs[1..], ys[1..])
    else Ordered(rel, xs[0], ys[0])
  }

  /** The numeric evaluators: a missing or ill-typed operand makes the comparison false. */
  predicate CompareValues(rel: Relation, left: Value, right: Value) {
    !left.Null? && !right.Null? && Ordered(rel, left, right) == Some(true)
  }

  /** `needle in haystack`, with None operands and TypeError read as false. */
  predicate Member(needle: Value, haystack: Value) {
    if needle.Null? then false
    else match haystack
      case List(xs) => exists x :: x in xs && PyEq(needle, x)
      case Str(text) => needle.Str? && Contains(text, needle.s)
      case Dict(m) => needle.Str? && needle.s in m
      case _ => false
  }

  function Repeat<T>(s: seq<T>, n: int): seq<T> { if n <= 0 then [] else s + Repeat(s, n - 1) }

  function Count(v: Value): Option<int> {
    match v case Bool(b) => Some(if b then 1 else 0) case Int(i) => Some(i) case _ => None
  }

  function Times(x: real, y: real): real { x * y }

  /** `left * right`; a missing operand makes the product missing. */
  function Product(left: Value, right: Value): Outcome {
    if left.Null? || right.Null? then Val(Null)
    else if Count(left).Some? && Count(right).Some? then Val(Int(Count(left).value * Count(right).value))
    else if Number(left).Some? && Number(right).Some? then Val(Float(Times(Number(left).value, Number(right).value)))
    else if left.Str? && Count(right).Some? then Val(Str(Repeat(left.s, Count(right).value)))
    else if right.Str? && Count(left).Some? then Val(Str(Repeat(right.s, Count(left).value)))
    else if left.List? && Count(right).Some? then Val(List(Repeat(left.items, Count(right).value)))
    else if right.List? && Count(left).Some? then Val(List(Repeat(right.items, Count(left).value)))
    else OtherErr
  }

  function Binary(op: Operator, left: Value, right: Value): Outcome
    requires !op.VarOp? && !op.AndOp? && !op.OrOp? && !op.InHolidayPeriod?
  {
    match op
    case Compare(rel) => Val(Bool(CompareValues(rel, left, right)))
    case Equals => Val(Bool(PyEq(left, right)))
    case NotEquals => Val(Bool(!PyEq(left, right)))
    case InOp => Val(Bool(Member(left, right)))
    case ContainsOp => Val(Bool(Member(right, left)))
    case Multiply => Product(left, right)
  }

  // ----------------------------------------------------------------- engine

  function EvalVar(args: Value, data: Object): Outcome {
    if args == List([]) then OtherErr
    else
      var path := if args.List? then args.items[0] else args;
      match path
      case Null => Val(Dict(data))
      case Str(p) => Val(if p == "" then Dict(data) else Lookup(data, p))
      case _ => Val(Null)
  }

  /** `engine.evaluate(args[i], data)`, including the ways `args[i]` itself can fail. */
  function EvalOperand(args: Value, i: nat, data: Object): Outcome
    decreases args, 0
  {
    match args
    case List(xs) => if i < |xs| then Eval(xs[i], data) else OtherErr
    case Str(s) => if i < |s| then Val(Str([s[i]])) else OtherErr
    case _ => OtherErr
  }

  function EvalAll(xs: seq<Value>, data: Object): Outcome
    decreases xs
  {
    if xs == [] then Val(Bool(true))
    else
      var head := Eval(xs[0], data);
      if !head.Val? then head
      else if !Truthy(head.value) then Val(Bool(false))
      else EvalAll(xs[1..], data)
  }

  function EvalAny(xs: seq<Value>, data: Object): Outcome
    decreases xs
  {
    if xs == [] then Val(Bool(false))
    else
      var head := Eval(xs[0], data);
      if !head.Val? then head
      else if Truthy(head.value) then Val(Bool(true))
      else EvalAny(xs[1..], data)
  }

  /** Applies an operator to its unevaluated arguments. */
  function Apply(op: Operator, args: Value, data: Object): Outcome
    decreases args, 1
  {
    match op
    case VarOp => EvalVar(args, data)
    case AndOp =>
      (match args
       case List(xs) => EvalAll(xs, data)
       case Str(_) => Val(Bool(true))
       case Dict(m) => Val(Bool("" !in m))
       case _ => OtherErr)
    case OrOp =>
      (match args
       case List(xs) => EvalAny(xs, data)
       case Str(s) => Val(Bool(s != ""))
       case Dict(m) => Val(Bool(exists k :: k in m && k != ""))
       case _ => OtherErr)
    case InHolidayPeriod =>
      var v := EvalOperand(args, 0, data);
      if v.Val? then Val(Bool(Truthy(v.value))) else v
    case _ =>
      var left := EvalOperand(args, 0, data);
      if !left.Val? then left
      else
        var right := EvalOperand(args, 1, data);
        if !right.Val? then right else Binary(op, left.value, right.value)
  }

  /** RuleEngine.evaluate */
  function Eval(node: Value, data: Object): Outcome
    decreases node, 2
  {
    if !node.Dict? then Val(node)
    else if |node.m| != 1 then ValueErr
    else
      var symbol := OnlyKey(node.m);
      match OperatorOf(symbol)
      case None => ValueErr
      case Some(op) => Apply(op, node.m[symbol], data)
  }

  // ---------------------------------------------------------- RuleCondition

  /** RuleCondition.is_satisfied_by: ValueError means "not satisfied", anything else propagates. */
  function Satisfied(tree: Value, data: Object): Try<bool> {
    match Eval(tree, data)
    case Val(v) => Done(Truthy(v))
    case ValueErr => Done(false)
    case OtherErr => Raised
  }

  /** RuleCondition.specificity; None when the tree has an and/or whose arguments cannot be iterated. */
  function Specificity(node: Value): Option<nat>
    decreases node, 1
  {
    if !node.Dict? || |node.m| != 1 then Some(0)
    else
      var symbol := OnlyKey(node.m);
      if symbol != "and" && symbol != "or" then Some(1)
      else
        match node.m[symbol]
        case List(xs) => SpecificitySum(xs)
        case Str(_) => Some(0)
        case Dict(_) => Some(0)
        case _ => None
  }

  function SpecificitySum(xs: seq<Value>): Option<nat>
    decreases xs, 0
  {
    if xs == [] then Some(0)
    else
      match (Specificity(xs[0]), SpecificitySum(xs[1..]))
      case (Some(a), Some(b)) => Some(a + b)
      case _ => None
  }

  /** An operator node with one key evaluates by that key alone. */
  lemma EvalNode(symbol: string, args: Value, data: Object)
    ensures var node := Dict(map[symbol := args]);
            && OnlyKey(node.m) == symbol
            && Eval(node, data) ==
               (match OperatorOf(symbol) case None => ValueErr case Some(op) => Apply(op, args, data))
  {
    var node := Dict(map[symbol := args]);
    SingletonKey(node.m);
    assert symbol in node.m;
  }
}
