/** Laws of the evaluator: dotted paths, comparisons, membership, short-circuiting. */
module EngineLaws {
  import opened Values
  import opened Engine

  // -------------------------------------------------------------------- paths

  predicate DotFree(name: string) { forall i :: 0 <= i < |name| ==> name[i] != '.' }

  /** `".".join(parts)` */
  function Join(parts: seq<string>): string
    requires parts != []
  {
    if |parts| == 1 then parts[0] else parts[0] + "." + Join(parts[1..])
  }

  /** Splitting a path gives back the names it was joined from, so a path reads exactly the walk along its names. */
  lemma {:induction false} PathWalksItsNames(data: Object, parts: seq<string>)
    requires parts != [] && forall p :: p in parts ==> DotFree(p)
    ensures Segments(Join(parts)) == parts
    ensures Lookup(data, Join(parts)) == Walk(Dict(data), parts)
  {
    assert parts == [parts[0]] + parts[1..] && parts[0] in parts;
    if |parts| == 1 {
      SegmentsOfName(parts[0]);
    } else {
      PathWalksItsNames(data, parts[1..]);
      SegmentsHead(parts[0], Join(parts[1..]));
    }
  }

  // -------------------------------------------------------------- comparisons

  function Converse(rel: Relation): Relation { match rel case Gt => Lt case Lt => Gt case Ge => Le case Le => Ge }

  function Complement(rel: Relation): Relation { match rel case Gt => Le case Lt => Ge case Ge => Lt case Le => Gt }

  /** Swapping operands is reversing the operator. */
  lemma {:induction false} OrderedConverse(rel: Relation, a: Value, b: Value)
    ensures Ordered(rel, a, b) == Ordered(Converse(rel), b, a)
    decreases a, 1
  {
    if !(Number(a).Some? && Number(b).Some?) && a.List? && b.List? { ListsConverse(rel, a.items, b.items); }
  }

  lemma {:induction false} ListsConverse(rel: Relation, xs: seq<Value>, ys: seq<Value>)
    ensures OrderedLists(rel, xs, ys) == OrderedLists(Converse(rel), ys, xs)
    decreases xs, 0
  {
    if xs != [] && ys != [] {
      OrderedConverse(rel, xs[0], ys[0]);
      ListsConverse(rel, xs[1..], ys[1..]);
    }
  }

  /** Two values are comparable by all four operators or by none; where they are, `>=` is the negation of `<`. */
  lemma {:induction false} OrderedComplement(rel: Relation, a: Value, b: Value)
    ensures Ordered(rel, a, b).Some? == Ordered(Complement(rel), a, b).Some?
    ensures Ordered(rel, a, b).Some? ==> Ordered(rel, a, b).value == !Ordered(Complement(rel), a, b).value
    decreases a, 1
  {
    if !(Number(a).Some? && Number(b).Some?) && a.List? && b.List? { ListsComplement(rel, a.items, b.items); }
  }

  lemma {:induction false} ListsComplement(rel: Relation, xs: seq<Value>, ys: seq<Value>)
    ensures OrderedLists(rel, xs, ys).Some? == OrderedLists(Complement(rel), xs, ys).Some?
    ensures OrderedLists(rel, xs, ys).Some? ==>
            OrderedLists(rel, xs, ys).value == !OrderedLists(Complement(rel), xs, ys).value
    decreases xs, 0
  {
    if xs != [] && ys != [] {
      OrderedComplement(rel, xs[0], ys[0]);
      ListsComplement(rel, xs[1..], ys[1..]);
    }
  }

  /** So of `a < b` and `a >= b` exactly one holds for comparable operands, and neither for missing or ill-typed
      ones. */
  lemma ComparisonsPartition(rel: Relation, a: Value, b: Value)
    ensures CompareValues(rel, a, b) == CompareValues(Converse(rel), b, a)
    ensures !(CompareValues(rel, a, b) && CompareValues(Complement(rel), a, b))
    ensures CompareValues(rel, a, b) || CompareValues(Complement(rel), a, b) <==>
            !a.Null? && !b.Null? && Ordered(rel, a, b).Some?
  {
    OrderedConverse(rel, a, b);
    OrderedComplement(rel, a, b);
  }

  // ----------------------------------------------------------------- operators

  function Node(op: Operator, left: Value, right: Value): Value { Dict(map[Symbol(op) := List([left, right])]) }

  lemma BinaryNode(op: Operator, left: Value, right: Value, data: Object)
    requires !op.VarOp? && !op.AndOp? && !op.OrOp? && !op.InHolidayPeriod?
    requires Eval(left, data).Val? && Eval(right, data).Val?
    ensures Eval(Node(op, left, right), data) == Binary(op, Eval(left, data).value, Eval(right, data).value)
  {
    hide Symbol, OperatorOf, Binary, Eval;
    OperatorOfSymbol(Symbol(op), op);
    EvalNode(Symbol(op), List([left, right]), data);
    OperandsOf(left, right, data);
  }

  lemma OperandsOf(left: Value, right: Value, data: Object)
    ensures EvalOperand(List([left, right]), 0, data) == Eval(left, data)
    ensures EvalOperand(List([left, right]), 1, data) == Eval(right, data)
  {
  }

  /** `!=` is the negation of `==`, and `contains` is `in` with its operands swapped. */
  lemma MirrorOperators(left: Value, right: Value, data: Object)
    requires Eval(left, data).Val? && Eval(right, data).Val?
    ensures Eval(Node(InOp, left, right), data) == Eval(Node(ContainsOp, right, left), data)
    ensures exists b ::
              && Eval(Node(Equals, left, right), data) == Val(Bool(b))
              && Eval(Node(NotEquals, left, right), data) == Val(Bool(!b))
  {
    hide Eval, Member, PyEq;
    BinaryNode(InOp, left, right, data);
    BinaryNode(ContainsOp, right, left, data);
    BinaryNode(Equals, left, right, data);
    BinaryNode(NotEquals, left, right, data);
    var b := PyEq(Eval(left, data).value, Eval(right, data).value);
    assert Eval(Node(Equals, left, right), data) == Val(Bool(b));
  }

  predicate EvaluatesTo(x: Value, data: Object, truth: bool) {
    Eval(x, data).Val? && Truthy(Eval(x, data).value) == truth
  }

  /** `and` is decided by its first operand that is not true: that one makes it false, or fails in its own way; nothing
      after it is looked at. */
  lemma {:induction false} AndDecidedBy(xs: seq<Value>, i: nat, data: Object)
    requires i < |xs| && (forall j :: 0 <= j < i ==> EvaluatesTo(xs[j], data, true)) && !EvaluatesTo(xs[i], data, true)
    ensures EvalAll(xs, data) == if Eval(xs[i], data).Val? then Val(Bool(false)) else Eval(xs[i], data)
  {
    hide Eval, Truthy;
    if i > 0 {
      assert EvaluatesTo(xs[0], data, true);
      AndDecidedBy(xs[1..], i - 1, data);
    }
  }

  lemma {:induction false} AndOfAll(xs: seq<Value>, data: Object)
    requires forall j :: 0 <= j < |xs| ==> EvaluatesTo(xs[j], data, true)
    ensures EvalAll(xs, data) == Val(Bool(true))
  {
    hide Eval, Truthy;
    if xs != [] {
      assert EvaluatesTo(xs[0], data, true);
      AndOfAll(xs[1..], data);
    }
  }

  /** `or` is decided by its first operand that is not false. */
  lemma {:induction false} OrDecidedBy(xs: seq<Value>, i: nat, data: Object)
    requires i < |xs| && (forall j :: 0 <= j < i ==> EvaluatesTo(xs[j], data, false))
             && !EvaluatesTo(xs[i], data, false)
    ensures EvalAny(xs, data) == if Eval(xs[i], data).Val? then Val(Bool(true)) else Eval(xs[i], data)
  {
    hide Eval, Truthy;
    if i > 0 {
      assert EvaluatesTo(xs[0], data, false);
      OrDecidedBy(xs[1..], i - 1, data);
    }
  }

  lemma {:induction false} OrOfNone(xs: seq<Value>, data: Object)
    requires forall j :: 0 <= j < |xs| ==> EvaluatesTo(xs[j], data, false)
    ensures EvalAny(xs, data) == Val(Bool(false))
  {
    hide Eval, Truthy;
    if xs != [] {
      assert EvaluatesTo(xs[0], data, false);
      OrOfNone(xs[1..], data);
    }
  }
}
