/** The rule-pack loaders' small compilers into the engine's tree language. */
module Transpilers {
  import opened Common
  import opened Values
  import opened Engine

  // ------------------------------------------------ "incident." prefix strip

  const ROOT := "incident"
  const PREFIX := ROOT + "."

  /** _strip_incident_prefix (the same code in the HIS and the CSR-SLA loader). */
  function Strip(node: Value): Value {
    match node
    case Dict(m) =>
      if m.Keys == {"var"} && m["var"].Str? && PREFIX <= m["var"].s
      then Dict(map["var" := Str(m["var"].s[|PREFIX|..])])
      else Dict(map k | k in m :: Strip(m[k]))
    case List(xs) => List(seq(|xs|, i requires 0 <= i < |xs| => Strip(xs[i])))
    case _ => node
  }

  /** Paths on which the rewrite is not a renaming of the root. */
  predicate Ambiguous(path: string) { path == "" || path == ROOT || path == PREFIX }

  /** Every evaluated position reads an unambiguous path or holds a literal the rewrite leaves alone. */
  predicate Strippable(node: Value)
    decreases node, 1
  {
    if !node.Dict? then Strip(node) == node
    else if |node.m| != 1 then true
    else
      var symbol := OnlyKey(node.m);
      match OperatorOf(symbol)
      case None => true
      case Some(op) => StrippableArgs(op, node.m[symbol])
  }

  predicate StrippableArgs(op: Operator, args: Value)
    decreases args, 0
  {
    match args
    case List(xs) =>
      if op.VarOp? then xs == [] || (!xs[0].Null? && (xs[0].Str? ==> !Ambiguous(xs[0].s) && !(PREFIX <= xs[0].s)))
      else if op.AndOp? || op.OrOp? then forall i :: 0 <= i < |xs| ==> Strippable(xs[i])
      else (|xs| > 0 ==> Strippable(xs[0])) && (|xs| > 1 && !op.InHolidayPeriod? ==> Strippable(xs[1]))
    case Str(p) => op.VarOp? ==> !Ambiguous(p)
    case Null => !op.VarOp?
    case _ => true
  }

  /** The evaluation data the rules were written against: the payload under "incident" as well. */
  function Nested(d: Object): Object { d[ROOT := Dict(d)] }

  function VarNode(path: string): Value { Dict(map["var" := Str(path)]) }

  function Stripped(path: string): string { if PREFIX <= path then path[|PREFIX|..] else path }

  lemma {:induction false} FirstSegment(path: string)
    ensures var head := Segments(path)[0]; path == head || head + "." <= path
  {
    if path != "" && path[0] != '.' {
      FirstSegment(path[1..]);
      assert path == [path[0]] + path[1..];
    }
  }

  lemma LookupNested(d: Object, path: string)
    requires !Ambiguous(path)
    ensures Lookup(Nested(d), path) == Lookup(d, Stripped(path))
  {
    if PREFIX <= path {
      var rest := path[|PREFIX|..];
      assert path == ROOT + "." + rest;
      SegmentsHead(ROOT, rest);
      assert ([ROOT] + Segments(rest))[1..] == Segments(rest);
      assert Walk(Dict(Nested(d)), [ROOT] + Segments(rest)) == Walk(Dict(d), Segments(rest));
    } else {
      FirstSegment(path);
      assert Segments(path)[0] != ROOT;
    }
  }

  lemma StripNode(symbol: string, args: Value)
    requires !(symbol == "var" && args.Str?)
    ensures Strip(Dict(map[symbol := args])) == Dict(map[symbol := Strip(args)])
  {
  }

  lemma {:induction false} StripAll(xs: seq<Value>, ys: seq<Value>, d: Object)
    requires |xs| == |ys| && forall i :: 0 <= i < |xs| ==> Strippable(xs[i]) && ys[i] == Strip(xs[i])
    ensures EvalAll(ys, d) == EvalAll(xs, Nested(d)) && EvalAny(ys, d) == EvalAny(xs, Nested(d))
    decreases xs, 3
  {
    if xs != [] {
      StripMeaning(xs[0], d);
      StripAll(xs[1..], ys[1..], d);
    }
  }

  lemma {:induction false} StripOperand(args: Value, i: nat, d: Object)
    requires args.List? && i < |args.items| ==> Strippable(args.items[i])
    ensures EvalOperand(Strip(args), i, d) == EvalOperand(args, i, Nested(d))
    decreases args, 3
  {
    if args.List? && i < |args.items| {
      StripMeaning(args.items[i], d);
    }
  }

  lemma {:induction false} StripArgs(op: Operator, args: Value, d: Object)
    requires StrippableArgs(op, args) && !(op.VarOp? && args.Str?)
    ensures Apply(op, Strip(args), d) == Apply(op, args, Nested(d))
    decreases args, 4
  {
    match op
    case VarOp =>
      if args.List? && args.items != [] && args.items[0].Str? {
        LookupNested(d, args.items[0].s);
      }
    case AndOp => if args.List? { StripAll(args.items, Strip(args).items, d); }
    case OrOp =>
      if args.List? { StripAll(args.items, Strip(args).items, d); }
      else if args.Dict? { assert Strip(args).m.Keys == args.m.Keys; }
    case InHolidayPeriod => StripOperand(args, 0, d);
    case _ => StripOperand(args, 0, d); StripOperand(args, 1, d);
  }

  /** Stripping preserves meaning: the rewritten tree on flat data is the original tree on nested data. */
  lemma {:induction false} StripMeaning(node: Value, d: Object)
    requires Strippable(node)
    ensures Eval(Strip(node), d) == Eval(node, Nested(d))
    decreases node, 5
  {
    if node.Dict? && |node.m| == 1 {
      var symbol := OnlyKey(node.m);
      var args := node.m[symbol];
      assert node.m == map[symbol := args];
      EvalNode(symbol, args, Nested(d));
      if symbol == "var" && args.Str? {
        LookupNested(d, args.s);
        var path := Stripped(args.s);
        assert Strip(node) == Dict(map["var" := Str(path)]);
        EvalNode("var", Str(path), d);
      } else {
        StripNode(symbol, args);
        EvalNode(symbol, Strip(args), d);
        if OperatorOf(symbol).Some? { StripArgs(OperatorOf(symbol).value, args, d); }
      }
    } else if node.Dict? {
      assert Strip(node).m.Keys == node.m.Keys;
      assert |Strip(node).m| == |Strip(node).m.Keys| == |node.m.Keys|;
    }
  }

  lemma StripVar(path: string, d: Object)
    ensures Eval(Strip(VarNode(path)), d) == EvalVar(Str(Stripped(path)), d)
    ensures Eval(VarNode(path), Nested(d)) == EvalVar(Str(path), Nested(d))
  {
    assert Strip(VarNode(path)) == VarNode(Stripped(path));
    EvalNode("var", Str(path), Nested(d));
    EvalNode("var", Str(Stripped(path)), d);
  }

  lemma RootReads(root: string, empty: Object)
    requires forall i :: 0 <= i < |root| ==> root[i] != '.'
    requires empty == map[]
    ensures Lookup(empty, root) == Null
    ensures Lookup(map[root := Dict(empty)], root) == Dict(empty)
    ensures Lookup(map[root := Dict(empty)], root + ".") == Null
  {
    SegmentsOfName(root);
    SegmentsHead(root, "");
    assert root + "." + "" == root + ".";
    var data := Dict(map[root := Dict(empty)]);
    assert [root][1..] == [];
    assert Walk(data, [root]) == Walk(Dict(empty), []);
    assert ([root] + [""])[1..] == [""];
    assert Walk(data, [root] + [""]) == Walk(Dict(empty), [""]);
  }

  lemma StrippedAmbiguous()
    ensures Stripped("") == "" && Stripped(ROOT) == ROOT && Stripped(PREFIX) == ""
  {
    assert |ROOT| < |PREFIX|;
  }

  /** Already on an empty payload the three ambiguous paths read different things. */
  lemma AmbiguousDiffers(path: string)
    requires Ambiguous(path)
    ensures EvalVar(Str(Stripped(path)), map[]) != EvalVar(Str(path), Nested(map[]))
  {
    RootReads(ROOT, map[]);
    StrippedAmbiguous();
  }

  /** On a single `var` node the three ambiguous paths are the only ones the rewrite gets wrong. */
  lemma StripVarExact(path: string)
    ensures (forall d :: Eval(Strip(VarNode(path)), d) == Eval(VarNode(path), Nested(d))) <==> !Ambiguous(path)
  {
    if Ambiguous(path) {
      StripVar(path, map[]);
      AmbiguousDiffers(path);
    } else {
      forall d ensures Eval(Strip(VarNode(path)), d) == Eval(VarNode(path), Nested(d)) {
        StripVar(path, d);
        LookupNested(d, path);
      }
    }
  }

  /** Nested dictionaries along the names, with `v` at the end. */
  function NestedAlong(parts: seq<string>, v: Value): Value {
    if parts == [] then v else Dict(map[parts[0] := NestedAlong(parts[1..], v)])
  }

  lemma {:induction false} WalkAlong(parts: seq<string>, v: Value)
    requires !v.Dict?
    ensures Walk(NestedAlong(parts, v), parts) == v
    ensures forall more :: |more| > |parts| ==> Walk(NestedAlong(parts, v), more) == Null
  {
    if parts != [] {
      WalkAlong(parts[1..], v);
      forall more: seq<string> | |more| > |parts| ensures Walk(NestedAlong(parts, v), more) == Null {
        assert |more[1..]| > |parts[1..]|;
      }
    }
  }

  /** A path under "incident." read without the rewrite: some payload tells the two data apart. */
  lemma UnstrippedDiffers(path: string) returns (d: Object)
    requires PREFIX <= path
    ensures Lookup(d, path) != Lookup(Nested(d), path)
  {
    var rest := path[|PREFIX|..];
    assert path == ROOT + "." + rest;
    SegmentsHead(ROOT, rest);
    var segments := Segments(rest);
    var along := NestedAlong(segments, Bool(true));
    WalkAlong(segments, Bool(true));
    d := along.m;
    assert ([ROOT] + segments)[1..] == segments;
    assert Walk(Dict(Nested(d)), [ROOT] + segments) == Walk(Dict(d), segments);
  }

  function VarOf(args: Value): Value { Dict(map["var" := args]) }

  lemma VarOfReads(args: Value, d: Object)
    requires !args.Str?
    ensures Eval(Strip(VarOf(args)), d) == EvalVar(Strip(args), d)
    ensures Eval(VarOf(args), Nested(d)) == EvalVar(args, Nested(d))
  {
    StripNode("var", args);
    EvalNode("var", Strip(args), d);
    EvalNode("var", args, Nested(d));
  }

  /** A `var` node the rewrite gets wrong reads different things on some payload. */
  lemma UnstrippableDiffers(args: Value) returns (d: Object)
    requires !StrippableArgs(VarOp, args)
    ensures Eval(Strip(VarOf(args)), d) != Eval(VarOf(args), Nested(d))
  {
    hide Eval, Strip, Segments, Walk, Nested;
    d := map[];
    match args {
      case Str(path) =>
        StripVar(path, d);
        AmbiguousDiffers(path);
      case List(xs) =>
        StripHead(xs);
        if xs[0].Str? && PREFIX <= xs[0].s {
          d := UnstrippedDiffers(xs[0].s);
          NotEmptyPath(xs[0].s);
        } else {
          NestedDiffers();
          RootReads(ROOT, map[]);
        }
        VarOfReads(args, d);
      case _ =>
        StripScalar(args);
        NestedDiffers();
        VarOfReads(args, d);
    }
  }

  lemma StripScalar(v: Value)
    requires !v.Dict? && !v.List?
    ensures Strip(v) == v
  {
  }

  lemma StripHead(xs: seq<Value>)
    requires xs != []
    ensures Strip(List(xs)).List? && Strip(List(xs)).items != [] && Strip(List(xs)).items[0] == Strip(xs[0])
    ensures !xs[0].Dict? && !xs[0].List? ==> Strip(xs[0]) == xs[0]
  {
  }

  lemma NotEmptyPath(path: string)
    requires PREFIX <= path
    ensures path != ""
  {
  }

  lemma NestedDiffers()
    ensures Nested(map[]) == map[ROOT := Dict(map[])] && Nested(map[]) != map[]
  {
    assert ROOT in Nested(map[]);
  }

  /** A `var` node of any form keeps its meaning on all payloads exactly when it reads no ambiguous path and, in list
      form, which the rewrite does not reach, no path under "incident.". */
  lemma StripVarNodeExact(args: Value)
    ensures (forall d :: Eval(Strip(VarOf(args)), d) == Eval(VarOf(args), Nested(d))) <==> StrippableArgs(VarOp, args)
  {
    if StrippableArgs(VarOp, args) {
      EvalNode("var", args, map[]);
      assert Strippable(VarOf(args));
      forall d ensures Eval(Strip(VarOf(args)), d) == Eval(VarOf(args), Nested(d)) { StripMeaning(VarOf(args), d); }
    } else {
      var d := UnstrippableDiffers(args);
    }
  }

  lemma {:induction false} StripSpecificitySum(xs: seq<Value>, ys: seq<Value>)
    requires |xs| == |ys| && forall i :: 0 <= i < |xs| ==> ys[i] == Strip(xs[i])
    ensures SpecificitySum(ys) == SpecificitySum(xs)
    decreases xs, 0
  {
    if xs != [] {
      StripSpecificity(xs[0]);
      StripSpecificitySum(xs[1..], ys[1..]);
    }
  }

  /** The conflict-group tiebreak does not see the rewrite, on any tree at all. */
  lemma {:induction false} StripSpecificity(node: Value)
    ensures Specificity(Strip(node)) == Specificity(node)
    decreases node, 1
  {
    if node.Dict? {
      assert Strip(node).m.Keys == node.m.Keys;
      assert |Strip(node).m| == |Strip(node).m.Keys| == |node.m.Keys|;
      if |node.m| == 1 {
        var symbol := OnlyKey(node.m);
        SingletonKey(node.m);
        SingletonKey(Strip(node).m);
        if (symbol == "and" || symbol == "or") && node.m[symbol].List? {
          StripSpecificitySum(node.m[symbol].items, Strip(node.m[symbol]).items);
        }
      }
    }
  }

  /** Satisfaction and tiebreak of a stripped rule condition, as the loaders rely on them. */
  lemma StripCondition(tree: Value, d: Object)
    requires Strippable(tree)
    ensures Satisfied(Strip(tree), d) == Satisfied(tree, Nested(d))
    ensures Specificity(Strip(tree)) == Specificity(tree)
  {
    StripMeaning(tree, d);
    StripSpecificity(tree);
  }

  // ------------------------------------------------------- condition lists

  /** What reading a source condition's field means. */
  function ReadField(d: Object, field: string): Value { if field == "" then Dict(d) else Lookup(d, field) }

  /** What evaluating to `t` means for a rule condition. */
  function AsSatisfied(t: Outcome): Try<bool> {
    match t case Val(v) => Done(Truthy(v)) case ValueErr => Done(false) case OtherErr => Raised
  }

  /** `t` is a value, and it counts as `truth`. */
  predicate Counts(t: Outcome, truth: bool) { t.Val? && Truthy(t.value) == truth }

  ghost predicate DecidesAt(r: Try<bool>, ts: seq<Outcome>, truth: bool, i: nat) {
    i < |ts| && !Counts(ts[i], truth) && r == AsSatisfied(ts[i]) && forall j :: 0 <= j < i ==> Counts(ts[j], truth)
  }

  /** Reading `ts` from the left, the first outcome that does not count as `truth` decides; otherwise it is `truth`. */
  ghost predicate LeftToRight(r: Try<bool>, ts: seq<Outcome>, truth: bool) {
    if forall i :: 0 <= i < |ts| ==>
      Counts(ts[i], truth) then r == Done(truth) else exists i :: DecidesAt(r, ts, truth, i)
  }

  /** `r` is what a left-to-right conjunction of `ts` comes to. */
  ghost predicate Conjunction(r: Try<bool>, ts: seq<Outcome>) { LeftToRight(r, ts, true) }

  /** `r` is what a left-to-right disjunction of `ts` comes to. */
  ghost predicate Disjunction(r: Try<bool>, ts: seq<Outcome>) { LeftToRight(r, ts, false) }

  function Combine(combinator: string, nodes: seq<Value>): Value {
    if |nodes| == 1 then nodes[0] else Dict(map[combinator := List(nodes)])
  }

  /** A comparison node between a field and an operand. */
  predicate LeafNode(node: Value) {
    node.Dict? && |node.m| == 1 && OnlyKey(node.m) != "and" && OnlyKey(node.m) != "or"
  }

  function EvalIn(d: Object): Value -> Outcome { (n: Value) => Eval(n, d) }

  lemma DecidedAt(r: Try<bool>, ts: seq<Outcome>, truth: bool, i: nat)
    requires DecidesAt(r, ts, truth, i)
    ensures LeftToRight(r, ts, truth)
  {
    hide Counts, AsSatisfied;
  }

  lemma LeftToRightCons(t: Outcome, rest: seq<Outcome>, r: Try<bool>, truth: bool)
    ensures !Counts(t, truth) ==> LeftToRight(AsSatisfied(t), [t] + rest, truth)
    ensures Counts(t, truth) && LeftToRight(r, rest, truth) ==> LeftToRight(r, [t] + rest, truth)
  {
    hide Counts, AsSatisfied, LeftToRight;
    var ts := [t] + rest;
    if !Counts(t, truth) {
      assert DecidesAt(AsSatisfied(t), ts, truth, 0);
      DecidedAt(AsSatisfied(t), ts, truth, 0);
    } else if LeftToRight(r, rest, truth) {
      LeftToRightShifts(t, rest, r, truth);
    }
  }

  lemma LeftToRightShifts(t: Outcome, rest: seq<Outcome>, r: Try<bool>, truth: bool)
    requires Counts(t, truth) && LeftToRight(r, rest, truth)
    ensures LeftToRight(r, [t] + rest, truth)
  {
    hide Counts, AsSatisfied;
    var ts := [t] + rest;
    assert forall i :: 0 <= i < |rest| ==> ts[i + 1] == rest[i];
    if forall i :: 0 <= i < |rest| ==> Counts(rest[i], truth) {
      assert forall i :: 0 <= i < |ts| ==> Counts(ts[i], truth);
    } else {
      var i: nat :| DecidesAt(r, rest, truth, i);
      assert forall j :: 0 <= j < i + 1 ==> Counts(ts[j], truth);
      assert DecidesAt(r, ts, truth, i + 1);
      DecidedAt(r, ts, truth, i + 1);
    }
  }

  lemma {:induction false} AllMeaning(nodes: seq<Value>, d: Object)
    ensures Conjunction(AsSatisfied(EvalAll(nodes, d)), Map(EvalIn(d), nodes))
  {
    hide Eval, LeftToRight, Truthy;
    if nodes == [] {
      NothingDecided(true);
    } else {
      AllMeaning(nodes[1..], d);
      assert Map(EvalIn(d), nodes) == [Eval(nodes[0], d)] + Map(EvalIn(d), nodes[1..]);
      LeftToRightCons(Eval(nodes[0], d), Map(EvalIn(d), nodes[1..]), AsSatisfied(EvalAll(nodes[1..], d)), true);
      BoolCounts(false);
    }
  }

  lemma {:induction false} AnyMeaning(nodes: seq<Value>, d: Object)
    ensures Disjunction(AsSatisfied(EvalAny(nodes, d)), Map(EvalIn(d), nodes))
  {
    hide Eval, LeftToRight, Truthy;
    if nodes == [] {
      NothingDecided(false);
    } else {
      AnyMeaning(nodes[1..], d);
      assert Map(EvalIn(d), nodes) == [Eval(nodes[0], d)] + Map(EvalIn(d), nodes[1..]);
      LeftToRightCons(Eval(nodes[0], d), Map(EvalIn(d), nodes[1..]), AsSatisfied(EvalAny(nodes[1..], d)), false);
      BoolCounts(true);
    }
  }

  lemma NothingDecided(truth: bool)
    ensures LeftToRight(AsSatisfied(Val(Bool(truth))), [], truth)
  {
  }

  lemma BoolCounts(b: bool)
    ensures AsSatisfied(Val(Bool(b))) == Done(b)
  {
  }

  /** A combined tree is the conjunction or disjunction of its nodes, also when there are none or one. */
  lemma CombineMeaning(conjunctive: bool, nodes: seq<Value>, d: Object)
    ensures var ts := Map(EvalIn(d), nodes); var r := Satisfied(Combine(if conjunctive then "and" else "or", nodes), d);
            if conjunctive then Conjunction(r, ts) else Disjunction(r, ts)
  {
    hide Eval, EvalAll, EvalAny, LeftToRight;
    var combinator := if conjunctive then "and" else "or";
    if |nodes| == 1 {
      OneDecides(Eval(nodes[0], d), conjunctive);
      assert Map(EvalIn(d), nodes) == [Eval(nodes[0], d)];
    } else {
      AllMeaning(nodes, d);
      AnyMeaning(nodes, d);
      EvalNode(combinator, List(nodes), d);
    }
  }

  lemma OneDecides(t: Outcome, truth: bool)
    ensures LeftToRight(AsSatisfied(t), [t], truth)
  {
    hide Truthy;
    assert [t][0] == t;
    if !Counts(t, truth) { assert DecidesAt(AsSatisfied(t), [t], truth, 0); }
  }

  lemma {:induction false} LeafSum(nodes: seq<Value>)
    requires forall n :: n in nodes ==> LeafNode(n)
    ensures SpecificitySum(nodes) == Some(|nodes|)
  {
    if nodes != [] {
      assert LeafNode(nodes[0]);
      LeafSum(nodes[1..]);
    }
  }

  lemma CombineSpecificity(combinator: string, nodes: seq<Value>)
    requires combinator == "and" || combinator == "or"
    requires forall n :: n in nodes ==> LeafNode(n)
    ensures Specificity(Combine(combinator, nodes)) == Some(|nodes|)
  {
    LeafSum(nodes);
    SingletonKey(map[combinator := List(nodes)]);
    if |nodes| == 1 { assert LeafNode(nodes[0]); }
  }

  /** Compiles each element, failing when one of them fails. */
  function CompileAll<T>(compile: T -> Try<Value>, cs: seq<T>): (r: Try<seq<Value>>)
    ensures r.Done? <==> forall i :: 0 <= i < |cs| ==> compile(cs[i]).Done?
    ensures r.Done? ==> |r.value| == |cs| && forall i :: 0 <= i < |cs| ==> compile(cs[i]) == Done(r.value[i])
  {
    if cs == [] then Done([])
    else
      match (compile(cs[0]), CompileAll(compile, cs[1..]))
      case (Done(n), Done(ns)) => Done([n] + ns)
      case _ => Raised
  }

  lemma FieldNode(op: Operator, field: string, right: Value, d: Object)
    requires !op.VarOp? && !op.AndOp? && !op.OrOp?
    ensures var node := Dict(map[Symbol(op) := List([VarNode(field), right])]);
            && LeafNode(node)
            && Eval(node, d) == (if op.InHolidayPeriod? then Val(Bool(Truthy(ReadField(d, field))))
                                 else if !Eval(right, d).Val? then Eval(right, d)
                                 else Binary(op, ReadField(d, field), Eval(right, d).value))
  {
    var args := List([VarNode(field), right]);
    EvalNode(Symbol(op), args, d);
    OperatorOfSymbol(Symbol(op), op);
    EvalNode("var", Str(field), d);
    assert Eval(args.items[0], d) == Val(ReadField(d, field));
    assert EvalOperand(args, 0, d) == Eval(args.items[0], d) && EvalOperand(args, 1, d) == Eval(right, d);
  }

  // ------------------------------------------------- customer_sla_rules_vast

  datatype VastCondition = VastCondition(field: string, op: string, value: Value)
  datatype When = When(all: Option<seq<VastCondition>>, any: Option<seq<VastCondition>>)

  function VastOperator(op: string): Option<Operator> {
    if op == "equals" then Some(Equals)
    else if op == "lte" then Some(Compare(Le))
    else if op == "gte" then Some(Compare(Ge))
    else if op == "lt" then Some(Compare(Lt))
    else if op == "gt" then Some(Compare(Gt))
    else if op == "in" then Some(InOp)
    else if op == "contains" then Some(ContainsOp)
    else if op == "in_holiday_period" then Some(InHolidayPeriod)
    else None
  }

  function VastNode(c: VastCondition): Try<Value> {
    match VastOperator(c.op)
    case None => Raised
    case Some(op) => Done(Dict(map[Symbol(op) := List([VarNode(c.field), c.value])]))
  }

  /** _when_to_jsonlogic */
  function WhenToJsonLogic(when: When): Try<Value> {
    match (when.all, when.any)
    case (Some(cs), _) =>
      (match CompileAll(VastNode, cs) case Done(nodes) => Done(Combine("and", nodes)) case Raised => Raised)
    case (None, Some(cs)) =>
      (match CompileAll(VastNode, cs) case Done(nodes) => Done(Combine("or", nodes)) case Raised => Raised)
    case _ => Raised
  }

  predicate VastCompare(op: string, actual: Value, target: Value) {
    if op == "equals" then PyEq(actual, target)
    else if op == "lte" then CompareValues(Le, actual, target)
    else if op == "gte" then CompareValues(Ge, actual, target)
    else if op == "lt" then CompareValues(Lt, actual, target)
    else if op == "gt" then CompareValues(Gt, actual, target)
    else if op == "in" then Member(actual, target)
    else Member(target, actual)
  }

  /** The authoring format's own meaning of one condition. A holiday condition has no right-hand side; elsewhere a
      dictionary on the right is itself a tree, whose failure is the condition's. */
  function VastOutcome(c: VastCondition, d: Object): Outcome {
    var actual := ReadField(d, c.field);
    if c.op == "in_holiday_period" then Val(Bool(Truthy(actual)))
    else match Eval(c.value, d) case Val(target) => Val(Bool(VastCompare(c.op, actual, target))) case failure => failure
  }

  function VastIn(d: Object): VastCondition -> Outcome { (c: VastCondition) => VastOutcome(c, d) }

  lemma VastBinary(c: VastCondition, op: Operator, actual: Value, target: Value)
    requires VastOperator(c.op) == Some(op)
    ensures op.InHolidayPeriod? <==> c.op == "in_holiday_period"
    ensures !op.VarOp? && !op.AndOp? && !op.OrOp?
    ensures !op.InHolidayPeriod? ==> Binary(op, actual, target) == Val(Bool(VastCompare(c.op, actual, target)))
  {
  }

  lemma VastNodeMeaning(c: VastCondition, d: Object)
    requires VastOperator(c.op).Some?
    ensures Eval(VastNode(c).value, d) == VastOutcome(c, d)
    ensures LeafNode(VastNode(c).value)
  {
    hide Eval, VastOperator, Binary, VastCompare;
    var op := VastOperator(c.op).value;
    var target := if Eval(c.value, d).Val? then Eval(c.value, d).value else Null;
    VastBinary(c, op, ReadField(d, c.field), target);
    FieldNode(op, c.field, c.value, d);
  }

  /** Compilation fails exactly on an unknown operator or a `when` with neither list. */
  lemma VastCompiles(when: When)
    ensures WhenToJsonLogic(when).Done? <==>
            match (when.all, when.any)
            case (Some(cs), _) => forall c :: c in cs ==> VastOperator(c.op).Some?
            case (None, Some(cs)) => forall c :: c in cs ==> VastOperator(c.op).Some?
            case _ => false
  {
    match (when.all, when.any)
    case (Some(cs), _) =>
      assert forall i :: 0 <= i < |cs| ==> (VastNode(cs[i]).Done? <==> VastOperator(cs[i].op).Some?);
    case (None, Some(cs)) =>
      assert forall i :: 0 <= i < |cs| ==> (VastNode(cs[i]).Done? <==> VastOperator(cs[i].op).Some?);
    case _ =>
  }

  /** The conditions a `when` block compiles. */
  function Listed(when: When): seq<VastCondition>
    requires when.all.Some? || when.any.Some?
  {
    if when.all.Some? then when.all.value else when.any.value
  }

  /** The compiled tree is the conjunction (for `any` the disjunction) of the source conditions, failures included, and
      counts one leaf for each. */
  lemma VastMeaning(when: When, d: Object)
    requires WhenToJsonLogic(when).Done?
    ensures when.all.Some? || when.any.Some?
    ensures var tree := WhenToJsonLogic(when).value; var ts := Map(VastIn(d), Listed(when));
            && Specificity(tree) == Some(|Listed(when)|)
            && if when.all.Some? then Conjunction(Satisfied(tree, d), ts) else Disjunction(Satisfied(tree, d), ts)
  {
    hide Eval, VastOutcome, LeafNode, VastNode, Satisfied, Specificity, LeftToRight, Combine;
    var cs := Listed(when);
    var nodes := CompileAll(VastNode, cs).value;
    forall i | 0 <= i < |nodes| ensures LeafNode(nodes[i]) && Eval(nodes[i], d) == VastOutcome(cs[i], d) {
      VastCompiled(cs, nodes, i, d);
    }
    assert Map(EvalIn(d), nodes) == Map(VastIn(d), cs);
    CombineMeaning(when.all.Some?, nodes, d);
    CombineSpecificity(if when.all.Some? then "and" else "or", nodes);
  }

  lemma VastCompiled(cs: seq<VastCondition>, nodes: seq<Value>, i: nat, d: Object)
    requires CompileAll(VastNode, cs) == Done(nodes) && i < |nodes|
    ensures LeafNode(nodes[i]) && Eval(nodes[i], d) == VastOutcome(cs[i], d)
  {
    hide Eval, VastOperator, LeafNode, VastOutcome;
    assert VastNode(cs[i]) == Done(nodes[i]);
    VastNodeMeaning(cs[i], d);
  }

  /** A condition whose literal is no dictionary simply holds or does not. */
  predicate VastHolds(c: VastCondition, d: Object) {
    if c.op == "in_holiday_period" then Truthy(ReadField(d, c.field))
      else VastCompare(c.op, ReadField(d, c.field), c.value)
  }

  /** With such literals the tree is satisfied exactly when all (any) of the source conditions hold. */
  lemma VastPlainMeaning(when: When, d: Object)
    requires WhenToJsonLogic(when).Done?
    requires (when.all.Some? || when.any.Some?) && forall c :: c in Listed(when) ==> !c.value.Dict?
    ensures Satisfied(WhenToJsonLogic(when).value, d) ==
            Done(if when.all.Some? then forall c :: c in Listed(when) ==> VastHolds(c, d)
                 else exists c :: c in Listed(when) && VastHolds(c, d))
  {
    hide WhenToJsonLogic, Satisfied, Specificity, VastCompare, ReadField;
    VastMeaning(when, d);
    var cs, ts := Listed(when), Map(VastIn(d), Listed(when));
    forall i | 0 <= i < |cs| ensures ts[i] == Val(Bool(VastHolds(cs[i], d))) { assert cs[i] in cs; }
  }

  // ---------------------------------------------- customer_sla_rules_telecom

  datatype SlaCondition = SlaCondition(field: string, operator: string, value: Value)

  function SlaOperator(operator: string): Option<Operator> {
    if operator == "equals" then Some(Equals)
    else if operator == "notEquals" then Some(NotEquals)
    else if operator == "in" then Some(InOp)
    else if operator == "greaterThan" then Some(Compare(Gt))
    else if operator == "greaterThanOrEqual" then Some(Compare(Ge))
    else if operator == "lessThan" then Some(Compare(Lt))
    else if operator == "lessThanOrEqual" then Some(Compare(Le))
    else None
  }

  function UpTo(s: string, c: char): string { if s == "" || s[0] == c then "" else [s[0]] + UpTo(s[1..], c) }

  function Power10(n: nat): (r: real)
    ensures r > 0.0
  {
    if n == 0 then 1.0 else 10.0 * Power10(n - 1)
  }

  /** `float(s)` on a plain decimal literal. */
  function ParseDecimal(s: string): Option<real> {
    var negative := s != "" && s[0] == '-';
    var body := if s != "" && (s[0] == '-' || s[0] == '+') then s[1..] else s;
    var whole := UpTo(body, '.');
    var fraction := if |whole| < |body| then body[|whole| + 1..] else "";
    if !Digits(whole) || !Digits(fraction) || whole + fraction == "" then None
    else
      var magnitude := DigitsValue(whole) as real + DigitsValue(fraction) as real / Power10(|fraction|);
      Some(if negative then -magnitude else magnitude)
  }

  predicate IsFormula(value: Value) { value.Str? && '*' in value.s }

  function FormulaField(s: string): string { Trim(UpTo(s, '*')) }

  /** The multiplier; None when Python's float() rejects it. */
  function FormulaFactor(s: string): Option<real>
    requires '*' in s
  {
    StarPosition(s);
    ParseDecimal(Trim(s[|UpTo(s, '*')| + 1..]))
  }

  lemma {:induction false} StarPosition(s: string)
    requires '*' in s
    ensures |UpTo(s, '*')| < |s|
  {
    if s[0] != '*' { StarPosition(s[1..]); }
  }

  function SlaRight(value: Value): Try<Value> {
    if !IsFormula(value) then Done(value)
    else
      match FormulaFactor(value.s)
      case None => Raised
      case Some(k) => Done(Dict(map["*" := List([VarNode(FormulaField(value.s)), Float(k)])]))
  }

  function SlaNode(c: SlaCondition): Try<Value> {
    match (SlaOperator(c.operator), SlaRight(c.value))
    case (Some(op), Done(right)) => Done(Dict(map[Symbol(op) := List([VarNode(c.field), right])]))
    case _ => Raised
  }

  /** _conditions_to_jsonlogic */
  function ConditionsToJsonLogic(cs: seq<SlaCondition>, logicalOperator: string): Try<Value> {
    match CompileAll(SlaNode, cs)
    case Raised => Raised
    case Done(nodes) => Done(Combine(if Upper(logicalOperator) == "AND" then "and" else "or", nodes))
  }

  /** The right-hand side of a condition: "<field> * <number>" computed from the incident, or a literal, where a
      dictionary is itself a tree. */
  function SlaTarget(value: Value, d: Object): Outcome {
    if IsFormula(value) && FormulaFactor(value.s).Some?
    then Product(ReadField(d, FormulaField(value.s)), Float(FormulaFactor(value.s).value))
    else Eval(value, d)
  }

  predicate SlaCompare(operator: string, actual: Value, target: Value) {
    if operator == "equals" then PyEq(actual, target)
    else if operator == "notEquals" then !PyEq(actual, target)
    else if operator == "in" then Member(actual, target)
    else if operator == "greaterThan" then CompareValues(Gt, actual, target)
    else if operator == "greaterThanOrEqual" then CompareValues(Ge, actual, target)
    else if operator == "lessThan" then CompareValues(Lt, actual, target)
    else CompareValues(Le, actual, target)
  }

  /** The authoring format's own meaning of one condition; a formula over a non-number raises. */
  function SlaOutcome(c: SlaCondition, d: Object): Outcome {
    match SlaTarget(c.value, d)
    case Val(target) => Val(Bool(SlaCompare(c.operator, ReadField(d, c.field), target)))
    case failure => failure
  }

  function SlaIn(d: Object): SlaCondition -> Outcome { (c: SlaCondition) => SlaOutcome(c, d) }

  lemma SlaRightMeaning(value: Value, d: Object)
    requires SlaRight(value).Done?
    ensures Eval(SlaRight(value).value, d) == SlaTarget(value, d)
  {
    hide ParseDecimal, FormulaField, FormulaFactor, Product, ReadField;
    if IsFormula(value) {
      FieldNode(Multiply, FormulaField(value.s), Float(FormulaFactor(value.s).value), d);
    }
  }

  lemma SlaBinary(operator: string, op: Operator, actual: Value, target: Value)
    requires SlaOperator(operator) == Some(op)
    ensures op.Compare? || op.Equals? || op.NotEquals? || op.InOp?
    ensures Binary(op, actual, target) == Val(Bool(SlaCompare(operator, actual, target)))
  {
  }

  lemma SlaNodeMeaning(c: SlaCondition, d: Object)
    requires SlaNode(c).Done?
    ensures LeafNode(SlaNode(c).value) && Eval(SlaNode(c).value, d) == SlaOutcome(c, d)
  {
    hide Eval, SlaTarget, SlaRight, SlaOperator, SlaCompare, Binary;
    var op, right := SlaOperator(c.operator).value, SlaRight(c.value).value;
    var target := if SlaTarget(c.value, d).Val? then SlaTarget(c.value, d).value else Null;
    SlaBinary(c.operator, op, ReadField(d, c.field), target);
    SlaRightMeaning(c.value, d);
    FieldNode(op, c.field, right, d);
  }

  /** The compiled tree is the AND (else the OR) of the source conditions, failing where they fail, and counts one leaf
      for each. */
  lemma SlaMeaning(cs: seq<SlaCondition>, logicalOperator: string, d: Object)
    requires ConditionsToJsonLogic(cs, logicalOperator).Done?
    ensures var tree := ConditionsToJsonLogic(cs, logicalOperator).value; var ts := Map(SlaIn(d), cs);
            && Specificity(tree) == Some(|cs|)
            && if Upper(logicalOperator) == "AND" then Conjunction(Satisfied(tree, d), ts)
               else Disjunction(Satisfied(tree, d), ts)
  {
    hide Eval, SlaOutcome, LeafNode, SlaNode, Satisfied, Specificity, LeftToRight, Combine, Upper;
    var conjunctive := Upper(logicalOperator) == "AND";
    var nodes := CompileAll(SlaNode, cs).value;
    forall i | 0 <= i < |nodes| ensures LeafNode(nodes[i]) && Eval(nodes[i], d) == SlaOutcome(cs[i], d) {
      assert SlaNode(cs[i]) == Done(nodes[i]);
      SlaNodeMeaning(cs[i], d);
    }
    assert Map(EvalIn(d), nodes) == Map(SlaIn(d), cs);
    CombineMeaning(conjunctive, nodes, d);
    CombineSpecificity(if conjunctive then "and" else "or", nodes);
  }

  /** A left-to-right reading has exactly one result, so the meanings above fix what a compiled tree comes to. */
  lemma ConnectiveUnique(a: Try<bool>, b: Try<bool>, ts: seq<Outcome>, truth: bool)
    ensures LeftToRight(a, ts, truth) && LeftToRight(b, ts, truth) ==> a == b
  {
    hide Truthy, Counts;
    if LeftToRight(a, ts, truth) && LeftToRight(b, ts, truth) && exists k :: 0 <= k < |ts| && !Counts(ts[k], truth) {
      var i: nat :| DecidesAt(a, ts, truth, i);
      var k: nat :| DecidesAt(b, ts, truth, k);
      assert i == k;
    }
  }
}
