/** What each operator gives on plain operands, said in Dafny's own arithmetic, equality and order. */
module OperatorTheorems {
  import opened Common
  import opened Values
  import opened Engine
  import opened EngineLaws

  // ----------------------------------------------------------- operator nodes

  /** `{symbol: [left, right]}` */
  function Applied(symbol: string, left: Value, right: Value): Value { Dict(map[symbol := List([left, right])]) }

  /** The operand trees evaluate to these values. */
  predicate Gives(left: Value, x: Value, right: Value, y: Value, data: Object) {
    Eval(left, data) == Val(x) && Eval(right, data) == Val(y)
  }

  predicate Answers(symbol: string, left: Value, right: Value, data: Object, answer: bool) {
    Eval(Applied(symbol, left, right), data) == Val(Bool(answer))
  }

  lemma ComparisonNodes(left: Value, x: Value, right: Value, y: Value, data: Object)
    requires Gives(left, x, right, y, data)
    ensures Answers(">", left, right, data, CompareValues(Gt, x, y))
    ensures Answers("<", left, right, data, CompareValues(Lt, x, y))
    ensures Answers(">=", left, right, data, CompareValues(Ge, x, y))
    ensures Answers("<=", left, right, data, CompareValues(Le, x, y))
  {
    hide Eval, CompareValues;
    BinaryNode(Compare(Gt), left, right, data);
    BinaryNode(Compare(Lt), left, right, data);
    BinaryNode(Compare(Ge), left, right, data);
    BinaryNode(Compare(Le), left, right, data);
  }

  lemma OtherNodes(left: Value, x: Value, right: Value, y: Value, data: Object)
    requires Gives(left, x, right, y, data)
    ensures Answers("==", left, right, data, PyEq(x, y)) && Answers("!=", left, right, data, !PyEq(x, y))
    ensures Answers("in", left, right, data, Member(x, y)) && Answers("contains", left, right, data, Member(y, x))
    ensures Eval(Applied("*", left, right), data) == Product(x, y)
  {
    hide Eval, PyEq, Member, Product;
    BinaryNode(Equals, left, right, data);
    BinaryNode(NotEquals, left, right, data);
    BinaryNode(InOp, left, right, data);
    BinaryNode(ContainsOp, left, right, data);
    BinaryNode(Multiply, left, right, data);
  }

  // ----------------------------------------------------------------- equality

  /** The kinds of values that operators tell apart. */
  datatype Kind = Missing | Numeric | Text | Sequence | Mapping

  function KindOf(v: Value): Kind {
    match v
    case Null => Missing case Bool(_) => Numeric case Int(_) => Numeric case Float(_) => Numeric
    case Str(_) => Text case List(_) => Sequence case Dict(_) => Mapping
  }

  lemma CanonList(xs: seq<Value>, ys: seq<Value>)
    ensures PyEq(List(xs), List(ys)) <==> |xs| == |ys| && forall i :: 0 <= i < |xs| ==> PyEq(xs[i], ys[i])
  {
    var cs, ds := Canon(List(xs)).items, Canon(List(ys)).items;
    assert |cs| == |xs| && |ds| == |ys|;
    if |xs| == |ys| && forall i :: 0 <= i < |xs| ==> PyEq(xs[i], ys[i]) {
      assert forall i :: 0 <= i < |cs| ==> cs[i] == ds[i];
      assert cs == ds;
    }
    if cs == ds {
      forall i | 0 <= i < |xs| ensures PyEq(xs[i], ys[i]) { assert cs[i] == ds[i]; }
    }
  }

  lemma CanonDict(m: Object, n: Object)
    ensures PyEq(Dict(m), Dict(n)) <==> m.Keys == n.Keys && forall k :: k in m ==> k in n && PyEq(m[k], n[k])
  {
    var c, d := Canon(Dict(m)).m, Canon(Dict(n)).m;
    assert c.Keys == m.Keys && d.Keys == n.Keys;
    if c == d { forall k | k in m ensures k in n && PyEq(m[k], n[k]) { assert k in c && c[k] == d[k]; } }
  }

  /** The number a boolean, an integer or a float is. */
  function Amount(v: Value): real
    requires KindOf(v).Numeric?
  {
    match v case Bool(b) => if b then 1.0 else 0.0 case Int(i) => i as real case Float(r) => r
  }

  /** Numbers are the same by value whatever their types, texts as they are, lists and dictionaries by what they hold,
      and different kinds never. */
  predicate Same(x: Value, y: Value)
    decreases x
  {
    match (x, y)
    case (Null, Null) => true
    case (Str(a), Str(b)) => a == b
    case (List(xs), List(ys)) => |xs| == |ys| && forall i :: 0 <= i < |xs| ==> Same(xs[i], ys[i])
    case (Dict(m), Dict(n)) => m.Keys == n.Keys && forall k :: k in m ==> Same(m[k], n[k])
    case _ => KindOf(x).Numeric? && KindOf(y).Numeric? && Amount(x) == Amount(y)
  }

  lemma {:induction false} PyEqSame(x: Value, y: Value)
    ensures PyEq(x, y) <==> Same(x, y)
    decreases x
  {
    match (x, y)
    case (List(xs), List(ys)) =>
      CanonList(xs, ys);
      forall i | 0 <= i < |xs| && i < |ys| ensures PyEq(xs[i], ys[i]) <==> Same(xs[i], ys[i]) {
        PyEqSame(xs[i], ys[i]);
      }
    case (Dict(m), Dict(n)) =>
      CanonDict(m, n);
      forall k | k in m && k in n ensures PyEq(m[k], n[k]) <==> Same(m[k], n[k]) { PyEqSame(m[k], n[k]); }
    case _ =>
  }

  lemma EqualityIs(left: Value, x: Value, right: Value, y: Value, data: Object)
    requires Gives(left, x, right, y, data)
    ensures Answers("==", left, right, data, Same(x, y)) && Answers("!=", left, right, data, !Same(x, y))
  {
    hide Eval, Same, PyEq;
    OtherNodes(left, x, right, y, data);
    PyEqSame(x, y);
  }

  // -------------------------------------------------------------- comparisons

  /** All four comparison operators answer as these four truths. */
  predicate Compares(left: Value, right: Value, data: Object, gt: bool, lt: bool, ge: bool, le: bool) {
    && Answers(">", left, right, data, gt) && Answers("<", left, right, data, lt)
    && Answers(">=", left, right, data, ge) && Answers("<=", left, right, data, le)
  }

  lemma ComparesInts(left: Value, m: int, right: Value, n: int, data: Object)
    requires Gives(left, Int(m), right, Int(n), data)
    ensures Compares(left, right, data, m > n, m < n, m >= n, m <= n)
  {
    hide Eval;
    ComparisonNodes(left, Int(m), right, Int(n), data);
  }

  lemma ComparesReals(left: Value, x: real, right: Value, y: real, data: Object)
    requires Gives(left, Float(x), right, Float(y), data)
    ensures Compares(left, right, data, x > y, x < y, x >= y, x <= y)
  {
    hide Eval;
    ComparisonNodes(left, Float(x), right, Float(y), data);
  }

  /** Integers and floats compare as numbers, in either place. */
  lemma ComparesMixed(left: Value, m: int, right: Value, y: real, data: Object)
    requires Gives(left, Int(m), right, Float(y), data)
    ensures var x := m as real;
            && Compares(left, right, data, x > y, x < y, x >= y, x <= y)
            && Compares(right, left, data, y > x, y < x, y >= x, y <= x)
  {
    hide Eval;
    ComparisonNodes(left, Int(m), right, Float(y), data);
    ComparisonNodes(right, Float(y), left, Int(m), data);
  }

  /** A proper prefix comes first; otherwise the first differing character decides. */
  ghost predicate Precedes(a: string, b: string) { a < b || exists k :: SmallerAt(a, b, k) }

  predicate SmallerAt(a: string, b: string, k: int) { 0 <= k < |a| && k < |b| && a[..k] == b[..k] && a[k] < b[k] }

  lemma {:induction false} StrLessPrecedes(a: string, b: string)
    ensures StrLess(a, b) <==> Precedes(a, b)
  {
    if a == [] || b == [] {
      assert forall k :: !SmallerAt(a, b, k);
      assert a == [] ==> (a < b <==> b != []);
    } else if a[0] == b[0] {
      StrLessPrecedes(a[1..], b[1..]);
      PrecedesTail(a, b);
    } else {
      assert a[..0] == b[..0] && (SmallerAt(a, b, 0) <==> a[0] < b[0]);
      forall k | k > 0 ensures !SmallerAt(a, b, k) {
        if k < |a| && k < |b| { assert a[..k][0] == a[0] && b[..k][0] == b[0]; }
      }
    }
  }

  lemma SmallerTail(a: string, b: string, k: int)
    requires a != [] && b != [] && a[0] == b[0] && k > 0
    ensures SmallerAt(a, b, k) <==> SmallerAt(a[1..], b[1..], k - 1)
  {
    if k < |a| && k < |b| {
      assert a[..k] == [a[0]] + a[1..][..k - 1] && b[..k] == [b[0]] + b[1..][..k - 1];
      assert a[..k][1..] == a[1..][..k - 1] && b[..k][1..] == b[1..][..k - 1];
    }
  }

  lemma PrecedesTail(a: string, b: string)
    requires a != [] && b != [] && a[0] == b[0]
    ensures Precedes(a, b) <==> Precedes(a[1..], b[1..])
  {
    assert a == [a[0]] + a[1..] && b == [b[0]] + b[1..];
    assert a < b <==> a[1..] < b[1..];
    if k :| SmallerAt(a, b, k) { SmallerTail(a, b, k); }
    if k :| SmallerAt(a[1..], b[1..], k) {
      SmallerTail(a, b, k + 1);
      assert SmallerAt(a, b, k + 1);
    }
  }

  lemma ComparesStrings(left: Value, a: string, right: Value, b: string, data: Object)
    requires Gives(left, Str(a), right, Str(b), data)
    ensures Compares(left, right, data, Precedes(b, a), Precedes(a, b), !Precedes(a, b), !Precedes(b, a))
  {
    hide Eval, Precedes, StrLess;
    ComparisonNodes(left, Str(a), right, Str(b), data);
    StrLessPrecedes(a, b);
    StrLessPrecedes(b, a);
  }

  lemma {:induction false} ListsFrom(rel: Relation, xs: seq<Value>, ys: seq<Value>, k: nat)
    requires k <= |xs| && k <= |ys| && forall i :: 0 <= i < k ==> PyEq(xs[i], ys[i])
    ensures OrderedLists(rel, xs, ys) ==
            if k == |xs| || k == |ys| then Some(Holds(rel, |xs| as real, |ys| as real))
            else if PyEq(xs[k], ys[k]) then OrderedLists(rel, xs, ys) else Ordered(rel, xs[k], ys[k])
    decreases k
  {
    if k > 0 {
      ListsFrom(rel, xs[1..], ys[1..], k - 1);
      assert Holds(rel, |xs| as real, |ys| as real) == Holds(rel, |xs[1..]| as real, |ys[1..]| as real);
    }
  }

  /** Lists with equal elements until one runs out: the shorter one is the smaller. */
  lemma ComparesPrefixes(left: Value, xs: seq<Value>, right: Value, ys: seq<Value>, data: Object)
    requires Gives(left, List(xs), right, List(ys), data)
    requires forall i :: 0 <= i < |xs| && i < |ys| ==> Same(xs[i], ys[i])
    ensures Compares(left, right, data, |xs| > |ys|, |xs| < |ys|, |xs| >= |ys|, |xs| <= |ys|)
  {
    hide Eval, OrderedLists, PyEq, Same;
    ComparisonNodes(left, List(xs), right, List(ys), data);
    forall i | 0 <= i < |xs| && i < |ys| ensures PyEq(xs[i], ys[i]) { PyEqSame(xs[i], ys[i]); }
    var k := if |xs| < |ys| then |xs| else |ys|;
    ListsFrom(Gt, xs, ys, k);
    ListsFrom(Lt, xs, ys, k);
    ListsFrom(Ge, xs, ys, k);
    ListsFrom(Le, xs, ys, k);
  }

  lemma NothingOrdersNull(x: Value, y: Value)
    ensures x.Null? || y.Null? ==> forall rel :: Ordered(rel, x, y).None?
  {
  }

  /** Lists that first differ at place k compare as their elements there do. */
  lemma ComparesLists(left: Value, xs: seq<Value>, right: Value, ys: seq<Value>, k: nat, l: Value, r: Value,
                      data: Object)
    requires Gives(left, List(xs), right, List(ys), data)
    requires k < |xs| && k < |ys| && !Same(xs[k], ys[k]) && forall i :: 0 <= i < k ==> Same(xs[i], ys[i])
    requires Gives(l, xs[k], r, ys[k], data)
    ensures Eval(Applied(">", left, right), data) == Eval(Applied(">", l, r), data)
    ensures Eval(Applied("<", left, right), data) == Eval(Applied("<", l, r), data)
    ensures Eval(Applied(">=", left, right), data) == Eval(Applied(">=", l, r), data)
    ensures Eval(Applied("<=", left, right), data) == Eval(Applied("<=", l, r), data)
  {
    hide Eval, OrderedLists, PyEq, Same;
    PyEqSame(xs[k], ys[k]);
    forall i | 0 <= i < k ensures PyEq(xs[i], ys[i]) { PyEqSame(xs[i], ys[i]); }
    ComparisonNodes(left, List(xs), right, List(ys), data);
    ComparisonNodes(l, xs[k], r, ys[k], data);
    ListsFrom(Gt, xs, ys, k);
    ListsFrom(Lt, xs, ys, k);
    ListsFrom(Ge, xs, ys, k);
    ListsFrom(Le, xs, ys, k);
    NothingOrdersNull(xs[k], ys[k]);
  }

  /** A missing operand, operands of different kinds and dictionaries compare false with every operator. */
  lemma ComparesNothing(left: Value, x: Value, right: Value, y: Value, data: Object)
    requires Gives(left, x, right, y, data)
    requires KindOf(x) != KindOf(y) || KindOf(x).Missing? || KindOf(x).Mapping?
    ensures Compares(left, right, data, false, false, false, false)
  {
    hide Eval;
    ComparisonNodes(left, x, right, y, data);
  }

  // -------------------------------------------------------------------- truth

  /** What counts as true: all but nothing, false, zero and what is empty. */
  predicate CountsAsTrue(v: Value) {
    match KindOf(v)
    case Missing => false
    case Numeric => Amount(v) != 0.0
    case Text => |v.s| > 0
    case Sequence => |v.items| > 0
    case Mapping => exists k :: k in v.m
  }

  lemma TruthyCounts(v: Value)
    ensures Truthy(v) <==> CountsAsTrue(v)
  {
  }

  /** A lone operand of `and` or `or` gives its truth. */
  lemma TruthIs(tree: Value, v: Value, data: Object)
    requires Eval(tree, data) == Val(v)
    ensures Eval(Dict(map["and" := List([tree])]), data) == Val(Bool(CountsAsTrue(v)))
    ensures Eval(Dict(map["or" := List([tree])]), data) == Val(Bool(CountsAsTrue(v)))
  {
    hide Eval, CountsAsTrue;
    EvalNode("and", List([tree]), data);
    EvalNode("or", List([tree]), data);
    OperatorOfSymbol("and", AndOp);
    OperatorOfSymbol("or", OrOp);
    TruthyCounts(v);
    assert [tree][1..] == [];
    assert EvalAll([], data) == Val(Bool(true)) && EvalAny([], data) == Val(Bool(false));
  }

  // --------------------------------------------------------------- membership

  /** `text` has `needle` somewhere. */
  ghost predicate HasInside(text: string, needle: string) { exists i :: OccursAt(text, needle, i) }

  predicate OccursAt(text: string, needle: string, i: int) {
    0 <= i <= |text| - |needle| && text[i..i + |needle|] == needle
  }

  lemma SliceOfTail(text: string, i: int, j: int)
    requires 0 < i <= j <= |text|
    ensures text[i..j] == text[1..][i - 1..j - 1]
  {
    var a, b := text[i..j], text[1..][i - 1..j - 1];
    assert |a| == |b|;
    forall k | 0 <= k < |a| ensures a[k] == b[k] { assert a[k] == text[i + k] && b[k] == text[1..][i - 1 + k]; }
  }

  lemma {:induction false} ContainsHasInside(text: string, needle: string)
    ensures Contains(text, needle) <==> HasInside(text, needle)
  {
    assert needle <= text <==> OccursAt(text, needle, 0);
    if text != "" {
      ContainsHasInside(text[1..], needle);
      forall i | i > 0 ensures OccursAt(text, needle, i) <==> OccursAt(text[1..], needle, i - 1) {
        if i <= |text| - |needle| { SliceOfTail(text, i, i + |needle|); }
      }
      if i :| OccursAt(text[1..], needle, i) { assert OccursAt(text, needle, i + 1); }
    }
  }

  ghost predicate IsIn(x: Value, y: Value) {
    match y
    case List(ys) => exists i :: 0 <= i < |ys| && Same(x, ys[i])
    case Str(text) => x.Str? && HasInside(text, x.s)
    case Dict(m) => x.Str? && x.s in m
    case _ => false
  }

  /** `in` looks for an equal element of a list, a substring of a text, a key of a dictionary; nothing is in anything
      else, and a missing needle is in nothing. `contains` is the same with its operands swapped. */
  lemma MembershipIs(left: Value, x: Value, right: Value, y: Value, data: Object)
    requires Gives(left, x, right, y, data)
    ensures exists found ::
              && Answers("in", left, right, data, found) && Answers("contains", right, left, data, found)
              && (found <==> !x.Null? && IsIn(x, y))
  {
    hide Eval, PyEq, Same, Contains, HasInside;
    OtherNodes(left, x, right, y, data);
    OtherNodes(right, y, left, x, data);
    if x.Str? && y.Str? { ContainsHasInside(y.s, x.s); }
    assert Answers("in", left, right, data, Member(x, y));
    if y.List? {
      forall i | 0 <= i < |y.items| ensures PyEq(x, y.items[i]) <==> Same(x, y.items[i]) { PyEqSame(x, y.items[i]); }
      assert forall i :: 0 <= i < |y.items| ==> y.items[i] in y.items;
    }
  }

  // ----------------------------------------------------------------- products

  /** `n` copies of `s`, one after the other; none if `n` is not positive. */
  predicate Copies<T(==)>(r: seq<T>, s: seq<T>, n: int) {
    |r| == (if n <= 0 then 0 else n * |s|) && forall i :: 0 <= i < |r| ==> RepeatsAt(r, s, i)
  }

  predicate RepeatsAt<T(==)>(r: seq<T>, s: seq<T>, i: int)
    requires 0 <= i < |r|
  {
    r[i] == if i < |s| then s[i] else r[i - |s|]
  }

  lemma {:induction false} RepeatCopies<T>(s: seq<T>, n: int)
    ensures Copies(Repeat(s, n), s, n)
    decreases if n > 0 then n else 0
  {
    if n > 0 {
      RepeatCopies(s, n - 1);
      CopiesOneMore(Repeat(s, n - 1), s, n);
    }
  }

  lemma CopiesOneMore<T>(rest: seq<T>, s: seq<T>, n: int)
    requires n > 0 && Copies(rest, s, n - 1)
    ensures Copies(s + rest, s, n)
  {
    assert (n - 1) * |s| + |s| == n * |s|;
    forall i | 0 <= i < |s + rest| ensures RepeatsAt(s + rest, s, i) {
      if i >= |s| { assert RepeatsAt(rest, s, i - |s|); }
    }
  }

  lemma ProductOfNumbers(x: Value, y: Value, a: real, b: real)
    requires Number(x) == Some(a) && Number(y) == Some(b) && (x.Float? || y.Float?)
    ensures Product(x, y) == Val(Float(a * b))
  {
    assert Times(a, b) == a * b;
  }

  lemma ProductOfInts(m: int, n: int)
    ensures Product(Int(m), Int(n)) == Val(Int(m * n))
  {
    assert Count(Int(m)) == Some(m) && Count(Int(n)) == Some(n);
  }

  lemma ProductOfOthers(x: Value, y: Value)
    ensures x.Null? || y.Null? ==> Product(x, y) == Val(Null)
    ensures x.Str? && y.Int? ==> Product(x, y) == Val(Str(Repeat(x.s, y.i)))
    ensures x.List? && y.Int? ==> Product(x, y) == Val(List(Repeat(x.items, y.i)))
    ensures KindOf(x) != Numeric && KindOf(y) != Numeric && !x.Null? && !y.Null? ==> Product(x, y) == OtherErr
  {
  }

  /** `*` multiplies integers to an integer, and numbers one of which is a float to a float. */
  lemma MultipliesInts(left: Value, m: int, right: Value, n: int, data: Object)
    requires Gives(left, Int(m), right, Int(n), data)
    ensures Eval(Applied("*", left, right), data) == Val(Int(m * n))
  {
    hide Eval, Product;
    OtherNodes(left, Int(m), right, Int(n), data);
    ProductOfInts(m, n);
  }

  lemma MultipliesFloats(left: Value, x: real, right: Value, y: real, data: Object)
    requires Gives(left, Float(x), right, Float(y), data)
    ensures Eval(Applied("*", left, right), data) == Val(Float(x * y))
  {
    hide Eval, Product;
    OtherNodes(left, Float(x), right, Float(y), data);
    ProductOfNumbers(Float(x), Float(y), x, y);
  }

  lemma MultipliesMixed(left: Value, m: int, x: real, right: Value, y: real, data: Object)
    requires Gives(left, Int(m), right, Float(y), data) && x == m as real
    ensures Eval(Applied("*", left, right), data) == Val(Float(x * y))
    ensures Eval(Applied("*", right, left), data) == Val(Float(y * x))
  {
    hide Eval, Product;
    OtherNodes(left, Int(m), right, Float(y), data);
    OtherNodes(right, Float(y), left, Int(m), data);
    ProductOfNumbers(Int(m), Float(y), x, y);
    ProductOfNumbers(Float(y), Int(m), y, x);
  }

  /** It repeats a text or a list, gives nothing for a missing factor, and raises when neither factor is a number. */
  lemma MultipliesOthers(left: Value, x: Value, right: Value, y: Value, data: Object)
    requires Gives(left, x, right, y, data)
    ensures var product := Eval(Applied("*", left, right), data);
            && (x.Null? || y.Null? ==> product == Val(Null))
            && (x.Str? && y.Int? ==> product.Val? && product.value.Str? && Copies(product.value.s, x.s, y.i))
            && (x.List? && y.Int? ==>
                 product.Val? && product.value.List? && Copies(product.value.items, x.items, y.i))
            && (KindOf(x) != Numeric && KindOf(y) != Numeric && !x.Null? && !y.Null? ==> product == OtherErr)
  {
    hide Eval, Product;
    OtherNodes(left, x, right, y, data);
    if x.Str? && y.Int? { RepeatCopies(x.s, y.i); }
    if x.List? && y.Int? { RepeatCopies(x.items, y.i); }
    ProductOfOthers(x, y);
  }

  // -------------------------------------------------------------------- paths

  function Var(path: string): Value { Dict(map["var" := Str(path)]) }

  lemma VarReads(path: string, data: Object)
    ensures Eval(Var(path), data) == Val(if path == "" then Dict(data) else Lookup(data, path))
  {
    hide Lookup;
    EvalNode("var", Str(path), data);
    OperatorOfSymbol("var", VarOp);
  }

  lemma {:induction false} WalkFurther(current: Value, parts: seq<string>, name: string)
    ensures Walk(current, parts + [name]) == Walk(Walk(current, parts), [name])
    decreases parts
  {
    if parts == [] {
      assert parts + [name] == [name];
    } else {
      assert (parts + [name])[1..] == parts[1..] + [name];
      if current.Dict? && parts[0] in current.m { WalkFurther(current.m[parts[0]], parts[1..], name); }
    }
  }

  /** A variable of one name reads that key, null if it is absent; one name more reads on in what was read before, null
      unless that is a dictionary that has it. */
  lemma VariablesRead(parts: seq<string>, name: string, data: Object)
    requires DotFree(name) && name != "" && forall p :: p in parts ==> DotFree(p)
    ensures Eval(Var(name), data) == Val(if name in data then data[name] else Null)
    ensures parts != [] && Join(parts) != "" ==>
              Eval(Var(Join(parts) + "." + name), data) ==
              match Eval(Var(Join(parts)), data)
              case Val(Dict(m)) => Val(if name in m then m[name] else Null)
              case _ => Val(Null)
  {
    hide Eval, Lookup;
    VarReads(name, data);
    PathWalksItsNames(data, [name]);
    if parts != [] && Join(parts) != "" {
      VarReads(Join(parts) + "." + name, data);
      VarReads(Join(parts), data);
      PathWalksItsNames(data, parts);
      PathWalksItsNames(data, parts + [name]);
      JoinFurther(parts, name);
      WalkFurther(Dict(data), parts, name);
    }
  }

  lemma {:induction false} JoinFurther(parts: seq<string>, name: string)
    requires parts != []
    ensures Join(parts + [name]) == Join(parts) + "." + name
  {
    if |parts| == 1 {
      assert (parts + [name])[1..] == [name];
    } else {
      assert (parts + [name])[1..] == parts[1..] + [name];
      JoinFurther(parts[1..], name);
      assert parts[0] + "." + (Join(parts[1..]) + "." + name) == (parts[0] + "." + Join(parts[1..])) + "." + name;
    }
  }
}
