/** What the compiled authoring formats say, operator by operator and formula by formula. */
module AuthoringTheorems {
  import opened Common
  import opened Values
  import opened Engine
  import opened OperatorTheorems
  import opened Transpilers

  // ---------------------------------------------------------- operator by name

  /** The VAST pack's name of each operator and the engine's. */
  const VAST_NAMES := [("equals", "=="), ("lte", "<="), ("gte", ">="), ("lt", "<"), ("gt", ">"), ("in", "in"),
                       ("contains", "contains"), ("in_holiday_period", "in_holiday_period")]

  /** The telecom SLA pack's. */
  const SLA_NAMES := [("equals", "=="), ("notEquals", "!="), ("in", "in"), ("greaterThan", ">"),
                      ("greaterThanOrEqual", ">="), ("lessThan", "<"), ("lessThanOrEqual", "<=")]

  lemma VastNamed(i: nat)
    requires i < |VAST_NAMES|
    ensures VastOperator(VAST_NAMES[i].0).Some? && Symbol(VastOperator(VAST_NAMES[i].0).value) == VAST_NAMES[i].1
  {
    assert VAST_NAMES[0] == ("equals", "==") && VAST_NAMES[1] == ("lte", "<=") && VAST_NAMES[2] == ("gte", ">=");
    assert VAST_NAMES[3] == ("lt", "<") && VAST_NAMES[4] == ("gt", ">") && VAST_NAMES[5] == ("in", "in");
    assert VAST_NAMES[6] == ("contains", "contains");
    assert VAST_NAMES[7] == ("in_holiday_period", "in_holiday_period");
  }

  lemma SlaNamed(i: nat)
    requires i < |SLA_NAMES|
    ensures SlaOperator(SLA_NAMES[i].0).Some? && Symbol(SlaOperator(SLA_NAMES[i].0).value) == SLA_NAMES[i].1
  {
    assert SLA_NAMES[0] == ("equals", "==") && SLA_NAMES[1] == ("notEquals", "!=") && SLA_NAMES[2] == ("in", "in");
    assert SLA_NAMES[3] == ("greaterThan", ">") && SLA_NAMES[4] == ("greaterThanOrEqual", ">=");
    assert SLA_NAMES[5] == ("lessThan", "<") && SLA_NAMES[6] == ("lessThanOrEqual", "<=");
  }

  /** One VAST condition compiles to the operator of its name applied to its field and literal. */
  lemma VastCompilesTo(i: nat, field: string, value: Value)
    requires i < |VAST_NAMES|
    ensures WhenToJsonLogic(When(Some([VastCondition(field, VAST_NAMES[i].0, value)]), None)) ==
            Done(Applied(VAST_NAMES[i].1, Var(field), value))
  {
    hide VastOperator, Symbol;
    VastNamed(i);
    var c := VastCondition(field, VAST_NAMES[i].0, value);
    assert VastNode(c) == Done(Applied(VAST_NAMES[i].1, Var(field), value));
    assert [c][1..] == [] && CompileAll(VastNode, []) == Done([]);
  }

  /** One SLA condition without a formula compiles to the operator of its name applied to its field and literal. */
  lemma SlaCompilesTo(i: nat, field: string, value: Value, logicalOperator: string)
    requires i < |SLA_NAMES| && (value.Str? ==> '*' !in value.s)
    ensures ConditionsToJsonLogic([SlaCondition(field, SLA_NAMES[i].0, value)], logicalOperator) ==
            Done(Applied(SLA_NAMES[i].1, Var(field), value))
  {
    hide SlaOperator, Symbol;
    SlaNamed(i);
    var c := SlaCondition(field, SLA_NAMES[i].0, value);
    assert SlaNode(c) == Done(Applied(SLA_NAMES[i].1, Var(field), value));
    assert [c][1..] == [] && CompileAll(SlaNode, []) == Done([]);
  }

  // ------------------------------------------------------------------ formulas

  /** A name that `strip` leaves alone and that has no star in it. */
  predicate PlainName(name: string) {
    name != "" && !IsSpace(name[0]) && !IsSpace(name[|name| - 1]) && '*' !in name
  }

  lemma {:induction false} UpToFirst(a: string, c: char, b: string)
    requires c !in a && (b == "" || b[0] == c)
    ensures UpTo(a + b, c) == a
  {
    if a == "" {
      assert a + b == b;
    } else {
      assert (a + b)[1..] == a[1..] + b;
      UpToFirst(a[1..], c, b);
    }
  }

  lemma TrimsNothing(s: string)
    requires s != "" && !IsSpace(s[0]) && !IsSpace(s[|s| - 1])
    ensures Trim(s) == s && Trim(s + " ") == s && Trim(" " + s) == s
  {
    assert (s + " ")[..|s|] == s && (" " + s)[1..] == s;
    assert (s + " ")[0] == s[0];
    assert TrimLeft(s) == s && TrimLeft(s + " ") == s + " ";
    assert TrimLeft(" " + s) == TrimLeft((" " + s)[1..]);
    assert TrimRight(s) == s && TrimRight(s + " ") == TrimRight((s + " ")[..|s|]);
  }

  /** 10 to the n-th. */
  function Pow(n: nat): nat { if n == 0 then 1 else 10 * Pow(n - 1) }

  lemma {:induction false} PowIsPower10(n: nat)
    ensures Power10(n) == Pow(n) as real
  {
    if n > 0 { PowIsPower10(n - 1); }
  }

  lemma {:induction false} DigitsJoin(whole: string, fraction: string)
    requires Digits(whole) && Digits(fraction)
    ensures Digits(whole + fraction)
    ensures DigitsValue(whole + fraction) == DigitsValue(whole) * Pow(|fraction|) + DigitsValue(fraction)
    decreases |fraction|
  {
    if fraction == "" {
      assert whole + fraction == whole;
    } else {
      var n := |fraction| - 1;
      DigitsJoin(whole, fraction[..n]);
      var all := whole + fraction;
      assert all[..|all| - 1] == whole + fraction[..n] && all[|all| - 1] == fraction[n];
      Distribute(DigitsValue(whole), Pow(n), DigitsValue(fraction[..n]));
    }
  }

  lemma Distribute(a: nat, p: nat, b: nat)
    ensures 10 * (a * p + b) == a * (10 * p) + 10 * b
  {
  }

  lemma ScaledUp(w: real, f: real, p: real)
    requires p > 0.0
    ensures (w + f / p) * p == w * p + f
  {
    assert f / p * p == f;
  }

  lemma ProductOfNats(a: nat, b: nat)
    ensures a as real * b as real == (a * b) as real
  {
  }

  lemma PointIsNoDigit(digits: string)
    requires Digits(digits)
    ensures '.' !in digits && '*' !in digits && forall i :: 0 <= i < |digits| ==> !IsSpace(digits[i])
  {
  }

  lemma ReadAtPoint(text: string, whole: string, fraction: string)
    requires Digits(whole) && Digits(fraction) && whole != "" && text != "" && text[0] == whole[0]
    requires UpTo(text, '.') == whole
    requires if |text| > |whole| then text[|whole| + 1..] == fraction else text == whole && fraction == ""
    ensures ParseDecimal(text) ==
            Some(DigitsValue(whole) as real + DigitsValue(fraction) as real / Power10(|fraction|))
  {
    hide Power10, DigitsValue, UpTo;
    assert '0' <= text[0] <= '9';
  }

  lemma NoFraction()
    ensures DigitsValue("") == 0 && Power10(0) == 1.0
  {
  }

  /** A decimal literal is the number its digits make, divided by ten for each digit after the point. */
  lemma DecimalReads(whole: string, fraction: string)
    requires Digits(whole) && Digits(fraction) && whole != ""
    ensures Digits(whole + fraction)
    ensures var k := ParseDecimal(whole + "." + fraction);
            k.Some? && k.value * Pow(|fraction|) as real == DigitsValue(whole + fraction) as real
    ensures ParseDecimal(whole) == Some(DigitsValue(whole) as real)
  {
    hide Power10, DigitsValue, ParseDecimal, UpTo, Digits;
    var text := whole + "." + fraction;
    PointIsNoDigit(whole);
    UpToFirst(whole, '.', "." + fraction);
    UpToFirst(whole, '.', "");
    assert text == whole + ("." + fraction) && whole == whole + "";
    assert Digits("") by { EmptyDigits(); }
    ReadAtPoint(text, whole, fraction);
    ReadAtPoint(whole, whole, "");
    NoFraction();
    DigitsJoin(whole, fraction);
    PowIsPower10(|fraction|);
    ScaledUp(DigitsValue(whole) as real, DigitsValue(fraction) as real, Power10(|fraction|));
    ProductOfNats(DigitsValue(whole), Pow(|fraction|));
  }

  lemma FormulaReads(name: string, whole: string, fraction: string)
    requires PlainName(name) && Digits(whole) && Digits(fraction) && whole != "" && fraction != ""
    ensures var text := name + " * " + whole + "." + fraction;
            && '*' in text && FormulaField(text) == name
            && FormulaFactor(text) == ParseDecimal(whole + "." + fraction)
  {
    hide ParseDecimal, UpTo, Trim, IsSpace;
    var number := whole + "." + fraction;
    var text := name + " * " + whole + "." + fraction;
    PointIsNoDigit(whole);
    PointIsNoDigit(fraction);
    assert number[0] == whole[0] && number[|number| - 1] == fraction[|fraction| - 1];
    TrimsNothing(name);
    TrimsNothing(number);
    assert text == (name + " ") + ("* " + number);
    UpToFirst(name + " ", '*', "* " + number);
    assert text[|name| + 1] == '*';
    assert text[|name + " "| + 1..] == " " + number;
  }

  lemma FormulaNode(i: nat, field: string, text: string, logicalOperator: string)
    requires i < |SLA_NAMES| && '*' in text && FormulaFactor(text).Some?
    ensures ConditionsToJsonLogic([SlaCondition(field, SLA_NAMES[i].0, Str(text))], logicalOperator) ==
            Done(Applied(SLA_NAMES[i].1, Var(field),
                         Applied("*", Var(FormulaField(text)), Float(FormulaFactor(text).value))))
  {
    hide SlaOperator, Symbol, FormulaField, FormulaFactor;
    SlaNamed(i);
    var c := SlaCondition(field, SLA_NAMES[i].0, Str(text));
    assert SlaNode(c).Done?;
    assert [c][1..] == [] && CompileAll(SlaNode, []) == Done([]);
  }

  /** A condition whose value is a formula "<name> * <decimal>" compiles to its operator applied to its field and to the
      product of the named field with that number. */
  lemma FormulaCompilesTo(i: nat, field: string, name: string, whole: string, fraction: string,
                          logicalOperator: string)
    requires i < |SLA_NAMES| && PlainName(name) && Digits(whole) && Digits(fraction) && whole != "" && fraction != ""
    ensures Digits(whole + fraction)
    ensures exists k: real ::
              && k * Pow(|fraction|) as real == DigitsValue(whole + fraction) as real
              && ConditionsToJsonLogic([SlaCondition(field, SLA_NAMES[i].0,
                                                     Str(name + " * " + whole + "." + fraction))], logicalOperator) ==
                 Done(Applied(SLA_NAMES[i].1, Var(field), Applied("*", Var(name), Float(k))))
  {
    hide ParseDecimal, Digits, DigitsValue, FormulaField, FormulaFactor, ConditionsToJsonLogic, Applied, Var, Pow,
         PlainName;
    var text := name + " * " + whole + "." + fraction;
    DecimalReads(whole, fraction);
    FormulaReads(name, whole, fraction);
    FormulaNode(i, field, text, logicalOperator);
    var k := FormulaFactor(text).value;
    assert k * Pow(|fraction|) as real == DigitsValue(whole + fraction) as real;
  }

  /** The pack's own formula. */
  lemma TheFormula()
    ensures '*' in "slaResponseMinutes * 0.8"
    ensures FormulaField("slaResponseMinutes * 0.8") == "slaResponseMinutes"
    ensures FormulaFactor("slaResponseMinutes * 0.8") == Some(0.8)
  {
    hide ParseDecimal, UpTo, Trim, Power10;
    var name, text := "slaResponseMinutes", "slaResponseMinutes * 0.8";
    assert text == name + " * " + "0" + "." + "8";
    assert |name| == 18 && name[0] == 's' && name[17] == 's';
    FormulaReads(name, "0", "8");
    DecimalReads("0", "8");
    assert "0" + "8" == "08" && "0" + "." + "8" == "0.8";
    EightTenths();
  }

  lemma EightTenths()
    ensures Digits("08") && DigitsValue("08") == 8 && Pow(1) == 10
  {
    assert "08"[..1] == "0" && "0"[..0] == "";
    assert DigitsValue("0") == 0;
  }
}
