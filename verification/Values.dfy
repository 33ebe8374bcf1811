/** The JSON-shaped Python values that condition trees, incidents and actions are made of. */
module Values {
  import opened Common

  datatype Value =
    | Null
    | Bool(b: bool)
    | Int(i: int)
    | Float(r: real)
    | Str(s: string)
    | List(items: seq<Value>)
    | Dict(m: map<string, Value>)

  type Object = map<string, Value>

  /** Python's `bool(v)`. */
  predicate Truthy(v: Value) {
    match v
    case Null => false
    case Bool(b) => b
    case Int(i) => i != 0
    case Float(r) => r != 0.0
    case Str(s) => s != ""
    case List(xs) => xs != []
    case Dict(m) => m != map[]
  }

  /** True, 1 and 1.0 are one value to Python's `==`, at every depth. */
  function Canon(v: Value): Value {
    match v
    case Bool(b) => Float(if b then 1.0 else 0.0)
    case Int(i) => Float(i as real)
    case List(xs) => List(seq(|xs|, i requires 0 <= i < |xs| => Canon(xs[i])))
    case Dict(m) => Dict(map k | k in m :: Canon(m[k]))
    case _ => v
  }

  /** Python's `a == b`. */
  predicate PyEq(a: Value, b: Value) { Canon(a) == Canon(b) }

  /** `d.get(key)` */
  function Get(d: Object, key: string): Value { if key in d then d[key] else Null }

  /** Lists and dicts cannot be dictionary keys or set elements. */
  predicate Hashable(v: Value) { !v.List? && !v.Dict? }

  function OnlyKey(m: Object): (k: string)
    requires |m| == 1
    ensures m.Keys == {k}
  {
    SingletonKey(m);
    var k :| k in m;
    k
  }

  lemma SingletonKey(m: Object)
    requires |m| == 1
    ensures exists k :: k in m
    ensures forall j, k :: j in m && k in m ==> j == k
  {
    var k :| k in m.Keys;
    assert |m.Keys - {k}| == 0;
    assert m.Keys == (m.Keys - {k}) + {k};
  }

  // ---------------------------------------------------------------- strings

  /** Python's `a < b` on strings: by code point, a proper prefix first. */
  predicate StrLess(a: string, b: string) {
    if a == [] || b == [] then a == [] && b != []
    else a[0] < b[0] || (a[0] == b[0] && StrLess(a[1..], b[1..]))
  }

  lemma {:induction false} StrLessTotal(a: string, b: string)
    ensures a == b || StrLess(a, b) || StrLess(b, a)
    ensures !(StrLess(a, b) && StrLess(b, a))
    ensures !StrLess(a, a)
  {
    if a != [] && b != [] && a[0] == b[0] {
      StrLessTotal(a[1..], b[1..]);
      assert a[1..] == b[1..] ==> a == [a[0]] + a[1..] == [b[0]] + b[1..] == b;
    }
    if a != [] { StrLessTotal(a[1..], a[1..]); }
  }

  lemma {:induction false} StrLessTransitive(a: string, b: string, c: string)
    requires StrLess(a, b) && StrLess(b, c)
    ensures StrLess(a, c)
  {
    if a != [] && a[0] == b[0] == c[0] {
      StrLessTransitive(a[1..], b[1..], c[1..]);
    }
  }

  /** `needle in text` */
  predicate Contains(text: string, needle: string) {
    needle <= text || (text != "" && Contains(text[1..], needle))
  }

  predicate IsSpace(c: char) { c == ' ' || c == '\t' || c == '\n' || c == '\r' }

  function LowerChar(c: char): char { if 'A' <= c <= 'Z' then ((c as int) + 32) as char else c }

  function UpperChar(c: char): char { if 'a' <= c <= 'z' then ((c as int) - 32) as char else c }

  function Lower(s: string): string { Map(LowerChar, s) }

  function Upper(s: string): string { Map(UpperChar, s) }

  function TrimLeft(s: string): string { if s != "" && IsSpace(s[0]) then TrimLeft(s[1..]) else s }

  function TrimRight(s: string): string {
    if s != "" && IsSpace(s[|s| - 1]) then TrimRight(s[..|s| - 1]) else s
  }

  function Trim(s: string): string { TrimRight(TrimLeft(s)) }

  /** The characters before the first whitespace. */
  function Word(s: string): string { if s == "" || IsSpace(s[0]) then "" else [s[0]] + Word(s[1..]) }

  predicate Digits(s: string) { forall i :: 0 <= i < |s| ==> '0' <= s[i] <= '9' }

  function DigitsValue(s: string): nat
    requires Digits(s)
  {
    if s == "" then 0 else 10 * DigitsValue(s[..|s| - 1]) + (s[|s| - 1] as int - '0' as int)
  }

  /** `int(s)` for a decimal literal with an optional sign. */
  function ParseInt(s: string): Option<int> {
    var negative := s != "" && s[0] == '-';
    var body := if s != "" && (s[0] == '-' || s[0] == '+') then s[1..] else s;
    if body == "" || !Digits(body) then None
    else Some(if negative then 0 - DigitsValue(body) else DigitsValue(body))
  }

  function NatText(n: nat): string {
    (if n < 10 then "" else NatText(n / 10)) + [(n % 10 + '0' as int) as char]
  }

  /** `str(n)` */
  function IntText(n: int): string { if n < 0 then "-" + NatText(-n) else NatText(n) }

  lemma OneMoreDigit(s: string, d: nat)
    requires Digits(s) && d < 10
    ensures var t := s + [(d + '0' as int) as char]; Digits(t) && t != "" && DigitsValue(t) == 10 * DigitsValue(s) + d
  {
    var t := s + [(d + '0' as int) as char];
    assert t[..|t| - 1] == s;
  }

  lemma {:induction false} NatTextValue(n: nat)
    ensures Digits(NatText(n)) && NatText(n) != "" && DigitsValue(NatText(n)) == n
  {
    hide Digits, DigitsValue;
    if n < 10 {
      EmptyDigits();
      OneMoreDigit("", n);
    } else {
      NatTextValue(n / 10);
      OneMoreDigit(NatText(n / 10), n % 10);
    }
  }

  lemma EmptyDigits()
    ensures Digits("") && DigitsValue("") == 0
  {
  }

  lemma ParseDigits(digits: string)
    requires Digits(digits) && digits != ""
    ensures ParseInt(digits) == Some(DigitsValue(digits))
    ensures ParseInt("-" + digits) == Some(0 - DigitsValue(digits))
  {
    assert '0' <= digits[0];
    assert ("-" + digits)[1..] == digits;
  }

  /** Printing an integer and parsing it back gives the integer. */
  lemma IntTextParses(n: int)
    ensures ParseInt(IntText(n)) == Some(n)
  {
    var magnitude: nat := if n < 0 then -n else n;
    NatTextValue(magnitude);
    ParseDigits(NatText(magnitude));
  }
}
