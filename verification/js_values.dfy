/** The fragment of JavaScript's value semantics that the options sanitizer
    relies on: truthiness (`!value`), strict equality (`!==`), `typeof`, the
    ToNumber coercion that `<`, `<=`, `*` and the `Math` functions apply to
    their operands, and `Math.floor`, `Math.round`, `Math.min`, `Math.max`.
    Numbers are exact reals plus NaN; IEEE-754 rounding, the infinities and
    the sign of zero are not represented. */
module JsValues {

  /** A JavaScript number: finite, or NaN. */
  datatype Num = Fin(r: real) | NaN

  /** A JavaScript value as an option can hold it. Objects and functions are
      opaque and identified by reference, which is all `===` looks at. */
  datatype Value =
    | Number(n: Num)
    | Str(s: string)
    | Bool(b: bool)
    | Null
    | Undefined
    | Obj(ref: nat)

  function FromReal(x: real): Value
  {
    Number(Fin(x))
  }

  /** `!!value`: every value is truthy except false, 0, NaN, "", null and undefined. */
  predicate Truthy(v: Value)
  {
    match v
    case Number(n) => n.Fin? && n.r != 0.0
    case Str(s) => s != ""
    case Bool(b) => b
    case Null => false
    case Undefined => false
    case Obj(_) => true
  }

  /** `a === b`: same type and same value, where NaN equals nothing and
      objects are equal only to themselves. */
  predicate StrictEquals(a: Value, b: Value)
  {
    match (a, b)
    case (Number(Fin(x)), Number(Fin(y))) => x == y
    case (Str(s), Str(t)) => s == t
    case (Bool(p), Bool(q)) => p == q
    case (Null, Null) => true
    case (Undefined, Undefined) => true
    case (Obj(i), Obj(j)) => i == j
    case _ => false
  }

  /** Strict equality is structural equality except that NaN is unequal to itself. */
  lemma StrictEqualsIsEqualityButNaN(a: Value, b: Value)
    ensures StrictEquals(a, b) <==> a == b && a != Number(NaN)
  {
  }

  /** The falsy values are exactly the six JavaScript lists. */
  lemma FalsyValues(v: Value)
    ensures !Truthy(v) <==>
              v in {FromReal(0.0), Number(NaN), Str(""), Bool(false), Null, Undefined}
  {
  }

  // ---------------------------------------------------------------------------
  // ToNumber

  /** The number a value coerces to. Plain objects and functions become NaN
      (their primitive form is a non-numeric string). */
  function ToNumber(v: Value): Num
  {
    match v
    case Number(n) => n
    case Str(s) => StringToNumber(s)
    case Bool(b) => if b then Fin(1.0) else Fin(0.0)
    case Null => Fin(0.0)
    case Undefined => NaN
    case Obj(_) => NaN
  }

  predicate IsDigit(c: char)
  {
    '0' <= c <= '9'
  }

  predicate AllDigits(s: string)
  {
    forall i | 0 <= i < |s| :: IsDigit(s[i])
  }

  predicate IsWhiteSpace(c: char)
  {
    c in {' ', '\t', '\n', '\r', '\U{B}', '\U{C}', '\U{A0}', '\U{2028}', '\U{2029}', '\U{FEFF}'}
  }

  /** `s` without its leading white space. */
  function TrimStart(s: string): (t: string)
    ensures |t| <= |s| && t == s[|s| - |t|..]
    ensures forall i | 0 <= i < |s| - |t| :: IsWhiteSpace(s[i])
    ensures t != "" ==> !IsWhiteSpace(t[0])
  {
    if |s| > 0 && IsWhiteSpace(s[0]) then TrimStart(s[1..]) else s
  }

  /** `s` without its trailing white space. */
  function TrimEnd(s: string): (t: string)
    ensures |t| <= |s| && t == s[..|t|]
    ensures forall i | |t| <= i < |s| :: IsWhiteSpace(s[i])
    ensures t != "" ==> !IsWhiteSpace(t[|t| - 1])
  {
    if |s| > 0 && IsWhiteSpace(s[|s| - 1]) then TrimEnd(s[..|s| - 1]) else s
  }

  function DigitValue(c: char): nat
    requires IsDigit(c)
  {
    c as int - '0' as int
  }

  /** The value of a string of decimal digits read as an integer. */
  function IntegerValue(s: string): nat
    requires AllDigits(s)
  {
    if s == [] then 0 else IntegerValue(s[..|s| - 1]) * 10 + DigitValue(s[|s| - 1])
  }

  /** The value of a string of decimal digits read after a decimal point. */
  function FractionValue(s: string): real
    requires AllDigits(s)
  {
    if s == [] then 0.0 else (DigitValue(s[0]) as real + FractionValue(s[1..])) / 10.0
  }

  /** The index of the first '.', or |s| when there is none. */
  function DotIndex(s: string): (i: nat)
    ensures i <= |s|
    ensures i < |s| ==> s[i] == '.'
    ensures forall j | 0 <= j < i :: s[j] != '.'
  {
    if s == [] then 0 else if s[0] == '.' then 0 else 1 + DotIndex(s[1..])
  }

  /** An unsigned decimal literal without exponent: `ddd`, `ddd.`, `.ddd` or `ddd.ddd`. */
  function UnsignedDecimal(s: string): Num
  {
    var i := DotIndex(s);
    var whole := s[..i];
    var fraction := if i < |s| then s[i + 1..] else "";
    if AllDigits(whole) && AllDigits(fraction) && |whole| + |fraction| > 0 then
      Fin(IntegerValue(whole) as real + FractionValue(fraction))
    else
      NaN
  }

  function Negate(n: Num): Num
  {
    match n
    case Fin(x) => Fin(-x)
    case NaN => NaN
  }

  /** ToNumber on a string: surrounding white space is ignored, the empty
      string is 0, a signed decimal literal is its value, anything else NaN. */
  function StringToNumber(s: string): Num
  {
    var t := TrimEnd(TrimStart(s));
    if t == "" then Fin(0.0)
    else if t[0] == '-' then Negate(UnsignedDecimal(t[1..]))
    else if t[0] == '+' then UnsignedDecimal(t[1..])
    else UnsignedDecimal(t)
  }

  // ---------------------------------------------------------------------------
  // Comparisons and Math functions on coerced numbers

  /** `x < c` once x is a number: false whenever x is NaN. */
  predicate Less(x: Num, c: real)
  {
    x.Fin? && x.r < c
  }

  /** `x <= c` once x is a number: false whenever x is NaN. */
  predicate LessEq(x: Num, c: real)
  {
    x.Fin? && x.r <= c
  }

  function Floor(x: Num): Num
  {
    match x
    case Fin(r) => Fin(r.Floor as real)
    case NaN => NaN
  }

  /** `Math.round`: the nearest integer, halves rounded towards +infinity. */
  function Round(x: Num): Num
  {
    match x
    case Fin(r) => Fin((r + 0.5).Floor as real)
    case NaN => NaN
  }

  function Scale(x: Num, k: real): Num
  {
    match x
    case Fin(r) => Fin(r * k)
    case NaN => NaN
  }

  function Min(x: Num, y: Num): Num
  {
    if x.NaN? || y.NaN? then NaN else if x.r <= y.r then x else y
  }

  function Max(x: Num, y: Num): Num
  {
    if x.NaN? || y.NaN? then NaN else if x.r >= y.r then x else y
  }
}
