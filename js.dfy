/** JavaScript values the building factory depends on: optional values,
    IEEE-style numbers (without rounding), truthiness and the few string
    operations the code calls (trim, endsWith, toLowerCase). */
module Js {

  datatype Option<T> = None | Some(value: T)

  /** A JavaScript number. Finite values are exact reals: rounding and the
      sign of zero are not modelled. */
  datatype Num = Fin(v: real) | PosInf | NegInf | NaN

  predicate IsFinite(n: Num) { n.Fin? }

  /** `!!n` in JavaScript: 0 and NaN are the falsy numbers. */
  predicate Truthy(n: Num) { !n.NaN? && n != Fin(0.0) }

  /** `a === b` on numbers: NaN equals nothing, not even itself. */
  predicate StrictEq(a: Num, b: Num) { !a.NaN? && a == b }

  predicate Negative(n: Num) { n.NegInf? || (n.Fin? && n.v < 0.0) }

  function Neg(a: Num): Num {
    match a
    case Fin(x) => Fin(-x)
    case PosInf => NegInf
    case NegInf => PosInf
    case NaN => NaN
  }

  function Add(a: Num, b: Num): (r: Num)
    ensures a.Fin? && b.Fin? ==> r == Fin(a.v + b.v)
    ensures (a.NaN? || b.NaN?) ==> r.NaN?
    ensures (a == PosInf && b == NegInf) || (a == NegInf && b == PosInf) ==> r.NaN?
  {
    if a.NaN? || b.NaN? then NaN
    else if a.Fin? && b.Fin? then Fin(a.v + b.v)
    else if a.Fin? then b
    else if b.Fin? || a == b then a
    else NaN
  }

  function Sub(a: Num, b: Num): Num { Add(a, Neg(b)) }

  function Mul(a: Num, b: Num): (r: Num)
    ensures a.Fin? && b.Fin? ==> r == Fin(a.v * b.v)
    ensures (a.NaN? || b.NaN?) ==> r.NaN?
  {
    if a.NaN? || b.NaN? then NaN
    else if a.Fin? && b.Fin? then Fin(a.v * b.v)
    else if a == Fin(0.0) || b == Fin(0.0) then NaN
    else if Negative(a) == Negative(b) then PosInf
    else NegInf
  }

  /** `a > b`: false whenever either side is NaN. */
  predicate Gt(a: Num, b: Num) {
    match (a, b)
    case (NaN, _) => false
    case (_, NaN) => false
    case (PosInf, _) => b != PosInf
    case (NegInf, _) => false
    case (Fin(x), NegInf) => true
    case (Fin(x), PosInf) => false
    case (Fin(x), Fin(y)) => x > y
  }

  /** `v.divideScalar(n)` of three.js, which multiplies by `1 / n`, so that a
      division by zero multiplies by Infinity. */
  function DivideByCount(a: Num, n: nat): (r: Num)
    ensures n > 0 && a.Fin? ==> r == Fin(a.v / n as real)
  {
    Mul(a, if n == 0 then PosInf else Fin(1.0 / n as real))
  }

  /** The characters String.prototype.trim removes: WhiteSpace and
      LineTerminator of ECMAScript. */
  predicate IsWhiteSpace(c: char) {
    c == ' ' || c == '\t' || c == '\n' || c == '\r'
    || c as int == 0x0B || c as int == 0x0C || c as int == 0xA0
    || c as int == 0x1680 || (0x2000 <= c as int <= 0x200A)
    || c as int == 0x2028 || c as int == 0x2029 || c as int == 0x202F
    || c as int == 0x205F || c as int == 0x3000 || c as int == 0xFEFF
  }

  function TrimStart(s: string): (r: string)
    ensures |r| <= |s| && r == s[|s| - |r|..]
    ensures r != [] ==> !IsWhiteSpace(r[0])
  {
    if s != [] && IsWhiteSpace(s[0]) then TrimStart(s[1..]) else s
  }

  function TrimEnd(s: string): (r: string)
    ensures |r| <= |s| && r == s[..|r|]
    ensures r != [] ==> !IsWhiteSpace(r[|r| - 1])
  {
    if s != [] && IsWhiteSpace(s[|s| - 1]) then TrimEnd(s[..|s| - 1]) else s
  }

  function Trim(s: string): string { TrimEnd(TrimStart(s)) }

  predicate EndsWith(s: string, suffix: string) {
    |suffix| <= |s| && s[|s| - |suffix|..] == suffix
  }

  /** toLowerCase restricted to ASCII letters. Every comparison the code makes
      after lowercasing is against an ASCII word without 'k', and no other
      character lowercases to such letters alone, so those comparisons are
      decided exactly. */
  function Lower(s: string): (r: string)
    ensures |r| == |s|
  {
    if s == [] then []
    else [if 'A' <= s[0] <= 'Z' then (s[0] as int + 32) as char else s[0]] + Lower(s[1..])
  }

  /** Lowercasing leaves a string without upper-case ASCII letters as it
      is. */
  lemma {:induction false} LowerKeepsLowercase(s: string)
    requires forall i :: 0 <= i < |s| ==> !('A' <= s[i] <= 'Z')
    ensures Lower(s) == s
  {
    if s != [] {
      LowerKeepsLowercase(s[1..]);
      assert s == [s[0]] + s[1..];
    }
  }
}
