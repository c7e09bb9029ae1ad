/**
 * The few JavaScript value rules the pages rely on: truthiness, strict equality with a
 * string, and conversion to text in a template literal.
 * Numbers are integers below 1e21 in magnitude here (no fractions, NaN or infinities):
 * JavaScript writes larger magnitudes in exponent form, which `ToText` does not.
 */
module Js {
  import opened Wrappers
  import opened Numerals

  /** A primitive JavaScript value. */
  datatype Scalar = Undefined | Null | Bool(b: bool) | Num(n: int) | Str(s: string)

  /** `!!v` */
  predicate Truthy(v: Scalar)
  {
    match v
    case Undefined => false
    case Null => false
    case Bool(b) => b
    case Num(n) => n != 0
    case Str(s) => s != ""
  }

  /** `${v}` in a template literal. */
  function ToText(v: Scalar): (t: string)
    ensures v.Str? ==> t == v.s
    ensures v.Num? ==> ReadInt(t) == Some((v.n, ""))
  {
    match v
    case Undefined => "undefined"
    case Null => "null"
    case Bool(b) => if b then "true" else "false"
    case Num(n) => ReadDecimalText(n); Decimal(n)
    case Str(s) => s
  }

  lemma ReadDecimalText(n: int)
    ensures ReadInt(Decimal(n)) == Some((n, ""))
  {
    ReadDecimal(n, "");
    assert Decimal(n) + "" == Decimal(n);
  }
}
