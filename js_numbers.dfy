/**
  JavaScript number values and the handful of operations the three renderer
  scripts apply to them: `Number(...)` results may be NaN or an infinity, and
  `Math.max`, `Math.floor`, `Math.abs`, `||`, `<`, `!==` and `isFinite` treat
  those specially. Finite values are exact reals here: IEEE rounding is not
  modelled.
 */
module JsNumbers {

  datatype Option<T> = None | Some(value: T)

  datatype JsNumber = Num(v: real) | NaN | PosInf | NegInf

  /** `isFinite(x)` */
  predicate IsFinite(x: JsNumber) {
    x.Num?
  }

  /** `Number.isInteger(x)` for a finite x */
  predicate IsIntegral(x: real) {
    x.Floor as real == x
  }

  /** JavaScript truthiness of a number: 0 and NaN are falsy. */
  predicate Truthy(x: JsNumber) {
    !(x.NaN? || x == Num(0.0))
  }

  /** `a || b` on numbers */
  function Or(a: JsNumber, b: JsNumber): JsNumber {
    if Truthy(a) then a else b
  }

  /** `a < b`; every comparison with NaN is false. */
  predicate Less(a: JsNumber, b: JsNumber) {
    match (a, b)
    case (NaN, _) => false
    case (_, NaN) => false
    case (Num(x), Num(y)) => x < y
    case (NegInf, y) => !y.NegInf?
    case (x, PosInf) => !x.PosInf?
    case (_, _) => false
  }

  /** `a === b` (and so `!(a !== b)`): NaN equals nothing, not even itself. */
  predicate StrictEquals(a: JsNumber, b: JsNumber) {
    !a.NaN? && a == b
  }

  /** `Math.max(a, b)` */
  function Max(a: JsNumber, b: JsNumber): (r: JsNumber)
    ensures a.NaN? || b.NaN? <==> r.NaN?
    ensures !r.NaN? ==> (r == a || r == b) && !Less(r, a) && !Less(r, b)
  {
    if a.NaN? || b.NaN? then NaN else if Less(a, b) then b else a
  }

  /** `Math.floor(x)`: infinities and NaN are returned unchanged. */
  function Floor(x: JsNumber): (r: JsNumber)
    ensures x.Num? <==> r.Num?
    ensures r.Num? ==> IsIntegral(r.v) && r.v <= x.v < r.v + 1.0
    ensures !x.Num? ==> r == x
  {
    match x
    case Num(v) => Num(v.Floor as real)
    case _ => x
  }

  /** `Math.abs(x)` */
  function Abs(x: JsNumber): (r: JsNumber)
    ensures x.Num? <==> r.Num?
    ensures r.Num? ==> r.v >= 0.0 && (r.v == x.v || r.v == -x.v)
    ensures x.NaN? <==> r.NaN?
    ensures x.PosInf? || x.NegInf? ==> r.PosInf?
  {
    match x
    case Num(v) => Num(if v < 0.0 then -v else v)
    case NaN => NaN
    case _ => PosInf
  }

  /** `a + b` */
  function Add(a: JsNumber, b: JsNumber): (r: JsNumber)
    ensures a.Num? && b.Num? ==> r == Num(a.v + b.v)
    ensures a.NaN? || b.NaN? ==> r.NaN?
  {
    match (a, b)
    case (Num(x), Num(y)) => Num(x + y)
    case (NaN, _) => NaN
    case (_, NaN) => NaN
    case (PosInf, NegInf) => NaN
    case (NegInf, PosInf) => NaN
    case (Num(_), y) => y
    case (x, _) => x
  }

  /** `a >= b`; false whenever either side is NaN. */
  predicate AtLeast(a: JsNumber, b: JsNumber) {
    !a.NaN? && !b.NaN? && !Less(a, b)
  }

  /** `a / b` for finite a and b, with a zero b taken as +0: it gives NaN for 0 / 0 and an infinity of a's sign otherwise. */
  function Divide(a: real, b: real): (r: JsNumber)
    ensures b != 0.0 ==> r == Num(a / b)
    ensures b == 0.0 ==> (r.NaN? <==> a == 0.0)
  {
    if b != 0.0 then Num(a / b)
    else if a == 0.0 then NaN
    else if a > 0.0 then PosInf
    else NegInf
  }

  /** `a / d` for a divisor that is a positive integer (an array length). */
  function DivByCount(a: JsNumber, d: nat): (r: JsNumber)
    requires d > 0
    ensures a.Num? ==> r == Num(a.v / d as real)
    ensures !a.Num? ==> r == a
  {
    match a
    case Num(x) => Num(x / d as real)
    case _ => a
  }
}
