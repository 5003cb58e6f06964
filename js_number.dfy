/**
 * JavaScript numbers as the yield engine sees them.
 *
 * The engine works on finite values; a division by zero or a missing
 * spreadsheet cell turns a value into NaN or an infinity, and JavaScript
 * then carries that non-finite value through every later addition,
 * multiplication and division.  The model keeps finite values as exact
 * reals and collapses NaN, +Infinity and -Infinity into one `NonFinite`.
 */
module JsNumber {

  datatype Option<+T> = None | Some(value: T)

  /** A JavaScript number: a finite value or one of NaN, +Infinity, -Infinity. */
  datatype Num = Fin(v: real) | NonFinite

  /** `Number(cell)` of an already parsed cell: a missing cell is NaN. */
  function FromCell(c: Option<real>): (n: Num)
    ensures n.Fin? <==> c.Some?
  {
    match c
    case Some(x) => Fin(x)
    case None => NonFinite
  }

  /** `x || d` on a parsed number: 0 and NaN are falsy and give way to `d`. */
  function OrElse(c: Option<real>, d: real): (r: real)
    ensures c.None? ==> r == d
    ensures c == Some(0.0) ==> r == d
    ensures c.Some? && c.value != 0.0 ==> r == c.value
  {
    if c.Some? && c.value != 0.0 then c.value else d
  }

  function Add(a: Num, b: Num): (r: Num)
    ensures r.Fin? <==> a.Fin? && b.Fin?
  {
    if a.Fin? && b.Fin? then Fin(a.v + b.v) else NonFinite
  }

  function Mul(a: Num, b: Num): (r: Num)
    ensures r.Fin? <==> a.Fin? && b.Fin?
  {
    if a.Fin? && b.Fin? then Fin(a.v * b.v) else NonFinite
  }

  /**
   * `a / b`.  A finite number divided by zero is an infinity (or NaN for
   * 0 / 0).  Where the engine divides, a non-finite divisor is always NaN,
   * so the JavaScript rule `x / Infinity == 0` is never needed.
   */
  function Div(a: Num, b: Num): (r: Num)
    ensures r.Fin? <==> a.Fin? && b.Fin? && b.v != 0.0
  {
    if a.Fin? && b.Fin? && b.v != 0.0 then Fin(a.v / b.v) else NonFinite
  }

  /** `arr.reduce((acc, x) => acc + x, 0)`, folding from the left. */
  function Sum(s: seq<Num>): Num
  {
    if s == [] then Fin(0.0) else Add(Sum(s[..|s| - 1]), s[|s| - 1])
  }

  /** A sum is finite exactly when every summand is: one NaN or infinity poisons it. */
  lemma {:induction false} SumFiniteIff(s: seq<Num>)
    ensures Sum(s).Fin? <==> forall i :: 0 <= i < |s| ==> s[i].Fin?
  {
    if s != [] {
      SumFiniteIff(s[..|s| - 1]);
      assert forall i :: 0 <= i < |s| - 1 ==> s[..|s| - 1][i] == s[i];
    }
  }

  /** Summing `n` copies of the finite value `c` gives `n * c`. */
  lemma {:induction false} SumConstant(s: seq<Num>, c: real)
    requires forall i :: 0 <= i < |s| ==> s[i] == Fin(c)
    ensures Sum(s) == Fin(|s| as real * c)
  {
    if s != [] {
      SumConstant(s[..|s| - 1], c);
    }
  }

  /**
   * `Number(x.toFixed(2))` on a finite value, idealised on reals: the
   * nearest hundredth, ties rounded away from zero.
   */
  function Round2(x: real): real
  {
    if x >= 0.0 then (x * 100.0 + 0.5).Floor as real / 100.0
    else -(((-x) * 100.0 + 0.5).Floor as real / 100.0)
  }

  /** Rounding to two decimals moves a value by at most half a hundredth. */
  lemma Round2Error(x: real)
    ensures -0.005 <= Round2(x) - x <= 0.005
  {
    if x >= 0.0 {
      var k := (x * 100.0 + 0.5).Floor;
      assert x * 100.0 - 0.5 < k as real <= x * 100.0 + 0.5;
    } else {
      var k := ((-x) * 100.0 + 0.5).Floor;
      assert (-x) * 100.0 - 0.5 < k as real <= (-x) * 100.0 + 0.5;
    }
  }

  /** A value that already has two decimals is left as it is. */
  lemma Round2OfHundredths(k: int)
    ensures Round2(k as real / 100.0) == k as real / 100.0
  {
    var x := k as real / 100.0;
    if x >= 0.0 {
      assert x * 100.0 + 0.5 == k as real + 0.5;
      assert (x * 100.0 + 0.5).Floor == k;
    } else {
      assert (-x) * 100.0 + 0.5 == (-k) as real + 0.5;
      assert ((-x) * 100.0 + 0.5).Floor == -k;
    }
  }

  /** `Number(n.toFixed(2))`: NaN and the infinities survive the round trip through a string. */
  function RoundNum(n: Num): (r: Num)
    ensures r.Fin? <==> n.Fin?
    ensures r.Fin? ==> -0.005 <= r.v - n.v <= 0.005
  {
    match n
    case Fin(x) => Round2Error(x); Fin(Round2(x))
    case NonFinite => NonFinite
  }
}
