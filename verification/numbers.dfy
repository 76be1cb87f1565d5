/** JavaScript numbers as the route-creation code uses them, stated over the
    reals: a finite value or NaN, the truthiness the code tests with `!x` and
    `x || y`, the `Math` functions it calls and its `%` operator. */
module Numbers {

  /** An optional value: `None` stands for JavaScript's `null`/`undefined`. */
  datatype Option<+T> = None | Some(value: T)

  /** A JavaScript number. `NaN` also stands for arithmetic on an absent
      (undefined) operand and for a division by zero. */
  datatype Num = Fin(r: real) | NaN

  /** JavaScript truthiness of a number: zero and NaN are falsy. */
  predicate Truthy(x: Num) {
    x.Fin? && x.r != 0.0
  }

  /** The falsy numbers are exactly zero and NaN; every other number is
      truthy. */
  lemma FalsyValues(x: Num)
    ensures !Truthy(x) <==> x == NaN || x == Fin(0.0)
  {
  }

  /** `x || y`: the left operand when it is truthy, the right one otherwise.
      The result is truthy exactly when one of the operands is. */
  function Or(x: Num, y: Num): (r: Num)
    ensures r == x || r == y
    ensures Truthy(x) ==> r == x
    ensures !Truthy(x) ==> r == y
    ensures Truthy(r) <==> Truthy(x) || Truthy(y)
  {
    if Truthy(x) then x else y
  }

  /** Reading an optional numeric field: a missing field reads as `undefined`,
      which every arithmetic operator turns into NaN. */
  function FieldValue(f: Option<real>): Num {
    match f
    case Some(v) => Fin(v)
    case None => NaN
  }

  function Add(a: Num, b: Num): Num {
    if a.Fin? && b.Fin? then Fin(a.r + b.r) else NaN
  }

  function Sub(a: Num, b: Num): Num {
    if a.Fin? && b.Fin? then Fin(a.r - b.r) else NaN
  }

  function Mul(a: Num, b: Num): Num {
    if a.Fin? && b.Fin? then Fin(a.r * b.r) else NaN
  }

  function Div(a: Num, b: Num): Num {
    if a.Fin? && b.Fin? && b.r != 0.0 then Fin(a.r / b.r) else NaN
  }

  /** Truncation toward zero: the rounding inside JavaScript's `%`, which
      the code never calls on its own. */
  function Trunc(x: real): (n: int)
    ensures 0.0 <= x ==> n as real <= x < n as real + 1.0
    ensures x < 0.0 ==> n as real - 1.0 < x <= n as real
  {
    if x >= 0.0 then x.Floor else -((-x).Floor)
  }

  /** The `%` operator with divisor 60, the only one the code uses: the
      remainder of truncating division, which takes the sign of the dividend
      (Dafny's own `%` is Euclidean and would differ for a negative dividend). */
  function Mod60(a: real): (m: real)
    ensures 0.0 <= a ==> 0.0 <= m < 60.0
    ensures a < 0.0 ==> -60.0 < m <= 0.0
    ensures ((a - m) / 60.0).Floor as real == (a - m) / 60.0
  {
    a - 60.0 * Trunc(a / 60.0) as real
  }

  /** `Math.round`: the nearest integer, halves rounded up toward +infinity. */
  function Round(x: real): (n: int)
    ensures x - 0.5 < n as real <= x + 0.5
  {
    (x + 0.5).Floor
  }

  /** The floor of a real shifted by a whole number is the shifted floor. */
  lemma FloorShift(x: real, k: int)
    ensures (x + k as real).Floor == x.Floor + k
  {
    var f := x.Floor + k;
    assert f as real <= x + k as real < f as real + 1.0;
  }
}
