/**
 * The numeric layer of the Minkowski sketch: a complex value type and the
 * polymorphic operations that accept either a plain number or a complex value.
 *
 * JavaScript numbers are modelled as exact reals.  Everything the sketch takes
 * from the host (Math.exp, Math.pow, ..., NaN, Infinity, x / 0, number
 * formatting) is a field of `MathLib`, passed in as a parameter, so that
 * no property below depends on what those functions compute.
 */
module Numeric {
  import opened Chars


  /** The host functions and constants the engine calls but does not define. */
  datatype MathLib = MathLib(
    exp: real -> real,
    log: real -> real,
    sin: real -> real,
    cos: real -> real,
    sinh: real -> real,
    cosh: real -> real,
    atan: real -> real,
    sqrt: real -> real,
    pow: (real, real) -> real,   // Math.pow
    pi: real,                    // Math.PI
    nan: real,                   // the number NaN, which the model has no exact value for
    infinity: real,              // the number Infinity
    divByZero: real -> real,     // the value of x / 0 (an infinity or NaN)
    show: real -> string,        // Number.prototype.toString, as used by template strings
    toExponential: real -> string)

  /** JavaScript's `/` on two numbers. */
  function FDiv(m: MathLib, a: real, b: real): (r: real)
    ensures b != 0.0 ==> r * b == a
  {
    if b == 0.0 then m.divByZero(a) else a / b
  }

  /** The `Complex` class: an immutable pair of a real and an imaginary part. */
  datatype Complex = Complex(re: real, im: real)

  /**
   * A value on the engine's stacks: a plain number, a `Complex` object, or
   * `undefined` (what an empty stack pops, and what the dispatch functions
   * return when no branch matches).
   */
  datatype Num = R(x: real) | C(z: Complex) | Undef

  /** `real(r)`: promotes a number to a complex value. */
  function RealC(r: real): Complex { Complex(r, 0.0) }

  /** `imag(r)`: the purely imaginary value r*i. */
  function ImagC(r: real): Complex { Complex(0.0, r) }

  function Conj(z: Complex): Complex { Complex(z.re, -z.im) }

  /** |z|^2, which complexDiv divides by without a zero check. */
  function Abs2(z: Complex): real
  {
    z.re * z.re + z.im * z.im
  }

  function AbsC(m: MathLib, z: Complex): real { m.sqrt(Abs2(z)) }

  /** The principal argument, by quadrant-aware arctangent. */
  function Arg(m: MathLib, z: Complex): real
  {
    if z.re == 0.0 then
      (if z.im >= 0.0 then m.pi / 2.0 else -m.pi / 2.0)
    else
      var v := m.atan(z.im / z.re);
      if z.re < 0.0 then
        (if z.im >= 0.0 then m.pi + v else -m.pi + v)
      else v
  }

  function ComplexAdd(z: Complex, w: Complex): Complex { Complex(z.re + w.re, z.im + w.im) }

  function ComplexSub(z: Complex, w: Complex): Complex { Complex(z.re - w.re, z.im - w.im) }

  function ComplexMul(z: Complex, w: Complex): Complex
  {
    Complex(z.re * w.re - z.im * w.im, z.re * w.im + z.im * w.re)
  }

  /** Multiplies by the conjugate scaled by 1/|w|^2; a zero divisor is not special-cased. */
  function ComplexDiv(m: MathLib, z: Complex, w: Complex): Complex
  {
    var invW := ComplexMul(RealC(FDiv(m, 1.0, Abs2(w))), Conj(w));
    ComplexMul(z, invW)
  }

  /**
   * Real exponentiation when both imaginary parts are zero, exp(log(z) * w)
   * otherwise; either way the result is a `Complex`.
   */
  function ComplexPow(m: MathLib, z: Complex, w: Complex): (r: Num)
    ensures r.C?
    ensures z.im == 0.0 && w.im == 0.0 ==> r.z == RealC(m.pow(z.re, w.re))
  {
    if z.im == 0.0 && w.im == 0.0 then C(Complex(m.pow(z.re, w.re), 0.0))
    else Exp(m, Mul(Log(m, C(z)), C(w)))
  }

  /** A number or a `Complex` seen as a complex value: `real(x)` for a number. */
  function AsComplex(a: Num): Complex
    requires !a.Undef?
  {
    if a.R? then RealC(a.x) else a.z
  }

  /*
   * The five binary operations, each dispatching on the pair of tags: two
   * numbers give a number, an `undefined` operand matches no branch, and
   * otherwise the plain number is promoted with `real`.
   */

  function Add(a: Num, b: Num): (r: Num)
    ensures r.R? <==> a.R? && b.R?
    ensures r.Undef? <==> a.Undef? || b.Undef?
    ensures !r.Undef? ==> AsComplex(r) == ComplexAdd(AsComplex(a), AsComplex(b))
  {
    match (a, b)
    case (R(x), R(y)) => R(x + y)
    case (R(x), C(w)) => C(ComplexAdd(RealC(x), w))
    case (C(z), R(y)) => C(ComplexAdd(z, RealC(y)))
    case (C(z), C(w)) => C(ComplexAdd(z, w))
    case _ => Undef
  }

  function Sub(a: Num, b: Num): (r: Num)
    ensures r.R? <==> a.R? && b.R?
    ensures r.Undef? <==> a.Undef? || b.Undef?
    ensures !r.Undef? ==> AsComplex(r) == ComplexSub(AsComplex(a), AsComplex(b))
  {
    match (a, b)
    case (R(x), R(y)) => R(x - y)
    case (R(x), C(w)) => C(ComplexSub(RealC(x), w))
    case (C(z), R(y)) => C(ComplexSub(z, RealC(y)))
    case (C(z), C(w)) => C(ComplexSub(z, w))
    case _ => Undef
  }

  function Mul(a: Num, b: Num): (r: Num)
    ensures r.R? <==> a.R? && b.R?
    ensures r.Undef? <==> a.Undef? || b.Undef?
    ensures !r.Undef? ==> AsComplex(r) == ComplexMul(AsComplex(a), AsComplex(b))
  {
    match (a, b)
    case (R(x), R(y)) => R(x * y)
    case (R(x), C(w)) => C(ComplexMul(RealC(x), w))
    case (C(z), R(y)) => C(ComplexMul(z, RealC(y)))
    case (C(z), C(w)) => C(ComplexMul(z, w))
    case _ => Undef
  }

  /**
   * Division; for a divisor whose value is not zero, multiplying the quotient
   * by the divisor gives the dividend back.
   */
  function Div(m: MathLib, a: Num, b: Num): (r: Num)
    ensures r.R? <==> a.R? && b.R?
    ensures r.Undef? <==> a.Undef? || b.Undef?
    ensures !r.Undef? && Abs2(AsComplex(b)) != 0.0 ==>
      ComplexMul(AsComplex(r), AsComplex(b)) == AsComplex(a)
  {
    match (a, b)
    case (R(x), R(y)) =>
      RealQuotient(m, x, y); R(FDiv(m, x, y))
    case (R(x), C(w)) => ComplexDivInverse(m, RealC(x), w); C(ComplexDiv(m, RealC(x), w))
    case (C(z), R(y)) => ComplexDivInverse(m, z, RealC(y)); C(ComplexDiv(m, z, RealC(y)))
    case (C(z), C(w)) => ComplexDivInverse(m, z, w); C(ComplexDiv(m, z, w))
    case _ => Undef
  }

  /** JavaScript's `/` times a non-zero divisor, seen as complex values. */
  lemma RealQuotient(m: MathLib, x: real, y: real)
    ensures y != 0.0 ==> ComplexMul(RealC(FDiv(m, x, y)), RealC(y)) == RealC(x)
  {
    if y != 0.0 {
      var q := FDiv(m, x, y);
      assert q * y == x;
      assert ComplexMul(RealC(q), RealC(y)) == Complex(q * y - 0.0 * 0.0, q * 0.0 + 0.0 * y);
    }
  }

  /** `complexDiv(z, w)` times w is z when |w|^2 is not zero. */
  lemma ComplexDivInverse(m: MathLib, z: Complex, w: Complex)
    ensures Abs2(w) != 0.0 ==> ComplexMul(ComplexDiv(m, z, w), w) == z
  {
    var n := Abs2(w);
    if n != 0.0 {
      var q := FDiv(m, 1.0, n);
      assert q * n == 1.0;
      var a, b := w.re, w.im;
      var invW := ComplexMul(RealC(q), Conj(w));
      assert invW == Complex(q * a, -(q * b));
      var p := ComplexMul(z, invW);
      assert p == Complex(z.re * (q * a) + z.im * (q * b), z.im * (q * a) - z.re * (q * b));
      calc {
        p.re * a - p.im * b;
        z.re * (q * (a * a + b * b)) + z.im * (q * (a * b - a * b));
        z.re * (q * n);
        z.re;
      }
      calc {
        p.re * b + p.im * a;
        z.im * (q * (a * a + b * b)) + z.re * (q * (a * b - a * b));
        z.im * (q * n);
        z.im;
      }
    }
  }

  /**
   * Two plain numbers use Math.pow, so a negative base stays a (NaN) number;
   * on any two real-valued operands the value is Math.pow of their real parts.
   */
  function Pow(m: MathLib, a: Num, b: Num): (r: Num)
    ensures r.R? <==> a.R? && b.R?
    ensures r.Undef? <==> a.Undef? || b.Undef?
    ensures !r.Undef? && AsComplex(a).im == 0.0 && AsComplex(b).im == 0.0 ==>
      AsComplex(r) == RealC(m.pow(AsComplex(a).re, AsComplex(b).re))
  {
    match (a, b)
    case (R(x), R(y)) => R(m.pow(x, y))
    case (R(x), C(w)) => ComplexPow(m, RealC(x), w)
    case (C(z), R(y)) => ComplexPow(m, z, RealC(y))
    case (C(z), C(w)) => ComplexPow(m, z, w)
    case _ => Undef
  }

  /*
   * The unary functions of the engine's function table.  Each keeps a number a
   * number; the complex branches are the textbook formulas, and where a clause
   * below names a property of the host functions (cos 0 = 1, cos is even, ...)
   * it states that under that property the complex branch on a real-valued
   * argument gives the same value as the real branch.
   */

  function Exp(m: MathLib, a: Num): (r: Num)
    ensures r.Undef? <==> a.Undef?
    ensures r.R? <==> a.R?
    ensures a.C? && a.z.im == 0.0 && m.cos(0.0) == 1.0 && m.sin(0.0) == 0.0 ==>
      r == C(RealC(m.exp(a.z.re)))
  {
    match a
    case C(z) => C(Complex(m.exp(z.re) * m.cos(z.im), m.exp(z.re) * m.sin(z.im)))
    case R(x) => R(m.exp(x))
    case Undef => Undef
  }

  function Cos(m: MathLib, a: Num): (r: Num)
    ensures r.Undef? <==> a.Undef?
    ensures r.R? <==> a.R?
    ensures (a.C? && a.z.im == 0.0 && m.exp(0.0) == 1.0 && m.cos(-a.z.re) == m.cos(a.z.re)
             && m.sin(-a.z.re) == -m.sin(a.z.re)) ==> r == C(RealC(m.cos(a.z.re)))
  {
    match a
    case C(z) =>
      Mul(C(RealC(0.5)), Add(Exp(m, Mul(C(ImagC(1.0)), a)), Exp(m, Mul(C(ImagC(-1.0)), a))))
    case R(x) => R(m.cos(x))
    case Undef => Undef
  }

  function Sin(m: MathLib, a: Num): (r: Num)
    ensures r.Undef? <==> a.Undef?
    ensures r.R? <==> a.R?
    ensures (a.C? && a.z.im == 0.0 && m.exp(0.0) == 1.0 && m.cos(-a.z.re) == m.cos(a.z.re)
             && m.sin(-a.z.re) == -m.sin(a.z.re)) ==> r == C(RealC(m.sin(a.z.re)))
  {
    match a
    case C(z) =>
      Mul(C(ImagC(-0.5)), Sub(Exp(m, Mul(C(ImagC(1.0)), a)), Exp(m, Mul(C(ImagC(-1.0)), a))))
    case R(x) => R(m.sin(x))
    case Undef => Undef
  }

  /**
   * JavaScript's `/` applied to two results: only two numbers divide; any
   * object or `undefined` operand gives NaN.
   */
  function JsQuotient(m: MathLib, a: Num, b: Num): Num
  {
    if a.R? && b.R? then R(FDiv(m, a.x, b.x)) else R(m.nan)
  }

  /** `sin(z)/cos(z)`: the quotient for a number, NaN for anything else. */
  function Tan(m: MathLib, a: Num): (r: Num)
    ensures r.R?
    ensures a.R? && m.cos(a.x) != 0.0 ==> r.x * m.cos(a.x) == m.sin(a.x)
    ensures !a.R? ==> r == R(m.nan)
  {
    JsQuotient(m, Sin(m, a), Cos(m, a))
  }

  function Cosh(m: MathLib, a: Num): (r: Num)
    ensures r.Undef? <==> a.Undef?
    ensures r.R? <==> a.R?
    ensures (a.C? && a.z.im == 0.0 && m.cos(0.0) == 1.0 && m.sin(0.0) == 0.0
             && m.cosh(a.z.re) == (m.exp(a.z.re) + m.exp(-a.z.re)) / 2.0) ==> r == C(RealC(m.cosh(a.z.re)))
  {
    match a
    case C(z) => Mul(C(RealC(0.5)), Add(Exp(m, a), Exp(m, Mul(C(RealC(-1.0)), a))))
    case R(x) => R(m.cosh(x))
    case Undef => Undef
  }

  function Sinh(m: MathLib, a: Num): (r: Num)
    ensures r.Undef? <==> a.Undef?
    ensures r.R? <==> a.R?
    ensures (a.C? && a.z.im == 0.0 && m.cos(0.0) == 1.0 && m.sin(0.0) == 0.0
             && m.sinh(a.z.re) == (m.exp(a.z.re) - m.exp(-a.z.re)) / 2.0) ==> r == C(RealC(m.sinh(a.z.re)))
  {
    match a
    case C(z) => Mul(C(RealC(0.5)), Sub(Exp(m, a), Exp(m, Mul(C(RealC(-1.0)), a))))
    case R(x) => R(m.sinh(x))
    case Undef => Undef
  }

  /** `sinh(z)/cosh(z)`: the quotient for a number, NaN for anything else. */
  function Tanh(m: MathLib, a: Num): (r: Num)
    ensures r.R?
    ensures a.R? && m.cosh(a.x) != 0.0 ==> r.x * m.cosh(a.x) == m.sinh(a.x)
    ensures !a.R? ==> r == R(m.nan)
  {
    JsQuotient(m, Sinh(m, a), Cosh(m, a))
  }

  /** Every non-Complex argument goes to Math.log, which gives NaN for `undefined`. */
  function Log(m: MathLib, a: Num): (r: Num)
    ensures r.C? <==> a.C?
    ensures a.Undef? ==> r == R(m.nan)
    ensures (a.C? && a.z.im == 0.0 && a.z.re > 0.0 && AbsC(m, a.z) == a.z.re && m.atan(0.0) == 0.0) ==>
      r == C(RealC(m.log(a.z.re)))
  {
    match a
    case C(z) =>
      assert z.im == 0.0 && z.re > 0.0 ==> z.im / z.re == 0.0;
      C(Complex(m.log(AbsC(m, z)), Arg(m, z)))
    case R(x) => R(m.log(x))
    case Undef => R(m.nan)
  }

  /** Math.abs of a number, the modulus |z| of a `Complex`. */
  function Abs(m: MathLib, a: Num): (r: Num)
    ensures r.Undef? <==> a.Undef?
    ensures a.R? ==> r.R? && r.x >= 0.0 && (r.x == a.x || r.x == -a.x)
    ensures a.C? ==> r == R(AbsC(m, a.z))
  {
    match a
    case C(z) => R(AbsC(m, z))
    case R(x) => R(if x < 0.0 then -x else x)
    case Undef => Undef
  }

  /** `negate`: the additive inverse (defined in the sketch, not in its function table). */
  function Negate(a: Num): (r: Num)
    ensures r.Undef? <==> a.Undef?
    ensures r.R? <==> a.R?
    ensures !a.Undef? ==> AsComplex(Add(a, r)) == Complex(0.0, 0.0)
  {
    match a
    case C(z) => C(Complex(-z.re, -z.im))
    case R(x) => R(-x)
    case Undef => Undef
  }

  /** 1 when the real part is at least 0; `undefined >= 0` is false, so 0. */
  function Step(a: Num): Num
  {
    match a
    case C(z) => R(if z.re >= 0.0 then 1.0 else 0.0)
    case R(x) => R(if x >= 0.0 then 1.0 else 0.0)
    case Undef => R(0.0)
  }

  /** The value of a real number seen as a complex one. */
  function Promote(a: Num): Num
  {
    match a
    case R(x) => C(RealC(x))
    case _ => a
  }

  /**
   * The operation named by one of the operator characters `^ / * + -`, with
   * the dispatch rule: two plain numbers give a plain number, an `undefined`
   * operand gives `undefined`, and otherwise a complex operand makes the result
   * complex.
   */
  function BinaryOp(m: MathLib, op: char, a: Num, b: Num): (r: Num)
    requires IsOp(op)
    ensures r.R? <==> a.R? && b.R?
    ensures r.Undef? <==> a.Undef? || b.Undef?
    ensures r.C? <==> (a.C? && !b.Undef?) || (b.C? && !a.Undef?)
  {
    match op
    case '+' => Add(a, b)
    case '-' => Sub(a, b)
    case '*' => Mul(a, b)
    case '/' => Div(m, a, b)
    case '^' => Pow(m, a, b)
  }

  /**
   * Mixed operands are computed by promoting the plain number with `real`:
   * the result is the one for two complex operands.
   */
  lemma MixedOperandsArePromoted(m: MathLib, op: char, x: real, w: Complex)
    requires IsOp(op)
    ensures BinaryOp(m, op, R(x), C(w)) == BinaryOp(m, op, C(RealC(x)), C(w))
    ensures BinaryOp(m, op, C(w), R(x)) == BinaryOp(m, op, C(w), C(RealC(x)))
  {
  }

  /**
   * The real fast path agrees with the complex formulas: promoting the result
   * of two numbers equals operating on their promotions (for `/`, when the
   * divisor is not zero).  For `^` this holds because complexPow falls back to
   * Math.pow when both imaginary parts are zero.
   */
  lemma RealPathAgreesWithComplex(m: MathLib, op: char, x: real, y: real)
    requires IsOp(op)
    requires op == '/' ==> y != 0.0
    ensures Promote(BinaryOp(m, op, R(x), R(y))) == BinaryOp(m, op, C(RealC(x)), C(RealC(y)))
  {
    if op == '/' {
      var inv := FDiv(m, 1.0, Abs2(RealC(y)));
      assert inv == 1.0 / (y * y);
      calc {
        ComplexMul(RealC(inv), Conj(RealC(y)));
        Complex(inv * y, 0.0);
        { assert inv * y == 1.0 / y; }
        RealC(1.0 / y);
      }
      assert ComplexMul(RealC(x), RealC(1.0 / y)) == RealC(x / y);
    }
  }

  /**
   * The functions of the engine's table, by name (`FUNCTIONS[name](a)`).
   * A number maps to a number; `tan`, `tanh`, `abs` and `step` map a complex
   * value to a number (for `tan` and `tanh`, the NaN of dividing two objects);
   * exactly `log`, `step`, `tan`, `tanh` turn `undefined` into a number.
   */
  function ApplyFunction(m: MathLib, name: string, a: Num): (r: Num)
    ensures name !in FunctionNames ==> r.Undef?
    ensures a.R? && name in FunctionNames ==> r.R?
    ensures a.C? ==> (r.C? <==> name in {"exp", "sin", "cos", "sinh", "cosh", "log"})
    ensures a.C? && name in {"tan", "tanh"} ==> r == R(m.nan)
    ensures a.Undef? && name in FunctionNames ==> (r.R? <==> name in {"log", "step", "tan", "tanh"})
  {
    match name
    case "abs" => Abs(m, a)
    case "exp" => Exp(m, a)
    case "sin" => Sin(m, a)
    case "cos" => Cos(m, a)
    case "tan" => Tan(m, a)
    case "sinh" => Sinh(m, a)
    case "cosh" => Cosh(m, a)
    case "tanh" => Tanh(m, a)
    case "log" => Log(m, a)
    case "step" => Step(a)
    case _ => Undef
  }
}
