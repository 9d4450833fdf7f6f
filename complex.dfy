/**
  Exact complex numbers standing in for `num::Complex<f64>` and real numbers standing in for
  `f64`. Rounding, infinities, NaN and signed zeros are not represented; a division by zero,
  which IEEE arithmetic turns into an infinity or NaN, yields zero here.
*/
module ComplexNumbers {
  datatype Complex = Complex(re: real, im: real)

  const Zero: Complex := Complex(0.0, 0.0)
  const One: Complex := Complex(1.0, 0.0)

  /** `std::f64::consts::PI`, taken at its decimal value. */
  const Pi: real := 3.141592653589793

  /** A value that a `DynQuantity<f64>` can hold. */
  predicate IsReal(z: Complex) { z.im == 0.0 }

  /** `Complex::new(x, 0.0)`. */
  function FromReal(x: real): Complex { Complex(x, 0.0) }

  function Add(a: Complex, b: Complex): Complex { Complex(a.re + b.re, a.im + b.im) }

  function Sub(a: Complex, b: Complex): Complex { Complex(a.re - b.re, a.im - b.im) }

  function Mul(a: Complex, b: Complex): Complex
  {
    Complex(a.re * b.re - a.im * b.im, a.re * b.im + a.im * b.re)
  }

  /** The quotient of `num::Complex`, with zero for a zero divisor. */
  function Div(a: Complex, b: Complex): Complex
  {
    var n := b.re * b.re + b.im * b.im;
    if n == 0.0 then Zero
    else Complex((a.re * b.re + a.im * b.im) / n, (a.im * b.re - a.re * b.im) / n)
  }

  /** `Complex<f64> *= f64`: both parts are scaled. */
  function Scale(z: Complex, x: real): Complex { Complex(z.re * x, z.im * x) }

  /** `Complex<f64> /= f64`, with zero for a zero divisor. */
  function ScaleDiv(z: Complex, x: real): Complex
  {
    if x == 0.0 then Zero else Complex(z.re / x, z.im / x)
  }

  function NatPow(z: Complex, n: nat): Complex
  {
    if n == 0 then One else Mul(NatPow(z, n - 1), z)
  }

  /** `Complex::powi`: a negative exponent raises the reciprocal. */
  function Powi(z: Complex, n: int): Complex
  {
    if n >= 0 then NatPow(z, n) else NatPow(Div(One, z), -n)
  }

  function RealNatPow(x: real, n: nat): real
  {
    if n == 0 then 1.0 else RealNatPow(x, n - 1) * x
  }

  /** `f64::powi`, with zero for a negative power of zero. */
  function RealPowi(x: real, n: int): real
  {
    if n >= 0 then RealNatPow(x, n)
    else if RealNatPow(x, -n) == 0.0 then 0.0
    else 1.0 / RealNatPow(x, -n)
  }

  /** The real-valued operations never leave the real axis: `DynQuantity<f64>` is closed under them. */
  lemma RealClosedAddSub(a: Complex, b: Complex)
    requires IsReal(a) && IsReal(b)
    ensures IsReal(Add(a, b)) && IsReal(Sub(a, b))
  {
  }

  lemma RealClosedMul(a: Complex, b: Complex)
    requires IsReal(a) && IsReal(b)
    ensures Mul(a, b) == FromReal(a.re * b.re)
  {
  }

  lemma RealClosedDiv(a: Complex, b: Complex)
    requires IsReal(a) && IsReal(b)
    ensures Div(a, b) == FromReal(if b.re == 0.0 then 0.0 else a.re / b.re)
  {
    if b.re != 0.0 {
      CancelFactor(a.re, b.re, b.re);
    }
  }

  lemma {:induction false} RealNatPowAgrees(x: real, n: nat)
    ensures NatPow(FromReal(x), n) == FromReal(RealNatPow(x, n))
    decreases n
  {
    if n > 0 {
      RealNatPowAgrees(x, n - 1);
      RealClosedMul(NatPow(FromReal(x), n - 1), FromReal(x));
    }
  }

  /** `f64::powi` and `Complex::powi` agree on real arguments. */
  lemma RealPowiAgrees(x: real, n: int)
    ensures Powi(FromReal(x), n) == FromReal(RealPowi(x, n))
  {
    if n >= 0 {
      RealNatPowAgrees(x, n);
    } else {
      RealClosedDiv(One, FromReal(x));
      var r := if x == 0.0 then 0.0 else 1.0 / x;
      assert Div(One, FromReal(x)) == FromReal(r);
      RealNatPowAgrees(r, -n);
      ReciprocalPower(x, -n);
    }
  }

  /** The power of a reciprocal is the reciprocal of the power (zero staying zero). */
  lemma {:induction false} ReciprocalPower(x: real, n: nat)
    ensures RealNatPow(if x == 0.0 then 0.0 else 1.0 / x, n)
            == (if n > 0 && RealNatPow(x, n) == 0.0 then 0.0
                else if n == 0 then 1.0 else 1.0 / RealNatPow(x, n))
    decreases n
  {
    if n > 0 {
      ReciprocalPower(x, n - 1);
      if x != 0.0 {
        NonzeroPower(x, n - 1);
        var p := RealNatPow(x, n - 1);
        assert RealNatPow(x, n) == p * x;
        assert (1.0 / p) * (1.0 / x) == 1.0 / (p * x);
      } else {
        assert RealNatPow(x, n) == RealNatPow(x, n - 1) * 0.0;
      }
    }
  }

  lemma {:induction false} NonzeroPower(x: real, n: nat)
    requires x != 0.0
    ensures RealNatPow(x, n) != 0.0
    decreases n
  {
    if n > 0 {
      NonzeroPower(x, n - 1);
    }
  }

  /** Powers of a positive base are positive: scaling by `10^e` never flips or zeroes a value. */
  lemma {:induction false} PositivePower(x: real, n: int)
    requires x > 0.0
    ensures RealPowi(x, n) > 0.0
  {
    PositiveNatPow(x, if n >= 0 then n else -n);
  }

  lemma {:induction false} PositiveNatPow(x: real, n: nat)
    requires x > 0.0
    ensures RealNatPow(x, n) > 0.0
    decreases n
  {
    if n > 0 {
      PositiveNatPow(x, n - 1);
    }
  }

  /** Powers of a positive real add their exponents: x^(a+b) == x^a * x^b for all integers. */
  lemma RealPowiAdd(x: real, a: int, b: int)
    requires x > 0.0
    ensures RealPowi(x, a + b) == RealPowi(x, a) * RealPowi(x, b)
  {
    if a < 0 && b >= 0 {
      RealPowiAddLeft(x, b, a);
      assert b + a == a + b;
    } else {
      RealPowiAddLeft(x, a, b);
    }
  }

  lemma RealPowiAddLeft(x: real, a: int, b: int)
    requires x > 0.0 && (a >= 0 || b < 0)
    ensures RealPowi(x, a + b) == RealPowi(x, a) * RealPowi(x, b)
  {
    if a >= 0 && b >= 0 {
      RealNatPowAdd(x, a, b);
    } else if a < 0 {
      RealNatPowAdd(x, -a, -b);
      PositiveNatPow(x, -a);
      PositiveNatPow(x, -b);
      InverseOfProduct(RealNatPow(x, -a), RealNatPow(x, -b));
    } else if a + b >= 0 {
      RealNatPowAdd(x, a + b, -b);
      PositiveNatPow(x, -b);
      CancelInverse(RealNatPow(x, a + b), RealNatPow(x, -b));
    } else {
      var c := -(a + b);
      RealNatPowAdd(x, c, a);
      assert c + a == -b;
      PositiveNatPow(x, a);
      PositiveNatPow(x, c);
      InverseOfFactor(RealNatPow(x, c), RealNatPow(x, a));
      assert RealPowi(x, b) == 1.0 / (RealNatPow(x, c) * RealNatPow(x, a));
    }
  }

  lemma {:induction false} RealNatPowAdd(x: real, m: nat, n: nat)
    ensures RealNatPow(x, m + n) == RealNatPow(x, m) * RealNatPow(x, n)
    decreases n
  {
    if n > 0 {
      RealNatPowAdd(x, m, n - 1);
      assert m + n - 1 == m + (n - 1);
      MulAssociates(RealNatPow(x, m), RealNatPow(x, n - 1), x);
    }
  }

  lemma MulAssociates(a: real, b: real, c: real)
    ensures (a * b) * c == a * (b * c)
  {
  }

  lemma InverseOfProduct(p: real, q: real)
    requires p > 0.0 && q > 0.0
    ensures 1.0 / (p * q) == (1.0 / p) * (1.0 / q)
  {
  }

  lemma CancelInverse(r: real, p: real)
    requires p > 0.0
    ensures r == (r * p) * (1.0 / p)
  {
  }

  lemma InverseOfFactor(p: real, q: real)
    requires p > 0.0 && q > 0.0
    ensures 1.0 / p == q * (1.0 / (p * q))
  {
  }

  /** Scaling twice is scaling once by the product. */
  lemma ScaleTwice(z: Complex, x: real, y: real)
    ensures Scale(Scale(z, x), y) == Scale(z, x * y)
  {
    MulAssociates(z.re, x, y);
    MulAssociates(z.im, x, y);
  }

  /** Scaling by a positive real keeps a real number real and zero exactly zero. */
  lemma ScaleByPositive(z: Complex, x: real)
    requires x > 0.0
    ensures IsReal(z) ==> IsReal(Scale(z, x))
    ensures Scale(z, x) == Zero <==> z == Zero
  {
    if Scale(z, x) == Zero {
      assert z.re * x == 0.0 && z.im * x == 0.0;
    }
  }

  /** Scaling by a real is multiplication by that real as a complex number. */
  lemma ScaleIsMul(z: Complex, x: real)
    ensures Scale(z, x) == Mul(z, FromReal(x))
  {
  }

  /** Dividing by a divisor of non-zero norm (in exact arithmetic: any non-zero divisor) undoes multiplying by it. */
  lemma DivUndoesMul(a: Complex, b: Complex)
    requires b.re * b.re + b.im * b.im != 0.0
    ensures Div(Mul(a, b), b) == a
  {
    var n := b.re * b.re + b.im * b.im;
    var m := Mul(a, b);
    assert m.re * b.re + m.im * b.im == a.re * n;
    assert m.im * b.re - m.re * b.im == a.im * n;
    CancelRight(a.re, n);
    CancelRight(a.im, n);
  }

  lemma CancelRight(x: real, n: real)
    requires n != 0.0
    ensures (x * n) / n == x
  {
  }

  lemma CancelFactor(p: real, q: real, r: real)
    requires q != 0.0 && r != 0.0
    ensures (p * r) / (q * r) == p / q
  {
    var x := p / q;
    assert p == x * q;
    assert p * r == x * (q * r);
  }

  /** Subtracting undoes adding. */
  lemma SubUndoesAdd(a: Complex, b: Complex)
    ensures Sub(Add(a, b), b) == a
  {
  }

  /** `i * i == -1`, the fact behind "(2i)^2" being real. */
  lemma ImaginaryUnitSquared()
    ensures Powi(Complex(0.0, 2.0), 2) == FromReal(-4.0)
  {
    assert NatPow(Complex(0.0, 2.0), 1) == Complex(0.0, 2.0);
  }

  lemma TwoCubed()
    ensures RealNatPow(2.0, 3) == 8.0
  {
    assert RealNatPow(2.0, 0) == 1.0;
    assert RealNatPow(2.0, 1) == 2.0;
    assert RealNatPow(2.0, 2) == 4.0;
  }

  /** `2.0.powi(3) == 8.0`, on the complex power as on the real one. */
  lemma CubeOfTwo()
    ensures Powi(FromReal(2.0), 3) == FromReal(8.0)
  {
    RealPowiAgrees(2.0, 3);
    TwoCubed();
  }
}
