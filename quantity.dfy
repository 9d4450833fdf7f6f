/**
  `DynQuantity` (src/quantity/mod.rs, and the older copy in src/lib.rs): a magnitude together
  with its unit, checked addition and subtraction, products and quotients, roots, conversions
  and the unit suffix of its display.

  `DynQuantity` is a plain `Copy` value; a Rust method that updates it through `&mut self` is a
  method here that returns the updated value.
*/
module Quantities {
  import opened Wrappers
  import U = Units
  import C = ComplexNumbers
  import E = Errors
  import Numerals
  import Texts

  datatype DynQuantity = DynQuantity(value: C.Complex, unit: U.Unit)

  /** `DynQuantity<f64>`: a quantity whose magnitude is real. */
  type RealQuantity = q: DynQuantity | C.IsReal(q.value) witness DynQuantity(C.Zero, U.Dimensionless)

  // ----- Checked addition and subtraction -----

  /** `try_add`: the sum exists exactly when both units agree, and then keeps that unit. */
  function TryAdd(self: DynQuantity, other: DynQuantity): (r: Result<DynQuantity, E.UnitsNotEqual>)
    ensures r.Ok? <==> self.unit == other.unit
    ensures r.Ok? ==> r.value.unit == self.unit && r.value.value == C.Add(self.value, other.value)
    ensures r.Err? ==> r.error == E.UnitsNotEqual(self.unit, other.unit)
  {
    if self.unit == other.unit then Ok(DynQuantity(C.Add(self.value, other.value), self.unit))
    else Err(E.UnitsNotEqual(self.unit, other.unit))
  }

  /** `try_sub`, by the same rule. */
  function TrySub(self: DynQuantity, other: DynQuantity): (r: Result<DynQuantity, E.UnitsNotEqual>)
    ensures r.Ok? <==> self.unit == other.unit
    ensures r.Ok? ==> r.value.unit == self.unit && r.value.value == C.Sub(self.value, other.value)
    ensures r.Err? ==> r.error == E.UnitsNotEqual(self.unit, other.unit)
  {
    if self.unit == other.unit then Ok(DynQuantity(C.Sub(self.value, other.value), self.unit))
    else Err(E.UnitsNotEqual(self.unit, other.unit))
  }

  /** `try_add_assign`: on success `self` becomes the sum, on failure it is left as it was. */
  method TryAddAssign(self: DynQuantity, other: DynQuantity)
    returns (updated: DynQuantity, r: Result<(), E.UnitsNotEqual>)
    ensures r.Ok? <==> self.unit == other.unit
    ensures r.Ok? ==> Ok(updated) == TryAdd(self, other)
    ensures r.Err? ==> updated == self && r.error == TryAdd(self, other).error
  {
    if self.unit == other.unit {
      updated := self.(value := C.Add(self.value, other.value));
      r := Ok(());
    } else {
      updated := self;
      r := Err(E.UnitsNotEqual(self.unit, other.unit));
    }
  }

  /** `try_sub_assign`: on success `self` becomes the difference, on failure it is left as it was. */
  method TrySubAssign(self: DynQuantity, other: DynQuantity)
    returns (updated: DynQuantity, r: Result<(), E.UnitsNotEqual>)
    ensures r.Ok? <==> self.unit == other.unit
    ensures r.Ok? ==> Ok(updated) == TrySub(self, other)
    ensures r.Err? ==> updated == self && r.error == TrySub(self, other).error
  {
    if self.unit == other.unit {
      updated := self.(value := C.Sub(self.value, other.value));
      r := Ok(());
    } else {
      updated := self;
      r := Err(E.UnitsNotEqual(self.unit, other.unit));
    }
  }

  /** Addition is symmetric: both orders succeed or fail together, and the failures name the units swapped. */
  lemma TryAddSymmetric(a: DynQuantity, b: DynQuantity)
    ensures TryAdd(a, b).Ok? == TryAdd(b, a).Ok?
    ensures TryAdd(a, b).Ok? ==> TryAdd(a, b).value == TryAdd(b, a).value
    ensures TryAdd(a, b).Err? ==> TryAdd(b, a).error == E.UnitsNotEqual(b.unit, a.unit)
  {
  }

  /** Subtracting what was added gives back the original quantity. */
  lemma TrySubUndoesTryAdd(a: DynQuantity, b: DynQuantity)
    requires TryAdd(a, b).Ok?
    ensures TrySub(TryAdd(a, b).value, b) == Ok(a)
  {
    C.SubUndoesAdd(a.value, b.value);
  }

  // ----- Products, quotients and powers -----

  /** `Mul for DynQuantity`: magnitudes multiply, units multiply. */
  function Mul(a: DynQuantity, b: DynQuantity): DynQuantity
  {
    DynQuantity(C.Mul(a.value, b.value), U.Mul(a.unit, b.unit))
  }

  /** `Div for DynQuantity`: magnitudes divide, units divide. */
  function Div(a: DynQuantity, b: DynQuantity): DynQuantity
  {
    DynQuantity(C.Div(a.value, b.value), U.Div(a.unit, b.unit))
  }

  method MulAssign(self: DynQuantity, rhs: DynQuantity) returns (updated: DynQuantity)
    ensures updated == Mul(self, rhs)
  {
    updated := self.(value := C.Mul(self.value, rhs.value));
    var unit := U.MulAssign(updated.unit, rhs.unit);
    updated := updated.(unit := unit);
  }

  method DivAssign(self: DynQuantity, rhs: DynQuantity) returns (updated: DynQuantity)
    ensures updated == Div(self, rhs)
  {
    updated := self.(value := C.Div(self.value, rhs.value));
    var unit := U.DivAssign(updated.unit, rhs.unit);
    updated := updated.(unit := unit);
  }

  /** `Mul<f64>`: only the magnitude is scaled; it is a product with a dimensionless quantity. */
  function MulScalar(q: DynQuantity, x: real): (r: DynQuantity)
    ensures r.unit == q.unit
    ensures r == Mul(q, FromComplex(C.FromReal(x)))
  {
    C.ScaleIsMul(q.value, x);
    U.GroupLaws(q.unit, U.Dimensionless, U.Dimensionless);
    q.(value := C.Scale(q.value, x))
  }

  /** `Div<f64>`: only the magnitude is divided (a zero divisor gives zero here). */
  function DivScalar(q: DynQuantity, x: real): (r: DynQuantity)
    ensures r.unit == q.unit
    ensures x == 0.0 ==> r.value == C.Zero
  {
    q.(value := C.ScaleDiv(q.value, x))
  }

  /** Scaling back up by a non-zero divisor restores the quantity. */
  lemma MulScalarUndoesDivScalar(q: DynQuantity, x: real)
    requires x != 0.0
    ensures MulScalar(DivScalar(q, x), x) == q
  {
    C.CancelRight(q.value.re / x, x);
    C.CancelRight(q.value.im / x, x);
  }

  /** Dividing by a quantity of non-zero magnitude undoes multiplying by it, unit and value alike. */
  lemma DivUndoesMul(a: DynQuantity, b: DynQuantity)
    requires b.value.re * b.value.re + b.value.im * b.value.im != 0.0
    ensures Div(Mul(a, b), b) == a
  {
    C.DivUndoesMul(a.value, b.value);
    U.GroupLaws(a.unit, b.unit, b.unit);
  }

  /** `powi`: the magnitude and the unit are raised together. */
  function Powi(q: DynQuantity, n: int): (r: DynQuantity)
    ensures r.unit == U.Power(q.unit, n)
  {
    DynQuantity(C.Powi(q.value, n), U.Power(q.unit, n))
  }

  /** On a real magnitude, `powi` is the real power `f64::powi`. */
  lemma PowiOfReal(q: RealQuantity, n: int)
    ensures Powi(q, n).value == C.FromReal(C.RealPowi(q.value.re, n))
  {
    C.RealPowiAgrees(q.value.re, n);
  }

  /** "2 A^2" raised to the third power has value 8 and ampere exponent 6. */
  lemma PowiExample()
    ensures Powi(DynQuantity(C.FromReal(2.0), U.Unit(0, 0, 0, 2, 0, 0, 0)), 3)
            == DynQuantity(C.FromReal(8.0), U.Unit(0, 0, 0, 6, 0, 0, 0))
  {
    C.CubeOfTwo();
  }

  /**
    `try_nthroot`: the unit's root is taken first and its `RootError` is returned before the
    magnitude is touched; `nthRoot` stands for the magnitude's own `nth_root`.
  */
  function TryNthRoot(q: DynQuantity, n: int, nthRoot: (C.Complex, int) -> C.Complex)
    : (r: Result<DynQuantity, U.RootError>)
    requires n != 0
    ensures r.Ok? <==> U.DivisibleBy(q.unit, n)
    ensures r.Ok? ==> U.Power(r.value.unit, n) == q.unit && r.value.value == nthRoot(q.value, n)
    ensures r.Err? ==> r.error == U.RootError(n, q.unit)
  {
    match U.Root(q.unit, n)
    case Err(e) => Err(e)
    case Ok(unit) => Ok(DynQuantity(nthRoot(q.value, n), unit))
  }

  /** The root of a power always succeeds and gives back the original unit. */
  lemma RootOfPowi(q: DynQuantity, n: int, nthRoot: (C.Complex, int) -> C.Complex)
    requires n != 0
    ensures TryNthRoot(Powi(q, n), n, nthRoot).Ok?
    ensures TryNthRoot(Powi(q, n), n, nthRoot).value.unit == q.unit
  {
    U.RootOfPower(q.unit, n);
  }

  /** Real quantities stay real under the operations the evaluator applies. */
  lemma RealClosed(a: RealQuantity, b: RealQuantity, x: real, n: int)
    ensures C.IsReal(Mul(a, b).value) && C.IsReal(Div(a, b).value)
    ensures C.IsReal(MulScalar(a, x).value) && C.IsReal(DivScalar(a, x).value)
    ensures C.IsReal(Powi(a, n).value)
    ensures TryAdd(a, b).Ok? ==> C.IsReal(TryAdd(a, b).value.value)
    ensures TrySub(a, b).Ok? ==> C.IsReal(TrySub(a, b).value.value)
  {
    C.RealClosedMul(a.value, b.value);
    C.RealClosedDiv(a.value, b.value);
    PowiOfReal(a, n);
  }

  // ----- Conversions -----

  /** `F64RealOrComplex::try_from_complexf64` for `f64`: only a number without imaginary part converts. */
  function RealFromComplex(z: C.Complex): (r: Result<real, E.NotConvertibleFromComplexF64>)
    ensures r.Ok? <==> C.IsReal(z)
    ensures r.Ok? ==> C.FromReal(r.value) == z
    ensures r.Err? ==> r.error == E.NotConvertibleFromComplexF64(z, "f64")
  {
    if z.im == 0.0 then Ok(z.re) else Err(E.NotConvertibleFromComplexF64(z, "f64"))
  }

  /** `TryFrom<DynQuantity<Complex<f64>>> for DynQuantity<f64>`: narrowing keeps the unit. */
  function Narrow(q: DynQuantity): (r: Result<RealQuantity, E.NotConvertibleFromComplexF64>)
    ensures r.Ok? <==> C.IsReal(q.value)
    ensures r.Ok? ==> r.value == q
    ensures r.Err? ==> r.error == E.NotConvertibleFromComplexF64(q.value, "f64")
  {
    match RealFromComplex(q.value)
    case Ok(x) =>
      var narrowed: RealQuantity := DynQuantity(C.FromReal(x), q.unit);
      Ok(narrowed)
    case Err(e) => Err(e)
  }

  /** `From<f64> for DynQuantity<f64>`. */
  function FromReal(x: real): (q: RealQuantity)
    ensures U.IsDimensionless(q.unit) && q.value.re == x
  {
    DynQuantity(C.FromReal(x), U.Dimensionless)
  }

  /** `From<Complex<f64>> for DynQuantity<Complex<f64>>`. */
  function FromComplex(z: C.Complex): (q: DynQuantity)
    ensures U.IsDimensionless(q.unit) && q.value == z
  {
    DynQuantity(z, U.Dimensionless)
  }

  /** `TryFrom<DynQuantity<f64>> for f64`: only a dimensionless quantity gives up its number. */
  function ToReal(q: RealQuantity): (r: Result<real, E.ConversionError>)
    ensures r.Ok? <==> U.IsDimensionless(q.unit)
    ensures r.Ok? ==> FromReal(r.value) == q
    ensures r.Err? ==> r.error == E.UnitMismatch(U.Dimensionless, q.unit)
  {
    U.DimensionlessIsDefault(q.unit);
    if U.IsDimensionless(q.unit) then Ok(q.value.re) else Err(E.UnitMismatch(U.Dimensionless, q.unit))
  }

  /** `TryFrom<DynQuantity<Complex<f64>>> for Complex<f64>`, by the same rule. */
  function ToComplex(q: DynQuantity): (r: Result<C.Complex, E.ConversionError>)
    ensures r.Ok? <==> U.IsDimensionless(q.unit)
    ensures r.Ok? ==> FromComplex(r.value) == q
    ensures r.Err? ==> r.error == E.UnitMismatch(U.Dimensionless, q.unit)
  {
    U.DimensionlessIsDefault(q.unit);
    if U.IsDimensionless(q.unit) then Ok(q.value) else Err(E.UnitMismatch(U.Dimensionless, q.unit))
  }

  /** Plain numbers survive the trip into a dimensionless quantity and back. */
  lemma NumberRoundTrips(x: real, z: C.Complex)
    ensures ToReal(FromReal(x)) == Ok(x)
    ensures ToComplex(FromComplex(z)) == Ok(z)
  {
  }

  /** `to_vec`: the magnitudes, in order, whatever their units. */
  method ToVec(qs: seq<DynQuantity>) returns (values: seq<C.Complex>)
    ensures |values| == |qs|
    ensures forall i :: 0 <= i < |qs| ==> values[i] == qs[i].value
  {
    values := [];
    for i := 0 to |qs|
      invariant |values| == i
      invariant forall j :: 0 <= j < i ==> values[j] == qs[j].value
    {
      values := values + [qs[i].value];
    }
  }

  /** All quantities carry the unit of the first one. */
  predicate SameUnits(qs: seq<DynQuantity>)
  {
    forall i :: 0 <= i < |qs| ==> qs[i].unit == qs[0].unit
  }

  /**
    `to_vec_checked`: the magnitudes in order when every unit equals the first one (so `Ok([])`
    for no quantities); otherwise the mismatch of the first deviating element.
  */
  method ToVecChecked(qs: seq<RealQuantity>) returns (r: Result<seq<real>, E.ConversionError>)
    ensures r.Ok? <==> SameUnits(qs)
    ensures r.Ok? ==> |r.value| == |qs| && forall i :: 0 <= i < |qs| ==> r.value[i] == qs[i].value.re
    ensures r.Err? ==> exists k :: 0 < k < |qs| && SameUnits(qs[..k]) && qs[k].unit != qs[0].unit
                                   && r.error == E.UnitMismatch(qs[0].unit, qs[k].unit)
  {
    var output: seq<real> := [];
    if |qs| > 0 {
      var first := qs[0].unit;
      for i := 0 to |qs|
        invariant |output| == i
        invariant forall j :: 0 <= j < i ==> qs[j].unit == first && output[j] == qs[j].value.re
      {
        if qs[i].unit != first {
          assert SameUnits(qs[..i]) by {
            forall j | 0 <= j < i ensures qs[..i][j].unit == qs[..i][0].unit {
            }
          }
          return Err(E.UnitMismatch(first, qs[i].unit));
        }
        output := output + [qs[i].value.re];
      }
    }
    return Ok(output);
  }

  // ----- Display -----

  /** One base unit of the display: nothing for exponent 0, the bare symbol for 1, else "symbol^n". */
  function Part(symbol: string, n: int): string
  {
    if n == 0 then "" else if n == 1 then " " + symbol else " " + symbol + "^" + Numerals.IntToString(n)
  }

  /** The unit suffix of `Display for DynQuantity`, base units in the order s, m, kg, A, K, mol, cd. */
  function UnitSuffix(u: U.Unit): string
  {
    Part("s", u.second) + Part("m", u.meter) + Part("kg", u.kilogram) + Part("A", u.ampere)
      + Part("K", u.kelvin) + Part("mol", u.mol) + Part("cd", u.candela)
  }

  /**
    `Display for DynQuantity`: a magnitude without imaginary part prints as its real part,
    any other in brackets; the float and complex formatters are parameters.
  */
  function Display(q: DynQuantity, formatReal: real -> string, formatComplex: C.Complex -> string): string
  {
    (if q.value.im == 0.0 then formatReal(q.value.re) else "(" + formatComplex(q.value) + ")")
      + UnitSuffix(q.unit)
  }

  function NonzeroCount(u: U.Unit): nat
  {
    (if u.second != 0 then 1 else 0) + (if u.meter != 0 then 1 else 0)
      + (if u.kilogram != 0 then 1 else 0) + (if u.ampere != 0 then 1 else 0)
      + (if u.kelvin != 0 then 1 else 0) + (if u.mol != 0 then 1 else 0)
      + (if u.candela != 0 then 1 else 0)
  }

  /** A part holds one space exactly when its exponent is not zero. */
  lemma SpacesInPart(symbol: string, n: int)
    requires ' ' !in symbol
    ensures Texts.Occurrences(' ', Part(symbol, n)) == (if n == 0 then 0 else 1)
  {
    if n == 1 {
      Texts.OccurrencesOfConcat(' ', " ", symbol);
      Texts.NoOccurrences(' ', symbol);
    } else if n != 0 {
      var e := Numerals.IntToString(n);
      Numerals.IntToStringAvoids(n, ' ');
      Texts.NoOccurrences(' ', symbol);
      Texts.NoOccurrences(' ', e);
      Texts.OccurrencesOfConcat(' ', " ", symbol);
      Texts.OccurrencesOfConcat(' ', " " + symbol, "^");
      Texts.OccurrencesOfConcat(' ', " " + symbol + "^", e);
    }
  }

  /** The suffix holds as many spaces as the unit has non-zero exponents. */
  lemma SuffixListsNonzeroExponents(u: U.Unit)
    ensures Texts.Occurrences(' ', UnitSuffix(u)) == NonzeroCount(u)
  {
    var p0, p1, p2, p3 := Part("s", u.second), Part("m", u.meter), Part("kg", u.kilogram), Part("A", u.ampere);
    var p4, p5, p6 := Part("K", u.kelvin), Part("mol", u.mol), Part("cd", u.candela);
    SpacesInPart("s", u.second);
    SpacesInPart("m", u.meter);
    SpacesInPart("kg", u.kilogram);
    SpacesInPart("A", u.ampere);
    SpacesInPart("K", u.kelvin);
    SpacesInPart("mol", u.mol);
    SpacesInPart("cd", u.candela);
    Texts.OccurrencesOfConcat(' ', p0, p1);
    Texts.OccurrencesOfConcat(' ', p0 + p1, p2);
    Texts.OccurrencesOfConcat(' ', p0 + p1 + p2, p3);
    Texts.OccurrencesOfConcat(' ', p0 + p1 + p2 + p3, p4);
    Texts.OccurrencesOfConcat(' ', p0 + p1 + p2 + p3 + p4, p5);
    Texts.OccurrencesOfConcat(' ', p0 + p1 + p2 + p3 + p4 + p5, p6);
  }

  /** The suffix is empty exactly for a dimensionless quantity. */
  lemma SuffixEmptyIffDimensionless(u: U.Unit)
    ensures UnitSuffix(u) == [] <==> U.IsDimensionless(u)
  {
    SuffixListsNonzeroExponents(u);
    if UnitSuffix(u) == [] {
      assert Texts.Occurrences(' ', UnitSuffix(u)) == 0;
    }
  }

  /** 1000 per square metre prints its unit as " m^-2", the exponent 1 left implicit for " A". */
  lemma SuffixExamples()
    ensures UnitSuffix(U.Unit(0, -2, 0, 0, 0, 0, 0)) == " m^-2"
    ensures UnitSuffix(U.Unit(0, 0, 0, 1, 0, 0, 0)) == " A"
  {
    assert Numerals.IntToString(-2) == "-2";
  }

  /** A dimensionless quantity prints as its magnitude alone; a real one through the float formatter. */
  lemma DimensionlessDisplay(q: DynQuantity, formatReal: real -> string, formatComplex: C.Complex -> string)
    requires U.IsDimensionless(q.unit)
    ensures Display(q, formatReal, formatComplex)
            == if q.value.im == 0.0 then formatReal(q.value.re) else "(" + formatComplex(q.value) + ")"
  {
    SuffixEmptyIffDimensionless(q.unit);
  }

  /** "1000 m^-2" and "(1+2i) A", given how the number formatters print those magnitudes. */
  lemma DisplayExamples(formatReal: real -> string, formatComplex: C.Complex -> string)
    requires formatReal(1000.0) == "1000" && formatComplex(C.Complex(1.0, 2.0)) == "1+2i"
    ensures Display(DynQuantity(C.FromReal(1000.0), U.Unit(0, -2, 0, 0, 0, 0, 0)), formatReal, formatComplex)
            == "1000 m^-2"
    ensures Display(DynQuantity(C.Complex(1.0, 2.0), U.Unit(0, 0, 0, 1, 0, 0, 0)), formatReal, formatComplex)
            == "(1+2i) A"
  {
    SuffixExamples();
  }
}
