/**
  The exponent vector of the seven SI base units: `Unit` in src/unit/mod.rs and its older twin
  `UnitExponents` in src/lib.rs, which have the same fields, the same algebra and the same
  display. Exponents are mathematical integers.
*/
module Units {
  import opened Wrappers
  import Numerals
  import Texts

  /** Exponents of second, meter, kilogram, ampere, kelvin, mol and candela. */
  datatype Unit = Unit(second: int, meter: int, kilogram: int, ampere: int,
                       kelvin: int, mol: int, candela: int)

  /** The name src/lib.rs gives the same vector. */
  type UnitExponents = Unit

  /** `Unit::default()`: every exponent zero. */
  const Dimensionless: Unit := Unit(0, 0, 0, 0, 0, 0, 0)

  /** The error of a failed `n`th root: the root and the exponents it was asked of (src/error.rs). */
  datatype RootError = RootError(n: int, unit: Unit)

  predicate IsDimensionless(u: Unit)
  {
    u.second == 0 && u.meter == 0 && u.kilogram == 0 && u.ampere == 0
    && u.kelvin == 0 && u.mol == 0 && u.candela == 0
  }

  /** The `Mul` operator: the unit of a product. */
  function Mul(a: Unit, b: Unit): Unit
  {
    Unit(a.second + b.second, a.meter + b.meter, a.kilogram + b.kilogram, a.ampere + b.ampere,
         a.kelvin + b.kelvin, a.mol + b.mol, a.candela + b.candela)
  }

  /** The `Div` operator: the unit of a quotient. */
  function Div(a: Unit, b: Unit): Unit
  {
    Unit(a.second - b.second, a.meter - b.meter, a.kilogram - b.kilogram, a.ampere - b.ampere,
         a.kelvin - b.kelvin, a.mol - b.mol, a.candela - b.candela)
  }

  /** The unit of a quantity raised to the integer power `n`. */
  function Power(u: Unit, n: int): Unit
  {
    Unit(u.second * n, u.meter * n, u.kilogram * n, u.ampere * n,
         u.kelvin * n, u.mol * n, u.candela * n)
  }

  /** Every exponent is a multiple of `n`. */
  predicate DivisibleBy(u: Unit, n: int)
    requires n != 0
  {
    u.second % n == 0 && u.meter % n == 0 && u.kilogram % n == 0 && u.ampere % n == 0
    && u.kelvin % n == 0 && u.mol % n == 0 && u.candela % n == 0
  }

  /**
    The `n`th root of a unit. Rust's `%` and `/` truncate where Dafny's are Euclidean, but the
    two agree on whether the remainder is zero and, when it is, on the quotient.
  */
  function Root(u: Unit, n: int): (r: Result<Unit, RootError>)
    requires n != 0
    ensures r.Ok? ==> Power(r.value, n) == u
    ensures r.Err? ==> r.error == RootError(n, u)
  {
    if DivisibleBy(u, n) then
      Ok(Unit(u.second / n, u.meter / n, u.kilogram / n, u.ampere / n,
              u.kelvin / n, u.mol / n, u.candela / n))
    else Err(RootError(n, u))
  }

  /** `mul_assign`: adds the exponents of `rhs` one field at a time. */
  method MulAssign(self: Unit, rhs: Unit) returns (updated: Unit)
    ensures updated == Mul(self, rhs)
  {
    updated := self;
    updated := updated.(second := updated.second + rhs.second);
    updated := updated.(meter := updated.meter + rhs.meter);
    updated := updated.(kilogram := updated.kilogram + rhs.kilogram);
    updated := updated.(ampere := updated.ampere + rhs.ampere);
    updated := updated.(kelvin := updated.kelvin + rhs.kelvin);
    updated := updated.(mol := updated.mol + rhs.mol);
    updated := updated.(candela := updated.candela + rhs.candela);
  }

  /** `div_assign`: subtracts the exponents of `rhs` one field at a time. */
  method DivAssign(self: Unit, rhs: Unit) returns (updated: Unit)
    ensures updated == Div(self, rhs)
  {
    updated := self;
    updated := updated.(second := updated.second - rhs.second);
    updated := updated.(meter := updated.meter - rhs.meter);
    updated := updated.(kilogram := updated.kilogram - rhs.kilogram);
    updated := updated.(ampere := updated.ampere - rhs.ampere);
    updated := updated.(kelvin := updated.kelvin - rhs.kelvin);
    updated := updated.(mol := updated.mol - rhs.mol);
    updated := updated.(candela := updated.candela - rhs.candela);
  }

  /** `powi`: multiplies the exponents by `n` one field at a time. */
  method Powi(self: Unit, n: int) returns (r: Unit)
    ensures r == Power(self, n)
  {
    r := self;
    r := r.(second := r.second * n);
    r := r.(meter := r.meter * n);
    r := r.(kilogram := r.kilogram * n);
    r := r.(ampere := r.ampere * n);
    r := r.(kelvin := r.kelvin * n);
    r := r.(mol := r.mol * n);
    r := r.(candela := r.candela * n);
  }

  /** One step of `try_nthroot`: the quotient of one exponent, or the error naming the original unit. */
  function RootStep(original: Unit, exp: int, n: int): Result<int, RootError>
    requires n != 0
  {
    if exp % n == 0 then Ok(exp / n) else Err(RootError(n, original))
  }

  /**
    `try_nthroot`: replaces the exponents one at a time and returns at the first that `n` does not
    divide. It succeeds exactly when `n` divides all seven, and then gives the `n`th root.
  */
  method TryNthRoot(self: Unit, n: int) returns (r: Result<Unit, RootError>)
    requires n != 0
    ensures r.Ok? <==> DivisibleBy(self, n)
    ensures r.Ok? ==> Power(r.value, n) == self
    ensures r.Err? ==> r.error == RootError(n, self)
    ensures r == Root(self, n)
  {
    var initExp := self;
    var cur := self;
    var step := RootStep(initExp, cur.second, n);
    if step.Err? { return Err(step.error); }
    cur := cur.(second := step.value);
    step := RootStep(initExp, cur.meter, n);
    if step.Err? { return Err(step.error); }
    cur := cur.(meter := step.value);
    step := RootStep(initExp, cur.kilogram, n);
    if step.Err? { return Err(step.error); }
    cur := cur.(kilogram := step.value);
    step := RootStep(initExp, cur.ampere, n);
    if step.Err? { return Err(step.error); }
    cur := cur.(ampere := step.value);
    step := RootStep(initExp, cur.kelvin, n);
    if step.Err? { return Err(step.error); }
    cur := cur.(kelvin := step.value);
    step := RootStep(initExp, cur.mol, n);
    if step.Err? { return Err(step.error); }
    cur := cur.(mol := step.value);
    step := RootStep(initExp, cur.candela, n);
    if step.Err? { return Err(step.error); }
    cur := cur.(candela := step.value);
    return Ok(cur);
  }

  /** `[i32; 7]`, in the order s, m, kg, A, K, mol, cd. */
  type ExponentArray = a: seq<int> | |a| == 7 witness [0, 0, 0, 0, 0, 0, 0]

  /** `From<[i32; 7]> for Unit`. */
  function FromArray(a: ExponentArray): Unit
  {
    Unit(a[0], a[1], a[2], a[3], a[4], a[5], a[6])
  }

  /** `From<Unit> for [i32; 7]`. */
  function ToArray(u: Unit): ExponentArray
  {
    [u.second, u.meter, u.kilogram, u.ampere, u.kelvin, u.mol, u.candela]
  }

  /** Rust's `Display` text of an exponent. */
  function Exponent(n: int): string { Numerals.IntToString(n) }

  /** The symbols and exponents in display order. */
  function Fields(u: Unit): seq<(string, int)>
  {
    [("s", u.second), ("m", u.meter), ("kg", u.kilogram), ("A", u.ampere),
     ("K", u.kelvin), ("mol", u.mol), ("cd", u.candela)]
  }

  /** `sym^e`, the fields joined by single spaces. */
  function Render(fields: seq<(string, int)>): string
    requires |fields| > 0
  {
    if |fields| == 1 then fields[0].0 + ("^" + Exponent(fields[0].1))
    else fields[0].0 + ("^" + (Exponent(fields[0].1) + (" " + Render(fields[1..]))))
  }

  /** `Display for Unit`: "s^a m^b kg^c A^d K^e mol^f cd^g", all seven exponents. */
  function Display(u: Unit): string
  {
    Render(Fields(u))
  }

  // ----- Algebra -----

  /** Unit vectors form an abelian group under Mul, with Dimensionless as identity and Div as inverse. */
  lemma GroupLaws(a: Unit, b: Unit, c: Unit)
    ensures Mul(a, b) == Mul(b, a)
    ensures Mul(Mul(a, b), c) == Mul(a, Mul(b, c))
    ensures Mul(a, Dimensionless) == a
    ensures Div(Mul(a, b), b) == a && Mul(Div(a, b), b) == a
    ensures Div(a, a) == Dimensionless
  {
  }

  /** Powers distribute over products and add in the exponent. */
  lemma PowerLaws(a: Unit, b: Unit, m: int, n: int)
    ensures Power(Mul(a, b), n) == Mul(Power(a, n), Power(b, n))
    ensures Power(a, m + n) == Mul(Power(a, m), Power(a, n))
    ensures Power(Power(a, m), n) == Power(a, m * n)
    ensures Power(a, 1) == a && Power(a, 0) == Dimensionless
    ensures Power(a, -1) == Div(Dimensionless, a)
  {
    PowerDistributes(a, b, n);
    PowerAdds(a, m, n);
    PowerComposes(a, m, n);
  }

  lemma PowerDistributes(a: Unit, b: Unit, n: int)
    ensures Power(Mul(a, b), n) == Mul(Power(a, n), Power(b, n))
  {
  }

  lemma PowerAdds(a: Unit, m: int, n: int)
    ensures Power(a, m + n) == Mul(Power(a, m), Power(a, n))
  {
  }

  lemma PowerComposes(a: Unit, m: int, n: int)
    ensures Power(Power(a, m), n) == Power(a, m * n)
  {
    MulAssoc(a.second, m, n);
    MulAssoc(a.meter, m, n);
    MulAssoc(a.kilogram, m, n);
    MulAssoc(a.ampere, m, n);
    MulAssoc(a.kelvin, m, n);
    MulAssoc(a.mol, m, n);
    MulAssoc(a.candela, m, n);
  }

  lemma MulAssoc(x: int, m: int, n: int)
    ensures x * m * n == x * (m * n)
  {
  }

  lemma MultipleDivides(x: int, n: int)
    requires n != 0
    ensures (x * n) % n == 0 && (x * n) / n == x
  {
    var q, r := (x * n) / n, (x * n) % n;
    assert x * n == q * n + r;
    var d := x - q;
    assert d * n == x * n - q * n;
    if d != 0 {
      AbsOfProduct(d, n);
      FactorAtLeastOne(Abs(d), Abs(n));
      assert false;
    }
  }

  function Abs(x: int): nat { if x < 0 then -x else x }

  lemma AbsOfProduct(d: int, n: int)
    ensures Abs(d * n) == Abs(d) * Abs(n)
  {
    if d < 0 && n < 0 { assert d * n == (-d) * (-n); }
    else if d < 0 { assert d * n == -((-d) * n); }
    else if n < 0 { assert d * n == -(d * (-n)); }
  }

  lemma {:induction false} FactorAtLeastOne(d: nat, n: nat)
    requires d >= 1
    ensures d * n >= n
  {
    if d > 1 {
      FactorAtLeastOne(d - 1, n);
      assert d * n == (d - 1) * n + n;
    }
  }

  /** `try_nthroot(n)` undoes `powi(n)`. */
  lemma RootOfPower(u: Unit, n: int)
    requires n != 0
    ensures Root(Power(u, n), n) == Ok(u)
  {
    MultipleDivides(u.second, n);
    MultipleDivides(u.meter, n);
    MultipleDivides(u.kilogram, n);
    MultipleDivides(u.ampere, n);
    MultipleDivides(u.kelvin, n);
    MultipleDivides(u.mol, n);
    MultipleDivides(u.candela, n);
  }

  /** The root exists exactly when the unit is an `n`th power. */
  lemma RootSucceedsIffPower(u: Unit, n: int)
    requires n != 0
    ensures Root(u, n).Ok? <==> exists v :: Power(v, n) == u
  {
    if exists v :: Power(v, n) == u {
      var v :| Power(v, n) == u;
      RootOfPower(v, n);
    }
  }

  /** `IsDimensionless` holds of the default unit and of no other. */
  lemma DimensionlessIsDefault(u: Unit)
    ensures IsDimensionless(u) <==> u == Dimensionless
  {
  }

  /** The array conversions are mutual inverses, in the order s, m, kg, A, K, mol, cd. */
  lemma ArrayRoundTrip(u: Unit, a: ExponentArray)
    ensures FromArray(ToArray(u)) == u
    ensures ToArray(FromArray(a)) == a
    ensures ToArray(u)[0] == u.second && ToArray(u)[6] == u.candela
  {
  }

  // ----- Display -----

  lemma {:induction false} RenderInjective(fs: seq<(string, int)>, gs: seq<(string, int)>)
    requires |fs| == |gs| > 0
    requires forall i :: 0 <= i < |fs| ==> fs[i].0 == gs[i].0
    requires Render(fs) == Render(gs)
    ensures forall i :: 0 <= i < |fs| ==> fs[i].1 == gs[i].1
  {
    var a, b := Exponent(fs[0].1), Exponent(gs[0].1);
    Numerals.IntToStringAvoids(fs[0].1, ' ');
    Numerals.IntToStringAvoids(gs[0].1, ' ');
    if |fs| == 1 {
      assert fs[0].0 + ("^" + a) == (fs[0].0 + "^") + a;
      assert gs[0].0 + ("^" + b) == (fs[0].0 + "^") + b;
      Texts.StripPrefix(fs[0].0 + "^", a, b);
      Numerals.IntToStringInjective(fs[0].1, gs[0].1);
    } else {
      var rf, rg := Render(fs[1..]), Render(gs[1..]);
      assert fs[0].0 + ("^" + (a + (" " + rf))) == (fs[0].0 + "^") + (a + (" " + rf));
      assert gs[0].0 + ("^" + (b + (" " + rg))) == (gs[0].0 + "^") + (b + (" " + rg));
      Texts.StripPrefix(fs[0].0 + "^", a + (" " + rf), b + (" " + rg));
      Texts.SplitAt(' ', a, rf, b, rg);
      RenderInjective(fs[1..], gs[1..]);
      Numerals.IntToStringInjective(fs[0].1, gs[0].1);
      forall i | 0 <= i < |fs| ensures fs[i].1 == gs[i].1 {
        if i > 0 { assert fs[i] == fs[1..][i - 1] && gs[i] == gs[1..][i - 1]; }
      }
    }
  }

  /** Distinct units display differently: the display names all seven exponents. */
  lemma DisplayInjective(u: Unit, v: Unit)
    requires Display(u) == Display(v)
    ensures u == v
  {
    RenderInjective(Fields(u), Fields(v));
    assert Fields(u)[0].1 == Fields(v)[0].1;
    assert Fields(u)[1].1 == Fields(v)[1].1;
    assert Fields(u)[2].1 == Fields(v)[2].1;
    assert Fields(u)[3].1 == Fields(v)[3].1;
    assert Fields(u)[4].1 == Fields(v)[4].1;
    assert Fields(u)[5].1 == Fields(v)[5].1;
    assert Fields(u)[6].1 == Fields(v)[6].1;
  }

  /** A character that is no symbol letter, digit, sign, '^' or space never occurs in a display. */
  lemma {:induction false} RenderAvoids(c: char, fs: seq<(string, int)>)
    requires |fs| > 0 && !Numerals.IsDigit(c) && c !in "-^ "
    requires forall i :: 0 <= i < |fs| ==> c !in fs[i].0
    ensures c !in Render(fs)
  {
    Numerals.IntToStringAvoids(fs[0].1, c);
    if |fs| > 1 {
      RenderAvoids(c, fs[1..]);
    }
  }

  /**
    A unit display holds only the symbol letters, digits, '-', '^' and spaces, so a message that
    embeds it can be split at any other character.
  */
  lemma DisplayAvoids(u: Unit, c: char)
    requires !Numerals.IsDigit(c) && c !in "-^ smkgAKolcd"
    ensures c !in Display(u)
  {
    RenderAvoids(c, Fields(u));
  }
}
