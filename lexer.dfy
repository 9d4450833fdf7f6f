/**
  The token callbacks of the lexer (dyn_quantity_lexer/src/lib.rs). Which regular expression
  matches which slice is decided by the generated `logos` automaton, which is not part of this
  model; the callbacks below take the matched slice as a string of characters. Every slice they
  cut is cut just after an ASCII character ('^', ' ', the leading 'e', the trailing 'i' or 'j'),
  so byte offsets and character offsets agree.
*/
module Lexer {
  import opened Wrappers
  import Numerals
  import Texts

  /** The exponent of a unit token and the power of ten of its SI prefix. */
  datatype Exponents = Exponents(unit: int, prefix: int)

  /** `Exponents::exponent`: the power of ten the prefix contributes once raised to the unit exponent. */
  function Exponent(e: Exponents): (r: int)
    ensures e.prefix == 0 ==> r == 0
    ensures e.unit == 1 ==> r == e.prefix
  {
    e.unit * e.prefix
  }

  /** The unit symbols a token can carry. */
  datatype SymbolKind =
    | Second | Meter | Gram | Ampere | Kelvin | Mol | Candela | Celsius | Volt | Newton
    | NewtonMeter | Watt | Joule | Hertz | RotationsPerMinute | Weber | Tesla | Henry
    | Siemens | Ton | Ohm | Omega | Pi | Degree | Radians

  /**
    `Token`, with the unit variants grouped under `Symbol`. The `Infinity` and `NegInfinity`
    tokens are not part of this model.
  */
  datatype Token =
    | Real(number: real)
    | Imag(factor: real)
    | PowerOfTen(power: int)
    | LeftBracket
    | RightBracket(exponent: int)
    | Add
    | Sub
    | Mul
    | Div
    | Percent
    | Symbol(kind: SymbolKind, exps: Exponents)

  /** `power_from_prefix`: the SI prefix table, read off the slice's first character. */
  function PowerFromPrefix(slice: string): (r: Option<int>)
    ensures slice == [] ==> r.None?
    ensures r.Some? ==> -30 <= r.value <= 30 && r.value != 0
    ensures r.Some? && r.value % 3 != 0 ==> r.value == -1 || r.value == -2
  {
    if slice == [] then None
    else match slice[0]
      case 'Q' => Some(30)
      case 'R' => Some(27)
      case 'Y' => Some(24)
      case 'Z' => Some(21)
      case 'E' => Some(18)
      case 'P' => Some(15)
      case 'T' => Some(12)
      case 'G' => Some(9)
      case 'M' => Some(6)
      case 'k' => Some(3)
      case 'd' => Some(-1)
      case 'c' => Some(-2)
      case 'm' => Some(-3)
      case 'u' => Some(-6)
      case 'µ' => Some(-6)
      case 'n' => Some(-9)
      case 'p' => Some(-12)
      case 'f' => Some(-15)
      case 'a' => Some(-18)
      case 'z' => Some(-21)
      case 'y' => Some(-24)
      case 'r' => Some(-27)
      case 'q' => Some(-30)
      case _ => None
  }

  /** Only the first character of the slice decides its prefix. */
  lemma PrefixIsFirstCharacter(slice: string)
    requires slice != []
    ensures PowerFromPrefix(slice) == PowerFromPrefix([slice[0]])
  {
  }

  /** Two prefix characters name the same power only when they are 'u' and 'µ', the two spellings of micro. */
  lemma PrefixTableInjective(a: char, b: char)
    requires PowerFromPrefix([a]).Some? && PowerFromPrefix([a]) == PowerFromPrefix([b])
    ensures a == b || (a == 'u' && b == 'µ') || (a == 'µ' && b == 'u')
  {
  }

  /** `has_prefix`: a prefix is read exactly when the slice's second character begins the symbol. */
  predicate HasPrefix(slice: string, unitChars: string)
  {
    (if unitChars == [] then None else Some(unitChars[0]))
      == (if |slice| < 2 then None else Some(slice[1]))
  }

  /**
    A character put before a unit symbol is taken as a prefix, and the symbol alone has none
    unless its second character repeats its first.
  */
  lemma PrefixDetection(p: char, unitChars: string)
    requires unitChars != []
    ensures HasPrefix([p] + unitChars, unitChars)
    ensures HasPrefix(unitChars, unitChars) <==> |unitChars| >= 2 && unitChars[1] == unitChars[0]
  {
    assert ([p] + unitChars)[1] == unitChars[0];
  }

  /** The position of the first '^' of a slice, if it has one. */
  function CaretIndex(slice: string): Option<nat>
  {
    var k := Texts.FirstIndex('^', slice);
    if k < |slice| then Some(k) else None
  }

  /** `parse_exponent`: 1 without a '^', else the `i32` after the first '^'. */
  function ParseExponent(slice: string): (r: Option<int>)
    ensures '^' !in slice ==> r == Some(1)
    ensures r.Some? ==> Numerals.InI32(r.value)
  {
    CaretIndexNone(slice);
    match CaretIndex(slice)
    case Some(k) => Numerals.ParseI32(slice[k + 1..])
    case None => Some(1)
  }

  lemma {:induction false} CaretIndexNone(slice: string)
    ensures CaretIndex(slice).None? <==> '^' !in slice
  {
    Texts.FirstIndexBound('^', slice);
  }

  /** The exponent after a '^' is read back exactly: "x^n" gives `n` whatever the caret-free head `x`. */
  lemma ParseExponentOfText(x: string, n: int)
    requires '^' !in x && Numerals.InI32(n)
    ensures ParseExponent(x + ("^" + Numerals.IntToString(n))) == Some(n)
  {
    Texts.FirstIndexAfterHead('^', x, Numerals.IntToString(n));
    var s := x + ("^" + Numerals.IntToString(n));
    assert s[|x| + 1..] == Numerals.IntToString(n);
    Numerals.ParseI32OfIntToString(n);
  }

  /**
    `parse_exponents_and_prefix`: the prefix (0 unless `HasPrefix`; an unknown prefix character
    fails) and then the exponent.
  */
  function ParseExponentsAndPrefix(slice: string, unitChars: string): (r: Option<Exponents>)
    ensures r.Some? <==> (!HasPrefix(slice, unitChars) || PowerFromPrefix(slice).Some?)
                         && ParseExponent(slice).Some?
    ensures r.Some? ==> r.value.unit == ParseExponent(slice).value
    ensures r.Some? && !HasPrefix(slice, unitChars) ==> r.value.prefix == 0
    ensures r.Some? && HasPrefix(slice, unitChars) ==> r.value.prefix == PowerFromPrefix(slice).value
  {
    var prefix := if HasPrefix(slice, unitChars) then PowerFromPrefix(slice) else Some(0);
    match prefix
    case None => None
    case Some(p) =>
      match ParseExponent(slice)
      case None => None
      case Some(e) => Some(Exponents(e, p))
  }

  /** `parse_pi`, `parse_degree`, `parse_radians`: the result of the first candidate symbol that succeeds. */
  function FirstCandidate(slice: string, candidates: seq<string>): (r: Option<Exponents>)
    ensures r.None? <==> forall i :: 0 <= i < |candidates| ==> ParseExponentsAndPrefix(slice, candidates[i]).None?
    ensures r.Some? ==> exists i :: 0 <= i < |candidates| && ParseExponentsAndPrefix(slice, candidates[i]) == r
                                   && forall j :: 0 <= j < i ==> ParseExponentsAndPrefix(slice, candidates[j]).None?
  {
    if candidates == [] then None
    else
      match ParseExponentsAndPrefix(slice, candidates[0])
      case Some(e) => Some(e)
      case None =>
        var rest := FirstCandidate(slice, candidates[1..]);
        assert forall i :: 1 <= i < |candidates| ==> candidates[i] == candidates[1..][i - 1];
        FirstCandidateShift(slice, candidates, rest);
        rest
  }

  /** A candidate found among all but the first, which failed, is the first success among all. */
  lemma FirstCandidateShift(slice: string, candidates: seq<string>, r: Option<Exponents>)
    requires candidates != [] && ParseExponentsAndPrefix(slice, candidates[0]).None?
    requires r.Some? ==> exists i :: 0 <= i < |candidates| - 1 && ParseExponentsAndPrefix(slice, candidates[1..][i]) == r
                                   && forall j :: 0 <= j < i ==> ParseExponentsAndPrefix(slice, candidates[1..][j]).None?
    ensures r.Some? ==> exists i :: 0 <= i < |candidates| && ParseExponentsAndPrefix(slice, candidates[i]) == r
                                   && forall j :: 0 <= j < i ==> ParseExponentsAndPrefix(slice, candidates[j]).None?
  {
    if r.Some? {
      var k :| 0 <= k < |candidates| - 1 && ParseExponentsAndPrefix(slice, candidates[1..][k]) == r
               && forall j :: 0 <= j < k ==> ParseExponentsAndPrefix(slice, candidates[1..][j]).None?;
      assert candidates[k + 1] == candidates[1..][k];
      forall j | 0 <= j < k + 1
        ensures ParseExponentsAndPrefix(slice, candidates[j]).None?
      {
        if j > 0 {
          assert candidates[j] == candidates[1..][j - 1];
        }
      }
    }
  }

  const PiSymbols: seq<string> := ["pi", "π", "PI", "Pi"]
  const DegreeSymbols: seq<string> := ["degree", "°", "Degree", "deg", "Deg"]
  const RadiansSymbols: seq<string> := ["rad", "radians", "Rad", "Radians"]

  function ParsePi(slice: string): Option<Exponents> { FirstCandidate(slice, PiSymbols) }
  function ParseDegree(slice: string): Option<Exponents> { FirstCandidate(slice, DegreeSymbols) }
  function ParseRadians(slice: string): Option<Exponents> { FirstCandidate(slice, RadiansSymbols) }

  /**
    `parse_imag`: the factor of an imaginary literal. With no number before the 'i' or 'j' (a
    one-character slice, or a space first) it is 1; otherwise the text before the space, or
    before the last character, read by the float parser `parseF64` (which stands for
    `str::parse::<f64>`).
  */
  function ParseImag(slice: string, parseF64: string -> Option<real>): (r: Option<real>)
    requires slice != []
    ensures |slice| == 1 ==> r == Some(1.0)
    ensures slice[0] == ' ' ==> r == Some(1.0)
    ensures |slice| > 1 && ' ' !in slice ==> r == parseF64(slice[..|slice| - 1])
  {
    var k := Texts.FirstIndex(' ', slice);
    Texts.FirstIndexBound(' ', slice);
    if k < |slice| then
      if k == 0 then Some(1.0) else parseF64(slice[..k])
    else if |slice| == 1 then Some(1.0)
    else parseF64(slice[..|slice| - 1])
  }

  /** `parse_power_of_ten`: the `i32` after the '^' of "*10^n", none without a '^'. */
  function ParsePowerOfTen(slice: string): (r: Option<int>)
    ensures '^' !in slice ==> r.None?
    ensures r.Some? ==> Numerals.InI32(r.value)
  {
    CaretIndexNone(slice);
    match CaretIndex(slice)
    case Some(k) => Numerals.ParseI32(slice[k + 1..])
    case None => None
  }

  /** `parse_power_of_ten_e`: the `i32` after the leading 'e' of "en". */
  function ParsePowerOfTenE(slice: string): (r: Option<int>)
    requires slice != []
    ensures r.Some? ==> Numerals.InI32(r.value)
  {
    Numerals.ParseI32(slice[1..])
  }

  /** Both power-of-ten callbacks read back the written power. */
  lemma PowerOfTenOfText(x: string, n: int)
    requires '^' !in x && Numerals.InI32(n)
    ensures ParsePowerOfTen(x + ("^" + Numerals.IntToString(n))) == Some(n)
    ensures ParsePowerOfTenE("e" + Numerals.IntToString(n)) == Some(n)
  {
    Texts.FirstIndexAfterHead('^', x, Numerals.IntToString(n));
    var s := x + ("^" + Numerals.IntToString(n));
    assert s[|x| + 1..] == Numerals.IntToString(n);
    assert ("e" + Numerals.IntToString(n))[1..] == Numerals.IntToString(n);
    Numerals.ParseI32OfIntToString(n);
  }

  /** A number, a space and the 'i' or 'j': the number before the space is read. */
  lemma ParseImagWithSpace(x: string, c: char, parseF64: string -> Option<real>)
    requires x != [] && ' ' !in x
    ensures ParseImag(x + [' ', c], parseF64) == parseF64(x)
  {
    Texts.FirstIndexAfterHead(' ', x, [c]);
    assert x + [' ', c] == x + ([' '] + [c]);
    assert (x + [' ', c])[..|x|] == x;
  }

  // ----- The lexer's own examples -----

  /** "ms^3" as a second: milli (prefix -3) to the third. */
  lemma MillisecondsCubed()
    ensures ParseExponentsAndPrefix("ms^3", "s") == Some(Exponents(3, -3))
  {
    assert CaretIndex("ms^3") == Some(2);
    assert Numerals.ParseI32("3") == Some(3);
  }

  /** "s^-2": the second character is '^', so there is no prefix. */
  lemma InverseSecondsSquared()
    ensures ParseExponentsAndPrefix("s^-2", "s") == Some(Exponents(-2, 0))
  {
    assert CaretIndex("s^-2") == Some(1);
    assert ("s^-2")[2..] == "-2";
    assert Numerals.ParseI32("-2") == Some(-2);
  }

  /** "mdegree": the first candidate "degree" reads the milli prefix. */
  lemma MilliDegree()
    ensures ParseDegree("mdegree") == Some(Exponents(1, -3))
  {
    assert CaretIndex("mdegree").None? by {
      CaretIndexNone("mdegree");
    }
    assert ParseExponentsAndPrefix("mdegree", "degree") == Some(Exponents(1, -3));
  }

  /** "deg": already the first candidate "degree" succeeds, with prefix 0. */
  lemma PlainDegree()
    ensures ParseDegree("deg") == Some(Exponents(1, 0))
  {
    CaretIndexNone("deg");
    assert ParseExponentsAndPrefix("deg", "degree") == Some(Exponents(1, 0));
  }

  /**
    "xpi": the candidate "pi" sees an unknown prefix 'x' and fails, so the next candidate "π",
    which finds no prefix, gives prefix 0.
  */
  lemma UnknownPrefixBeforePi()
    ensures ParsePi("xpi") == Some(Exponents(1, 0))
  {
    CaretIndexNone("xpi");
    assert ParseExponentsAndPrefix("xpi", "pi").None?;
    assert ParseExponentsAndPrefix("xpi", "π") == Some(Exponents(1, 0));
  }

  /** "PI": already the first candidate "pi" succeeds, since 'I' does not begin "pi", with prefix 0. */
  lemma UpperCasePi()
    ensures ParsePi("PI") == Some(Exponents(1, 0))
  {
    CaretIndexNone("PI");
    assert ParseExponentsAndPrefix("PI", "pi") == Some(Exponents(1, 0));
  }

  /** "rad^2": the first candidate "rad" finds no prefix and reads the exponent 2. */
  lemma RadiansSquared()
    ensures ParseRadians("rad^2") == Some(Exponents(2, 0))
  {
    assert CaretIndex("rad^2") == Some(3);
    assert ("rad^2")[4..] == "2";
    assert Numerals.ParseI32("2") == Some(2);
    assert ParseExponentsAndPrefix("rad^2", "rad") == Some(Exponents(2, 0));
  }

  /** ")^-2": a closing bracket with exponent -2. */
  lemma BracketExponent()
    ensures ParseExponent(")^-2") == Some(-2)
  {
    assert CaretIndex(")^-2") == Some(1);
    assert (")^-2")[2..] == "-2";
    assert Numerals.ParseI32("-2") == Some(-2);
  }

  /** " i" is the imaginary unit; in "50j" the float parser reads "50". */
  lemma ImaginaryExamples(parseF64: string -> Option<real>)
    ensures ParseImag(" i", parseF64) == Some(1.0)
    ensures ParseImag("50j", parseF64) == parseF64("50")
  {
    Texts.FirstIndexBound(' ', "50j");
    assert ("50j")[..2] == "50";
  }

  /** "* 10^2" and "e-3" as powers of ten. */
  lemma PowerOfTenExamples()
    ensures ParsePowerOfTen("* 10^2") == Some(2)
    ensures ParsePowerOfTenE("e-3") == Some(-3)
  {
    assert CaretIndex("* 10^2") == Some(4);
    assert ("* 10^2")[5..] == "2";
    assert ("e-3")[1..] == "-3";
    assert Numerals.ParseI32("2") == Some(2);
    assert Numerals.ParseI32("-3") == Some(-3);
  }
}
