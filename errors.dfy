/**
  The error values of the crate (src/error.rs, and the older copies in src/lib.rs) and the
  messages their `Display` implementations write. A complex magnitude is printed by
  `num::Complex`'s own formatter, which is a parameter here.
*/
module Errors {
  import U = Units
  import C = ComplexNumbers
  import Numerals
  import Texts
  import Wrappers

  /** Two units that had to be equal (`UnitsNotEqual`, `UnitsOfSummandsNotIdentical`). */
  datatype UnitsNotEqual = UnitsNotEqual(first: U.Unit, second: U.Unit)

  /** A complex number that was to become a value of the named real type. */
  datatype NotConvertibleFromComplexF64 = NotConvertibleFromComplexF64(source: C.Complex, targetType: string)

  datatype ConversionError =
    | ConversionNotConvertible(conversion: NotConvertibleFromComplexF64)
    | UnitMismatch(expected: U.Unit, found: U.Unit)
    | Custom(message: string)

  /** A `Range<usize>` into the parsed text. */
  datatype Span = Span(start: nat, end: nat)

  datatype ParseErrorReason =
    | UnexpectedToken
    | InputIsEmpty
    | UnbalancedBrackets
    | TwoNumbersWithoutOperator
    | TwoOperatorsWithoutNumber
    | MustNotStartWith
    | UnitsOfSummandsNotIdentical(units: UnitsNotEqual)
    | ComplexNotConvertible(conversion: NotConvertibleFromComplexF64)
    | CouldNotParse

  datatype ParseError = ParseError(substring: string, span: Span, reason: ParseErrorReason)

  /** A reason that carries no payload. */
  predicate IsFixed(r: ParseErrorReason)
  {
    !r.UnitsOfSummandsNotIdentical? && !r.ComplexNotConvertible?
  }

  /** `ParseErrorReason::default()`: the generic fallback. */
  function DefaultReason(): (r: ParseErrorReason)
    ensures IsFixed(r) && r.CouldNotParse?
  {
    CouldNotParse
  }

  /** `ParseError::default()`: empty substring, empty span at 0, the default reason. */
  function DefaultParseError(): (e: ParseError)
    ensures e.substring == [] && e.span.start == e.span.end == 0
    ensures e.reason == DefaultReason()
  {
    ParseError("", Span(0, 0), DefaultReason())
  }

  /** `From<UnitsOfSummandsNotIdentical> for ParseErrorReason` (src/lib.rs): the pair is wrapped unchanged. */
  function ReasonFromUnitsNotEqual(e: UnitsNotEqual): (r: ParseErrorReason)
    ensures !IsFixed(r) && r.UnitsOfSummandsNotIdentical? && r.units == e
  {
    UnitsOfSummandsNotIdentical(e)
  }

  /** `ConversionError::custom`: any displayable value becomes its text. */
  function CustomError(text: string): (e: ConversionError)
    ensures e.Custom? && e.message == text
  {
    Custom(text)
  }

  /** The message of `UnitsNotEqual` (src/error.rs), raised by the newer quantity type's additions. */
  function UnitsNotEqualMessage(e: UnitsNotEqual): string
  {
    "unit " + U.Display(e.first) + " not equal to unit " + U.Display(e.second)
  }

  /**
    The message of `UnitsOfSummandsNotIdentical` (src/lib.rs), the mismatch the string evaluator
    reports; it names the same pair of units in other words.
  */
  function SummandsMessage(e: UnitsNotEqual): string
  {
    "first summand has exponents " + U.Display(e.first) + ", but second summand has exponents "
      + U.Display(e.second)
  }

  function RootErrorMessage(e: U.RootError): string
  {
    "not possible to calculate the " + Numerals.IntToString(e.n) + "th root (exponents "
      + U.Display(e.unit) + " cannot be divided by " + Numerals.IntToString(e.n)
      + " without remainder)"
  }

  function NotConvertibleMessage(e: NotConvertibleFromComplexF64, formatComplex: C.Complex -> string): string
  {
    "could not convert from " + formatComplex(e.source) + " into target type " + e.targetType
  }

  function ReasonMessage(r: ParseErrorReason, formatComplex: C.Complex -> string): string
  {
    match r
    case UnexpectedToken => "unexpected token"
    case InputIsEmpty => "input is empty"
    case CouldNotParse => "could not parse the input"
    case UnbalancedBrackets => "unbalanced number of brackets"
    case TwoNumbersWithoutOperator =>
      "encountered two numbers without an operator (+ or -) between them"
    case TwoOperatorsWithoutNumber =>
      "encountered two operators (+, -, * or /) without a number between them"
    case UnitsOfSummandsNotIdentical(inner) => SummandsMessage(inner)
    case MustNotStartWith => "input must not start with this token"
    case ComplexNotConvertible(inner) => NotConvertibleMessage(inner, formatComplex)
  }

  function ParseErrorMessage(e: ParseError, formatComplex: C.Complex -> string): string
  {
    "could not parse " + e.substring + ": " + ReasonMessage(e.reason, formatComplex)
  }

  function ConversionErrorMessage(e: ConversionError, formatComplex: C.Complex -> string): string
  {
    match e
    case ConversionNotConvertible(inner) => NotConvertibleMessage(inner, formatComplex)
    case UnitMismatch(expected, found) => "expected " + U.Display(expected) + ", found " + U.Display(found)
    case Custom(text) => text
  }

  /** The payload-free reason whose message has the given length, if any. */
  function FixedReasonOfLength(n: nat): Wrappers.Option<ParseErrorReason>
  {
    if n == 16 then Wrappers.Some(UnexpectedToken)
    else if n == 14 then Wrappers.Some(InputIsEmpty)
    else if n == 25 then Wrappers.Some(CouldNotParse)
    else if n == 29 then Wrappers.Some(UnbalancedBrackets)
    else if n == 65 then Wrappers.Some(TwoNumbersWithoutOperator)
    else if n == 70 then Wrappers.Some(TwoOperatorsWithoutNumber)
    else if n == 36 then Wrappers.Some(MustNotStartWith)
    else Wrappers.None
  }

  /** A payload-free reason can be read back from the length of its message alone. */
  lemma FixedReasonFromMessage(r: ParseErrorReason, formatComplex: C.Complex -> string)
    requires IsFixed(r)
    ensures FixedReasonOfLength(|ReasonMessage(r, formatComplex)|) == Wrappers.Some(r)
  {
    var m := ReasonMessage(r, formatComplex);
    match r
    case UnexpectedToken => assert |m| == 16;
    case InputIsEmpty => assert |m| == 14;
    case CouldNotParse => assert |m| == 25;
    case UnbalancedBrackets => assert |m| == 29;
    case TwoNumbersWithoutOperator => assert |m| == 65;
    case TwoOperatorsWithoutNumber => assert |m| == 70;
    case MustNotStartWith => assert |m| == 36;
  }

  /** The fixed messages tell the payload-free reasons apart: no two of them print the same. */
  lemma FixedMessagesDistinct(a: ParseErrorReason, b: ParseErrorReason, formatComplex: C.Complex -> string)
    requires IsFixed(a) && IsFixed(b) && a != b
    ensures ReasonMessage(a, formatComplex) != ReasonMessage(b, formatComplex)
  {
    FixedReasonFromMessage(a, formatComplex);
    FixedReasonFromMessage(b, formatComplex);
  }

  /** Wrapping a summand mismatch into a parse reason keeps its message. */
  lemma ReasonFromUnitsNotEqualMessage(e: UnitsNotEqual, formatComplex: C.Complex -> string)
    ensures ReasonMessage(ReasonFromUnitsNotEqual(e), formatComplex) == SummandsMessage(e)
  {
  }

  /** The summand mismatch message names both units recoverably: equal messages mean equal pairs. */
  lemma SummandsMessageInjective(e: UnitsNotEqual, f: UnitsNotEqual)
    requires SummandsMessage(e) == SummandsMessage(f)
    ensures e == f
  {
    U.DisplayAvoids(e.first, ',');
    U.DisplayAvoids(f.first, ',');
    Texts.SplitAround("first summand has exponents ", U.Display(e.first),
                      ", but second summand has exponents ", U.Display(e.second),
                      U.Display(f.first), U.Display(f.second), 0);
    U.DisplayInjective(e.first, f.first);
    U.DisplayInjective(e.second, f.second);
  }

  /** The two generations' mismatch messages never coincide: one starts with 'u', the other with 'f'. */
  lemma MismatchMessagesDiffer(e: UnitsNotEqual, f: UnitsNotEqual)
    ensures SummandsMessage(e) != UnitsNotEqualMessage(f)
  {
    assert SummandsMessage(e)[0] == 'f';
    assert UnitsNotEqualMessage(f)[0] == 'u';
  }

  /** The message of a unit mismatch names both units recoverably: equal messages mean equal pairs. */
  lemma UnitsNotEqualMessageInjective(e: UnitsNotEqual, f: UnitsNotEqual)
    requires UnitsNotEqualMessage(e) == UnitsNotEqualMessage(f)
    ensures e == f
  {
    U.DisplayAvoids(e.first, 'n');
    U.DisplayAvoids(f.first, 'n');
    Texts.SplitAround("unit ", U.Display(e.first), " not equal to unit ", U.Display(e.second),
                      U.Display(f.first), U.Display(f.second), 1);
    U.DisplayInjective(e.first, f.first);
    U.DisplayInjective(e.second, f.second);
  }

  /** A failed root's message names the degree and the unit recoverably: equal messages mean equal errors. */
  lemma RootErrorMessageInjective(e: U.RootError, f: U.RootError)
    requires RootErrorMessage(e) == RootErrorMessage(f)
    ensures e == f
  {
    var tail := " cannot be divided by ";
    var restE := U.Display(e.unit) + tail + Numerals.IntToString(e.n) + " without remainder)";
    var restF := U.Display(f.unit) + tail + Numerals.IntToString(f.n) + " without remainder)";
    RootErrorMessageShape(e, tail, restE);
    RootErrorMessageShape(f, tail, restF);
    Numerals.IntToStringAvoids(e.n, 't');
    Numerals.IntToStringAvoids(f.n, 't');
    Texts.SplitAround("not possible to calculate the ", Numerals.IntToString(e.n), "th root (exponents ", restE,
                      Numerals.IntToString(f.n), restF, 0);
    Numerals.IntToStringInjective(e.n, f.n);
    assert restE == U.Display(e.unit) + tail + (Numerals.IntToString(e.n) + " without remainder)");
    assert restF == U.Display(f.unit) + tail + (Numerals.IntToString(f.n) + " without remainder)");
    DividedByInjective(e.unit, f.unit, Numerals.IntToString(e.n) + " without remainder)",
                       Numerals.IntToString(f.n) + " without remainder)");
  }

  /** The unit before " cannot be divided by " is recoverable. */
  lemma DividedByInjective(u: U.Unit, v: U.Unit, x: string, y: string)
    requires U.Display(u) + " cannot be divided by " + x == U.Display(v) + " cannot be divided by " + y
    ensures u == v
  {
    U.DisplayAvoids(u, 'n');
    U.DisplayAvoids(v, 'n');
    assert "" + U.Display(u) == U.Display(u) && "" + U.Display(v) == U.Display(v);
    Texts.SplitAround("", U.Display(u), " cannot be divided by ", x, U.Display(v), y, 3);
    U.DisplayInjective(u, v);
  }

  /** The root message regrouped around the degree's first occurrence. */
  lemma RootErrorMessageShape(e: U.RootError, tail: string, rest: string)
    requires tail == " cannot be divided by "
    requires rest == U.Display(e.unit) + tail + Numerals.IntToString(e.n) + " without remainder)"
    ensures RootErrorMessage(e) == "not possible to calculate the " + Numerals.IntToString(e.n) + "th root (exponents " + rest
  {
    var a, b, c, d, w := "not possible to calculate the ", Numerals.IntToString(e.n), "th root (exponents ",
                         U.Display(e.unit), " without remainder)";
    assert RootErrorMessage(e) == a + b + c + d + tail + b + w;
    assert a + b + c + d + tail + b + w == a + b + c + (d + tail + b + w);
  }

  /** Likewise the "expected …, found …" message of a conversion's unit mismatch. */
  lemma UnitMismatchMessageInjective(e: U.Unit, f: U.Unit, g: U.Unit, h: U.Unit,
                                     formatComplex: C.Complex -> string)
    requires ConversionErrorMessage(UnitMismatch(e, f), formatComplex)
             == ConversionErrorMessage(UnitMismatch(g, h), formatComplex)
    ensures e == g && f == h
  {
    U.DisplayAvoids(e, ',');
    U.DisplayAvoids(g, ',');
    Texts.SplitAround("expected ", U.Display(e), ", found ", U.Display(f), U.Display(g), U.Display(h), 0);
    U.DisplayInjective(e, g);
    U.DisplayInjective(f, h);
  }

  /**
    A parse error message starts with "could not parse ", and when the substring holds no ':'
    the message determines the substring and the reason's message.
  */
  lemma ParseErrorMessageSplits(e: ParseError, f: ParseError, formatComplex: C.Complex -> string)
    requires ':' !in e.substring && ':' !in f.substring
    requires ParseErrorMessage(e, formatComplex) == ParseErrorMessage(f, formatComplex)
    ensures e.substring == f.substring
    ensures ReasonMessage(e.reason, formatComplex) == ReasonMessage(f.reason, formatComplex)
  {
    Texts.SplitAround("could not parse ", e.substring, ": ", ReasonMessage(e.reason, formatComplex),
                      f.substring, ReasonMessage(f.reason, formatComplex), 0);
  }

  /** The message of a failed narrowing names the target type last. */
  lemma NotConvertibleMessageEndsWithTarget(e: NotConvertibleFromComplexF64, formatComplex: C.Complex -> string)
    ensures var m := NotConvertibleMessage(e, formatComplex);
            |m| >= |e.targetType| && m[|m| - |e.targetType|..] == e.targetType
  {
  }
}
