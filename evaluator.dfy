/**
  The evaluator that turns the token stream of a text into a complex `DynQuantity`
  (`from_str_complexf64` in src/from_str/from_str_impl.rs; src/from_str.rs holds the same
  code), and the narrowing `FromStr` on top of it.

  The evaluator keeps an active quantity, a stack of pending operations, the bracket level, the
  kind of the previous operator token and whether a division waits for its divisor. The
  functions below state what one token does to that state (`Step`), what a whole stream does
  (`Run`) and what the end of the input makes of the final state (`Finish`); the method
  `FromStrComplex` is the token loop itself and is proved to compute `Evaluate`.
*/
module Evaluator {
  import opened Wrappers
  import U = Units
  import C = ComplexNumbers
  import E = Errors
  import Q = Quantities
  import L = Lexer

  /** Where a token sits in the text: the characters the error message quotes and their span. */
  datatype Location = Location(text: string, span: E.Span)

  /** One item of the lexer's output: a token, or `None` where the lexer failed. */
  datatype Lexeme = Lexeme(token: Option<L.Token>, at: Location)

  /** `PreviousToken`: the operator just read, or `Other`. */
  datatype PreviousToken = Add | Sub | Mul | Div | Other

  /** `Operation`: a quantity and the operator that follows it ("x +", "x *", "x /"). */
  datatype Operation = AddOp(item: Q.DynQuantity) | MulOp(item: Q.DynQuantity) | DivOp(item: Q.DynQuantity)

  datatype State = State(active: Option<Q.DynQuantity>, stack: seq<Operation>, level: nat,
                         previous: PreviousToken, pending: bool)

  const Initial: State := State(None, [], 0, Other, false)

  /** The dimensionless quantity with the given real magnitude. */
  function Number(x: real): Q.DynQuantity { Q.DynQuantity(C.FromReal(x), U.Dimensionless) }

  function Fail(at: Location, reason: E.ParseErrorReason): E.ParseError
  {
    E.ParseError(at.text, at.span, reason)
  }

  /** `adjust`: apply `f` to the active quantity, or to a dimensionless 1 when there is none. */
  function Adjust(active: Option<Q.DynQuantity>, f: Q.DynQuantity -> Q.DynQuantity): (r: Option<Q.DynQuantity>)
    ensures r.Some?
  {
    Some(f(active.UnwrapOr(Number(1.0))))
  }

  function Pow10(n: int): real { C.RealPowi(10.0, n) }

  /** The base-unit exponents one power of a unit symbol adds. */
  function SymbolVector(kind: L.SymbolKind): U.Unit
  {
    match kind
    case Second => U.Unit(1, 0, 0, 0, 0, 0, 0)
    case Meter => U.Unit(0, 1, 0, 0, 0, 0, 0)
    case Gram => U.Unit(0, 0, 1, 0, 0, 0, 0)
    case Ampere => U.Unit(0, 0, 0, 1, 0, 0, 0)
    case Kelvin => U.Unit(0, 0, 0, 0, 1, 0, 0)
    case Mol => U.Unit(0, 0, 0, 0, 0, 1, 0)
    case Candela => U.Unit(0, 0, 0, 0, 0, 0, 1)
    case Celsius => U.Unit(0, 0, 0, 0, 1, 0, 0)
    case Newton => U.Unit(-2, 1, 1, 0, 0, 0, 0)
    case Watt => U.Unit(-3, 2, 1, 0, 0, 0, 0)
    case Joule => U.Unit(-2, 2, 1, 0, 0, 0, 0)
    case Volt => U.Unit(-3, 2, 1, -1, 0, 0, 0)
    case Weber => U.Unit(-2, 2, 1, -1, 0, 0, 0)
    case Tesla => U.Unit(-2, 0, 1, -1, 0, 0, 0)
    case Henry => U.Unit(-2, 2, 1, -2, 0, 0, 0)
    case Hertz => U.Unit(-1, 0, 0, 0, 0, 0, 0)
    case Siemens => U.Unit(3, -2, -1, 2, 0, 0, 0)
    case RotationsPerMinute => U.Unit(-1, 0, 0, 0, 0, 0, 0)
    case Degree => U.Dimensionless
    case Radians => U.Dimensionless
    case Pi => U.Dimensionless
    case Ohm => U.Unit(-3, 2, 1, -2, 0, 0, 0)
    case Omega => U.Unit(-3, 2, 1, -2, 0, 0, 0)
    case NewtonMeter => U.Unit(-2, 2, 1, 0, 0, 0, 0)
    case Ton => U.Unit(0, 0, 1, 0, 0, 0, 0)
  }

  /**
    The factor a unit symbol scales the magnitude by: its weight raised to the unit exponent
    times the power of ten of its prefix, where gram's prefix is lowered by 3 and ton's raised
    by 3, since the base unit is the kilogram.
  */
  function SymbolFactor(kind: L.SymbolKind, e: L.Exponents): real
  {
    SymbolWeight(kind, e.unit) * Pow10(L.Exponent(L.Exponents(e.unit, e.prefix + PrefixShift(kind))))
  }

  /** 1/60 per power of rpm, π/180 per power of degree, π per power of π, and 1 for the rest. */
  function SymbolWeight(kind: L.SymbolKind, u: int): real
  {
    match kind
    case RotationsPerMinute => C.RealPowi(1.0 / 60.0, u)
    case Degree => C.RealPowi(C.Pi / 180.0, u)
    case Pi => C.RealPowi(C.Pi, u)
    case _ => 1.0
  }

  /** The change to the prefix's power of ten: -3 for gram, +3 for ton, none for the rest. */
  function PrefixShift(kind: L.SymbolKind): int
  {
    match kind
    case Gram => -3
    case Ton => 3
    case _ => 0
  }

  /**
    The closure a unit token hands to `adjust`: the exponents grow by `e.unit` times the symbol's
    vector, a Celsius token first adds 273.15 to that power to the magnitude, and the magnitude
    is scaled by the symbol's factor.
  */
  function ApplySymbol(q: Q.DynQuantity, kind: L.SymbolKind, e: L.Exponents): Q.DynQuantity
  {
    var shifted := if kind == L.Celsius then C.Add(q.value, C.FromReal(C.RealPowi(273.15, e.unit))) else q.value;
    Q.DynQuantity(C.Scale(shifted, SymbolFactor(kind, e)), U.Mul(q.unit, U.Power(SymbolVector(kind), e.unit)))
  }

  /** The four operator tokens, which end their iteration with `continue`. */
  predicate IsOperator(token: L.Token)
  {
    token.Mul? || token.Div? || token.Add? || token.Sub?
  }

  /**
    What a token does before the division check, and whether it then skips that check (the
    operator tokens end their iteration with `continue`).
  */
  function ProcessToken(st: State, token: L.Token, at: Location): Result<(State, bool), E.ParseError>
  {
    match token
    case Real(v) =>
      var z := C.Complex(v, 0.0);
      Ok((st.(active := Some(if st.active.Some? then st.active.value.(value := C.Mul(st.active.value.value, z))
                             else Q.DynQuantity(z, U.Dimensionless))), false))
    case Imag(v) =>
      var z := C.Complex(0.0, v);
      Ok((st.(active := Some(if st.active.Some? then st.active.value.(value := C.Mul(st.active.value.value, z))
                             else Q.DynQuantity(z, U.Dimensionless))), false))
    case Mul =>
      if st.previous != Other then Err(Fail(at, E.TwoOperatorsWithoutNumber))
      else if st.active.None? then Err(Fail(at, E.MustNotStartWith))
      else Ok((st.(previous := Mul), true))
    case Div =>
      if st.previous != Other then Err(Fail(at, E.TwoOperatorsWithoutNumber))
      else if st.active.None? then Err(Fail(at, E.MustNotStartWith))
      else Ok((State(None, st.stack + [DivOp(st.active.value)], st.level, Div, true), true))
    case Percent =>
      Ok((st.(active := Adjust(st.active, q => Q.MulScalar(q, 0.01))), false))
    case LeftBracket =>
      var stack :=
        if st.active.Some? then st.stack + [MulOp(st.active.value)]
        else if st.previous == Other then st.stack + [MulOp(Number(1.0))]
        else st.stack;
      Ok((st.(active := None, stack := stack, level := st.level + 1), false))
    case RightBracket(exponent) =>
      if st.level == 0 || st.active.None? then Err(Fail(at, E.UnbalancedBrackets))
      else
        (match Close(st.active.value, st.stack, exponent, at)
         case Err(e) => Err(e)
         case Ok((q, stack)) => Ok((st.(active := Some(q), stack := stack, level := st.level - 1), false)))
    case Add =>
      if st.previous == Add || st.previous == Sub then Err(Fail(at, E.TwoOperatorsWithoutNumber))
      else
        var stack := if st.active.Some? then st.stack + [AddOp(st.active.value)] else st.stack;
        Ok((st.(active := Some(Number(1.0)), stack := stack, previous := Add), true))
    case Sub =>
      if st.previous == Add || st.previous == Sub then Err(Fail(at, E.TwoOperatorsWithoutNumber))
      else
        var stack := if st.active.Some? then st.stack + [AddOp(st.active.value)] else st.stack;
        Ok((st.(active := Some(Number(-1.0)), stack := stack, previous := Sub), true))
    case PowerOfTen(n) =>
      Ok((st.(active := Some(if st.active.Some? then Q.MulScalar(st.active.value, Pow10(n)) else Number(Pow10(n)))), false))
    case Symbol(kind, e) =>
      Ok((st.(active := Adjust(st.active, q => ApplySymbol(q, kind, e))), false))
  }

  /**
    The closing bracket: pop the stack, adding up the `AddOp` summands, until the first `MulOp`
    or `DivOp`, which is combined with the bracket's content raised to the bracket exponent.
  */
  function Close(q: Q.DynQuantity, stack: seq<Operation>, exponent: int, at: Location)
    : (r: Result<(Q.DynQuantity, seq<Operation>), E.ParseError>)
    ensures r.Err? ==> r.error == Fail(at, r.error.reason)
    ensures r.Err? ==> r.error.reason.UnitsOfSummandsNotIdentical?
    ensures r.Ok? ==> r.value.1 <= stack
    decreases |stack|
  {
    if stack == [] then Ok((q, []))
    else
      var rest := stack[..|stack| - 1];
      match stack[|stack| - 1]
      case AddOp(item) =>
        (match Q.TryAdd(q, item)
         case Err(e) => Err(Fail(at, E.UnitsOfSummandsNotIdentical(e)))
         case Ok(sum) => Close(sum, rest, exponent, at))
      case MulOp(item) => Ok((Q.Mul(item, Q.Powi(q, exponent)), rest))
      case DivOp(item) => Ok((Q.Div(item, Q.Powi(q, exponent)), rest))
  }

  /**
    The division check after a token: a pending division whose `DivOp` is on top of the stack
    takes the active quantity as its divisor at once. Afterwards nothing is pending and the
    previous token counts as `Other`.
  */
  function ResolveDivision(mid: State, at: Location): (r: Result<State, E.ParseError>)
    ensures r.Err? <==> mid.pending && mid.stack == []
    ensures r.Err? ==> r.error == Fail(at, E.UnbalancedBrackets)
    ensures r.Ok? ==> r.value.previous == Other && !r.value.pending && r.value.level == mid.level
  {
    if !mid.pending then Ok(mid.(previous := Other))
    else if mid.stack == [] then Err(Fail(at, E.UnbalancedBrackets))
    else
      var top := mid.stack[|mid.stack| - 1];
      if top.DivOp? && mid.active.Some? then
        Ok(State(Some(Q.Div(top.item, mid.active.value)), mid.stack[..|mid.stack| - 1], mid.level, Other, false))
      else Ok(mid.(previous := Other, pending := false))
  }

  /** One iteration of the token loop. */
  function Step(st: State, lexeme: Lexeme): Result<State, E.ParseError>
  {
    match lexeme.token
    case None => Err(Fail(lexeme.at, E.UnexpectedToken))
    case Some(token) =>
      match ProcessToken(st, token, lexeme.at)
      case Err(e) => Err(e)
      case Ok((mid, skip)) => if skip then Ok(mid) else ResolveDivision(mid, lexeme.at)
  }

  /** The token loop from state `st` over `lexemes`; the first error ends it. */
  function RunFrom(st: State, lexemes: seq<Lexeme>): Result<State, E.ParseError>
    decreases |lexemes|
  {
    if lexemes == [] then Ok(st)
    else
      match Step(st, lexemes[0])
      case Err(e) => Err(e)
      case Ok(next) => RunFrom(next, lexemes[1..])
  }

  function Run(lexemes: seq<Lexeme>): Result<State, E.ParseError>
  {
    RunFrom(Initial, lexemes)
  }

  /** The `try_fold` over the stack, bottom entry first, around the initial accumulator. */
  function Fold(acc: Q.DynQuantity, items: seq<Operation>, at: Location): (r: Result<Q.DynQuantity, E.ParseError>)
    ensures r.Err? ==> r.error == Fail(at, r.error.reason)
    ensures r.Err? ==> r.error.reason.UnitsOfSummandsNotIdentical?
    ensures (forall i :: 0 <= i < |items| ==> !items[i].AddOp?) ==> r.Ok?
    decreases |items|
  {
    if items == [] then Ok(acc)
    else
      match items[0]
      case AddOp(item) =>
        (match Q.TryAdd(acc, item)
         case Err(e) => Err(Fail(at, E.UnitsOfSummandsNotIdentical(e)))
         case Ok(sum) => Fold(sum, items[1..], at))
      case MulOp(item) => Fold(Q.Mul(item, acc), items[1..], at)
      case DivOp(item) => Fold(Q.Div(item, acc), items[1..], at)
  }

  /**
    The end of the input: brackets must be balanced; the active quantity (or else the top entry
    of the stack) is folded with the stack; an empty stack gives the active quantity, or
    `InputIsEmpty` when there is none.
  */
  function Finish(st: State, at: Location): Result<Q.DynQuantity, E.ParseError>
  {
    if st.level != 0 then Err(Fail(at, E.UnbalancedBrackets))
    else if st.stack == [] then
      if st.active.Some? then Ok(st.active.value) else Err(Fail(at, E.InputIsEmpty))
    else if st.active.Some? then Fold(st.active.value, st.stack, at)
    else Fold(st.stack[|st.stack| - 1].item, st.stack[..|st.stack| - 1], at)
  }

  /** `from_str_complexf64` on a token stream; `atEnd` locates the end of the input. */
  function Evaluate(lexemes: seq<Lexeme>, atEnd: Location): (r: Result<Q.DynQuantity, E.ParseError>)
    ensures lexemes == [] ==> r == Err(Fail(atEnd, E.InputIsEmpty))
  {
    match Run(lexemes)
    case Err(e) => Err(e)
    case Ok(st) => Finish(st, atEnd)
  }

  /**
    `FromStr for DynQuantity<f64>`: the complex result narrowed to a real one; a magnitude with
    an imaginary part fails with an empty substring and the span 0..0.
  */
  function EvaluateReal(lexemes: seq<Lexeme>, atEnd: Location): (r: Result<Q.RealQuantity, E.ParseError>)
    ensures Evaluate(lexemes, atEnd).Err? ==> r == Err(Evaluate(lexemes, atEnd).error)
    ensures Evaluate(lexemes, atEnd).Ok? ==> (r.Ok? <==> C.IsReal(Evaluate(lexemes, atEnd).value.value))
    ensures r.Ok? ==> r.value == Evaluate(lexemes, atEnd).value
    ensures Evaluate(lexemes, atEnd).Ok? && r.Err? ==>
              r.error == E.ParseError("", E.Span(0, 0),
                           E.ComplexNotConvertible(E.NotConvertibleFromComplexF64(Evaluate(lexemes, atEnd).value.value, "f64")))
  {
    match Evaluate(lexemes, atEnd)
    case Err(e) => Err(e)
    case Ok(q) =>
      match Q.Narrow(q)
      case Ok(narrowed) => Ok(narrowed)
      case Err(c) => Err(E.ParseError("", E.Span(0, 0), E.ComplexNotConvertible(c)))
  }

  // ----- The token loop -----

  /** A stream that failed stays failed, whatever follows. */
  lemma {:induction false} RunFromConcat(st: State, a: seq<Lexeme>, b: seq<Lexeme>)
    ensures RunFrom(st, a + b) == (match RunFrom(st, a) case Err(e) => Err(e) case Ok(s) => RunFrom(s, b))
    decreases |a|
  {
    if a == [] {
      assert a + b == b;
    } else {
      assert (a + b)[0] == a[0];
      assert (a + b)[1..] == a[1..] + b;
      match Step(st, a[0])
      case Err(e) =>
      case Ok(next) => RunFromConcat(next, a[1..], b);
    }
  }

  /** The loop after one more lexeme. */
  lemma RunSnoc(lexemes: seq<Lexeme>, i: nat)
    requires i < |lexemes|
    ensures Run(lexemes[..i + 1]) == (match Run(lexemes[..i]) case Err(e) => Err(e) case Ok(s) => Step(s, lexemes[i]))
  {
    assert lexemes[..i + 1] == lexemes[..i] + [lexemes[i]];
    RunFromConcat(Initial, lexemes[..i], [lexemes[i]]);
    match Run(lexemes[..i])
    case Err(e) =>
    case Ok(s) =>
      assert [lexemes[i]][1..] == [];
  }

  /** An error after a prefix is the error of the whole stream. */
  lemma RunErrorSticks(lexemes: seq<Lexeme>, i: nat)
    requires i <= |lexemes| && Run(lexemes[..i]).Err?
    ensures Run(lexemes) == Run(lexemes[..i])
  {
    assert lexemes == lexemes[..i] + lexemes[i..];
    RunFromConcat(Initial, lexemes[..i], lexemes[i..]);
  }

  /** The closing bracket's popping loop. */
  method CloseBracket(q: Q.DynQuantity, stack: seq<Operation>, exponent: int, at: Location)
    returns (r: Result<(Q.DynQuantity, seq<Operation>), E.ParseError>)
    ensures r == Close(q, stack, exponent, at)
  {
    var quantity := q;
    var rest := stack;
    while rest != []
      invariant Close(quantity, rest, exponent, at) == Close(q, stack, exponent, at)
      decreases |rest|
    {
      var top := rest[|rest| - 1];
      var below := rest[..|rest| - 1];
      match top
      case AddOp(item) =>
        var updated, added := Q.TryAddAssign(quantity, item);
        if added.Err? {
          return Err(Fail(at, E.UnitsOfSummandsNotIdentical(added.error)));
        }
        quantity, rest := updated, below;
      case MulOp(item) =>
        return Ok((Q.Mul(item, Q.Powi(quantity, exponent)), below));
      case DivOp(item) =>
        return Ok((Q.Div(item, Q.Powi(quantity, exponent)), below));
    }
    return Ok((quantity, rest));
  }

  /** The final `try_fold`, bottom entry first. */
  method FoldStack(initial: Q.DynQuantity, items: seq<Operation>, at: Location)
    returns (r: Result<Q.DynQuantity, E.ParseError>)
    ensures r == Fold(initial, items, at)
  {
    var acc := initial;
    for k := 0 to |items|
      invariant Fold(acc, items[k..], at) == Fold(initial, items, at)
    {
      assert items[k..][1..] == items[k + 1..];
      match items[k]
      case AddOp(item) =>
        var updated, added := Q.TryAddAssign(acc, item);
        if added.Err? {
          return Err(Fail(at, E.UnitsOfSummandsNotIdentical(added.error)));
        }
        acc := updated;
      case MulOp(item) =>
        acc := Q.Mul(item, acc);
      case DivOp(item) =>
        acc := Q.Div(item, acc);
    }
    assert items[|items|..] == [];
    return Ok(acc);
  }

  /**
    The body of the token loop up to the division check, on the loop's variables: the four
    operators end their iteration with `continue`, every other token goes on to the division check.
  */
  method ReadToken(st: State, token: L.Token, at: Location) returns (r: Result<(State, bool), E.ParseError>)
    ensures r == ProcessToken(st, token, at)
  {
    if IsOperator(token) {
      r := ReadOperator(st, token, at);
    } else {
      r := ReadOperand(st, token, at);
    }
  }

  /** The branches of the four operators. */
  method ReadOperator(st: State, token: L.Token, at: Location) returns (r: Result<(State, bool), E.ParseError>)
    requires IsOperator(token)
    ensures r == ProcessToken(st, token, at)
  {
    var active, stack, level, previous, pending := st.active, st.stack, st.level, st.previous, st.pending;
    match token {
      case Mul =>
        if previous != Other {
          return Err(Fail(at, E.TwoOperatorsWithoutNumber));
        }
        if active.None? {
          return Err(Fail(at, E.MustNotStartWith));
        }
        previous := Mul;
      case Div =>
        if previous != Other {
          return Err(Fail(at, E.TwoOperatorsWithoutNumber));
        }
        if active.None? {
          return Err(Fail(at, E.MustNotStartWith));
        }
        stack := stack + [DivOp(active.value)];
        active := None;
        previous := Div;
        pending := true;
      case Add =>
        if previous == Add || previous == Sub {
          return Err(Fail(at, E.TwoOperatorsWithoutNumber));
        }
        if active.Some? {
          stack := stack + [AddOp(active.value)];
        }
        active := Some(Number(1.0));
        previous := Add;
      case Sub =>
        if previous == Add || previous == Sub {
          return Err(Fail(at, E.TwoOperatorsWithoutNumber));
        }
        if active.Some? {
          stack := stack + [AddOp(active.value)];
        }
        active := Some(Number(-1.0));
        previous := Sub;
    }
    return Ok((State(active, stack, level, previous, pending), true));
  }

  /** The branches of numbers, unit symbols, `%` and brackets. */
  method ReadOperand(st: State, token: L.Token, at: Location) returns (r: Result<(State, bool), E.ParseError>)
    requires !IsOperator(token)
    ensures r == ProcessToken(st, token, at)
  {
    var active, stack, level, previous, pending := st.active, st.stack, st.level, st.previous, st.pending;
    match token {
      case Real(v) =>
        if active.Some? {
          active := Some(active.value.(value := C.Mul(active.value.value, C.Complex(v, 0.0))));
        } else {
          active := Some(Q.DynQuantity(C.Complex(v, 0.0), U.Dimensionless));
        }
      case Imag(v) =>
        if active.Some? {
          active := Some(active.value.(value := C.Mul(active.value.value, C.Complex(0.0, v))));
        } else {
          active := Some(Q.DynQuantity(C.Complex(0.0, v), U.Dimensionless));
        }
      case Percent =>
        active := Adjust(active, q => Q.MulScalar(q, 0.01));
      case LeftBracket =>
        if active.Some? {
          stack := stack + [MulOp(active.value)];
          active := None;
        } else if previous == Other {
          stack := stack + [MulOp(Number(1.0))];
        }
        level := level + 1;
      case RightBracket(exponent) =>
        r := ReadRightBracket(st, exponent, at);
        return;
      case PowerOfTen(n) =>
        if active.Some? {
          active := Some(Q.MulScalar(active.value, Pow10(n)));
        } else {
          active := Some(Number(Pow10(n)));
        }
      case Symbol(kind, e) =>
        active := Adjust(active, q => ApplySymbol(q, kind, e));
    }
    return Ok((State(active, stack, level, previous, pending), false));
  }

  /** The `)` branch of the token loop: reduce the bracket, or fail when none is open. */
  method ReadRightBracket(st: State, exponent: int, at: Location) returns (r: Result<(State, bool), E.ParseError>)
    ensures r == ProcessToken(st, L.RightBracket(exponent), at)
  {
    if st.level == 0 || st.active.None? {
      return Err(Fail(at, E.UnbalancedBrackets));
    }
    var closed := CloseBracket(st.active.value, st.stack, exponent, at);
    if closed.Err? {
      return Err(closed.error);
    }
    return Ok((State(Some(closed.value.0), closed.value.1, st.level - 1, st.previous, st.pending), false));
  }

  /** The division check at the end of an iteration that did not `continue`. */
  method CheckDivision(mid: State, at: Location) returns (r: Result<State, E.ParseError>)
    ensures r == ResolveDivision(mid, at)
  {
    var active, stack := mid.active, mid.stack;
    if mid.pending {
      if stack == [] {
        return Err(Fail(at, E.UnbalancedBrackets));
      }
      var top := stack[|stack| - 1];
      if top.DivOp? && active.Some? {
        active := Some(Q.Div(top.item, active.value));
        stack := stack[..|stack| - 1];
      }
    }
    return Ok(State(active, stack, mid.level, Other, false));
  }

  /** After the loop: the bracket check and the fold of the stack. */
  method Conclude(st: State, atEnd: Location) returns (r: Result<Q.DynQuantity, E.ParseError>)
    ensures r == Finish(st, atEnd)
  {
    if st.level != 0 {
      return Err(Fail(atEnd, E.UnbalancedBrackets));
    }
    var stack := st.stack;
    if stack != [] {
      var initial := stack[|stack| - 1];
      var rest := stack[..|stack| - 1];
      if st.active.Some? {
        assert rest + [initial] == stack;
        r := FoldStack(st.active.value, rest + [initial], atEnd);
      } else {
        r := FoldStack(initial.item, rest, atEnd);
      }
      return r;
    }
    if st.active.Some? {
      return Ok(st.active.value);
    }
    return Err(Fail(atEnd, E.InputIsEmpty));
  }

  /** `from_str_complexf64`: the token loop, then the end of the input. */
  method FromStrComplex(lexemes: seq<Lexeme>, atEnd: Location) returns (r: Result<Q.DynQuantity, E.ParseError>)
    ensures r == Evaluate(lexemes, atEnd)
  {
    var st := Initial;
    var i := 0;
    while i < |lexemes|
      invariant i <= |lexemes|
      invariant Run(lexemes[..i]) == Ok(st)
    {
      RunSnoc(lexemes, i);
      var lexeme := lexemes[i];
      if lexeme.token.None? {
        RunErrorSticks(lexemes, i + 1);
        return Err(Fail(lexeme.at, E.UnexpectedToken));
      }
      var read := ReadToken(st, lexeme.token.value, lexeme.at);
      if read.Err? {
        RunErrorSticks(lexemes, i + 1);
        return Err(read.error);
      }
      var mid, skip := read.value.0, read.value.1;
      if skip {
        st := mid;
      } else {
        var resolved := CheckDivision(mid, lexeme.at);
        if resolved.Err? {
          RunErrorSticks(lexemes, i + 1);
          return Err(resolved.error);
        }
        st := resolved.value;
      }
      i := i + 1;
    }
    assert lexemes[..|lexemes|] == lexemes;
    r := Conclude(st, atEnd);
  }

  /** `FromStr for DynQuantity<f64>`. */
  method FromStr(lexemes: seq<Lexeme>, atEnd: Location) returns (r: Result<Q.RealQuantity, E.ParseError>)
    ensures r == EvaluateReal(lexemes, atEnd)
  {
    var complex := FromStrComplex(lexemes, atEnd);
    if complex.Err? {
      return Err(complex.error);
    }
    var narrowed := Q.RealFromComplex(complex.value.value);
    if narrowed.Err? {
      return Err(E.ParseError("", E.Span(0, 0), E.ComplexNotConvertible(narrowed.error)));
    }
    var q: Q.RealQuantity := Q.DynQuantity(C.FromReal(narrowed.value), complex.value.unit);
    return Ok(q);
  }
}
