/**
  What the evaluator guarantees: the shape of its state between tokens, how the bracket level
  follows the brackets, and the error each malformed input leads to.
*/
module EvaluatorProperties {
  import opened Wrappers
  import U = Units
  import E = Errors
  import Q = Quantities
  import L = Lexer
  import EV = Evaluator
  import C = ComplexNumbers
  import UC = UnitConstructors

  // ----- The state between tokens -----

  /** The number of `MulOp` and `DivOp` entries: the operations a bracket or a division opened. */
  function Openers(stack: seq<EV.Operation>): nat
    decreases |stack|
  {
    if stack == [] then 0
    else Openers(stack[..|stack| - 1]) + (if stack[|stack| - 1].AddOp? then 0 else 1)
  }

  lemma OpenersPush(stack: seq<EV.Operation>, op: EV.Operation)
    ensures Openers(stack + [op]) == Openers(stack) + (if op.AddOp? then 0 else 1)
  {
    assert (stack + [op])[..|stack|] == stack;
  }

  /** The index of the topmost `MulOp` or `DivOp`. */
  function TopOpener(stack: seq<EV.Operation>): (k: nat)
    requires Openers(stack) > 0
    ensures k < |stack| && !stack[k].AddOp?
    ensures forall j :: k < j < |stack| ==> stack[j].AddOp?
    ensures Openers(stack[..k]) == Openers(stack) - 1
    decreases |stack|
  {
    if stack[|stack| - 1].AddOp? then
      var k := TopOpener(stack[..|stack| - 1]);
      assert stack[..|stack| - 1][..k] == stack[..k];
      k
    else
      |stack| - 1
  }

  /**
    Between tokens the stack holds at least as many `MulOp` and `DivOp` entries as there are open
    brackets, plus one for a pending division (a `)` takes the topmost of them, which need not be
    the one its own `(` pushed); a `*` just read leaves an active quantity, a `/` just read moved it to
    the stack and left the division pending, and `+` or `-` left ±1 active.
  */
  predicate Inv(st: EV.State)
  {
    && Openers(st.stack) >= st.level + (if st.pending then 1 else 0)
    && (st.previous == EV.Other ==> !st.pending)
    && (st.previous == EV.Mul ==> !st.pending && st.active.Some?)
    && (st.previous == EV.Div ==> st.pending && st.active.None?)
    && (st.previous == EV.Add || st.previous == EV.Sub ==> st.active.Some?)
  }

  /** What a token that goes on to the division check leaves behind. */
  predicate MidInv(st: EV.State)
  {
    && Openers(st.stack) >= st.level + (if st.pending && st.active.Some? then 1 else 0)
    && (st.pending ==> st.stack != [])
  }

  lemma InitialInv()
    ensures Inv(EV.Initial)
  {
  }

  /** The bracket's content plus the summands above index `k`, added from the top down as `)` pops them. */
  function SumAbove(v: C.Complex, stack: seq<EV.Operation>, k: nat): C.Complex
    decreases |stack|
  {
    if |stack| <= k + 1 then v
    else SumAbove(C.Add(v, stack[|stack| - 1].item.value), stack[..|stack| - 1], k)
  }

  /**
    The closing bracket pops exactly down to below the topmost `MulOp`/`DivOp`; it succeeds
    exactly when every summand above that entry has the unit of the bracket's content. The
    result is that entry's operand times (or divided by) the sum of the content and those
    summands, raised to the bracket exponent, in magnitude and in unit.
  */
  lemma {:induction false} CloseStopsAtOpener(q: Q.DynQuantity, stack: seq<EV.Operation>, exponent: int, at: EV.Location)
    requires Openers(stack) > 0
    ensures var k := TopOpener(stack);
            (EV.Close(q, stack, exponent, at).Ok? <==> forall j :: k < j < |stack| ==> stack[j].item.unit == q.unit)
    ensures var k := TopOpener(stack);
            EV.Close(q, stack, exponent, at).Ok? ==>
              && EV.Close(q, stack, exponent, at).value.1 == stack[..k]
              && EV.Close(q, stack, exponent, at).value.0.unit ==
                   (if stack[k].MulOp? then U.Mul(stack[k].item.unit, U.Power(q.unit, exponent))
                    else U.Div(stack[k].item.unit, U.Power(q.unit, exponent)))
              && EV.Close(q, stack, exponent, at).value.0.value ==
                   (if stack[k].MulOp? then C.Mul(stack[k].item.value, C.Powi(SumAbove(q.value, stack, k), exponent))
                    else C.Div(stack[k].item.value, C.Powi(SumAbove(q.value, stack, k), exponent)))
    ensures EV.Close(q, stack, exponent, at).Err? ==>
              && EV.Close(q, stack, exponent, at).error.reason.UnitsOfSummandsNotIdentical?
              && EV.Close(q, stack, exponent, at).error.reason.units.first == q.unit
              && EV.Close(q, stack, exponent, at).error.span == at.span
    decreases |stack|
  {
    var rest := stack[..|stack| - 1];
    var k := TopOpener(stack);
    match stack[|stack| - 1] {
      case AddOp(item) =>
        match Q.TryAdd(q, item) {
          case Err(e) =>
          case Ok(sum) =>
            CloseStopsAtOpener(sum, rest, exponent, at);
            assert TopOpener(rest) == k;
            assert SumAbove(q.value, stack, k) == SumAbove(sum.value, rest, k);
            assert rest[..k] == stack[..k];
            assert forall j :: k < j < |rest| ==> rest[j] == stack[j];
        }
      case MulOp(item) =>
      case DivOp(item) =>
    }
  }

  /** Leaving `st` after one token: the new state, or the error, with the division check. */
  lemma ResolveKeepsInv(mid: EV.State, at: EV.Location)
    requires MidInv(mid)
    ensures EV.ResolveDivision(mid, at).Ok?
    ensures Inv(EV.ResolveDivision(mid, at).value)
  {
    var s := mid.stack;
    if mid.pending && s[|s| - 1].DivOp? && mid.active.Some? {
      assert Openers(s[..|s| - 1]) == Openers(s) - 1;
    }
  }

  /** Tokens that neither touch the stack nor the operator state: they leave an active quantity. */
  lemma ValueTokenKeepsInv(st: EV.State, token: L.Token, at: EV.Location)
    requires Inv(st)
    requires token.Real? || token.Imag? || token.Percent? || token.PowerOfTen? || token.Symbol?
    ensures EV.ProcessToken(st, token, at).Ok?
    ensures !EV.ProcessToken(st, token, at).value.1 && MidInv(EV.ProcessToken(st, token, at).value.0)
  {
  }

  lemma LeftBracketKeepsInv(st: EV.State, at: EV.Location)
    requires Inv(st)
    ensures EV.ProcessToken(st, L.LeftBracket, at).Ok?
    ensures !EV.ProcessToken(st, L.LeftBracket, at).value.1 && MidInv(EV.ProcessToken(st, L.LeftBracket, at).value.0)
  {
    if st.active.Some? {
      OpenersPush(st.stack, EV.MulOp(st.active.value));
    } else if st.previous == EV.Other {
      OpenersPush(st.stack, EV.MulOp(EV.Number(1.0)));
    }
  }

  lemma RightBracketKeepsInv(st: EV.State, exponent: int, at: EV.Location)
    requires Inv(st)
    ensures var r := EV.ProcessToken(st, L.RightBracket(exponent), at);
            r.Ok? ==> !r.value.1 && MidInv(r.value.0)
    ensures var r := EV.ProcessToken(st, L.RightBracket(exponent), at);
            r.Err? ==> (r.error.reason == E.UnbalancedBrackets <==> st.level == 0 || st.active.None?)
    ensures st.level == 0 || st.active.None? ==>
              EV.ProcessToken(st, L.RightBracket(exponent), at) == Err(EV.Fail(at, E.UnbalancedBrackets))
  {
    if st.level != 0 && st.active.Some? {
      CloseStopsAtOpener(st.active.value, st.stack, exponent, at);
    }
  }

  lemma OperatorKeepsInv(st: EV.State, token: L.Token, at: EV.Location)
    requires Inv(st)
    requires token.Mul? || token.Div? || token.Add? || token.Sub?
    ensures var r := EV.ProcessToken(st, token, at);
            r.Ok? ==> r.value.1 && Inv(r.value.0)
    ensures var r := EV.ProcessToken(st, token, at);
            r.Err? ==> r.error.reason != E.UnbalancedBrackets
  {
    if token.Div? && st.active.Some? {
      OpenersPush(st.stack, EV.DivOp(st.active.value));
    } else if (token.Add? || token.Sub?) && st.active.Some? {
      OpenersPush(st.stack, EV.AddOp(st.active.value));
    }
  }

  /**
    Every step keeps the invariant, and within the token loop `UnbalancedBrackets` comes only
    from a closing bracket: the division check never finds an empty stack.
  */
  lemma StepKeepsInv(st: EV.State, lexeme: EV.Lexeme)
    requires Inv(st)
    ensures EV.Step(st, lexeme).Ok? ==> Inv(EV.Step(st, lexeme).value)
    ensures EV.Step(st, lexeme).Err? && EV.Step(st, lexeme).error.reason == E.UnbalancedBrackets ==>
              lexeme.token.Some? && lexeme.token.value.RightBracket?
  {
    if lexeme.token.Some? {
      var token := lexeme.token.value;
      var at := lexeme.at;
      match token {
      case Real(_) => ValueTokenKeepsInv(st, token, at);
      case Imag(_) => ValueTokenKeepsInv(st, token, at);
      case Percent => ValueTokenKeepsInv(st, token, at);
      case PowerOfTen(_) => ValueTokenKeepsInv(st, token, at);
      case Symbol(_, _) => ValueTokenKeepsInv(st, token, at);
      case LeftBracket => LeftBracketKeepsInv(st, at);
      case RightBracket(e) => RightBracketKeepsInv(st, e, at);
      case Mul => OperatorKeepsInv(st, token, at);
      case Div => OperatorKeepsInv(st, token, at);
      case Add => OperatorKeepsInv(st, token, at);
      case Sub => OperatorKeepsInv(st, token, at);
      }
      var r := EV.ProcessToken(st, token, at);
      if r.Ok? && !r.value.1 {
        ResolveKeepsInv(r.value.0, at);
      }
    }
  }

  /** An error of a step quotes the token's text and span. */
  lemma StepErrorLocated(st: EV.State, lexeme: EV.Lexeme)
    ensures EV.Step(st, lexeme).Err? ==>
              EV.Step(st, lexeme).error.substring == lexeme.at.text
              && EV.Step(st, lexeme).error.span == lexeme.at.span
  {
    if lexeme.token.Some? {
      ProcessTokenEffects(st, lexeme.token.value, lexeme.at);
    }
  }

  /**
    One token before the division check: an error quotes the token; only the four operators
    and `)` can fail; exactly the operators skip the division check; `(` raises the bracket
    level by one, `)` lowers it by one and every other token leaves it.
  */
  lemma ProcessTokenEffects(st: EV.State, token: L.Token, at: EV.Location)
    ensures var r := EV.ProcessToken(st, token, at);
            r.Err? ==> r.error == EV.Fail(at, r.error.reason) && (EV.IsOperator(token) || token.RightBracket?)
    ensures var r := EV.ProcessToken(st, token, at);
            r.Ok? ==> (r.value.1 <==> EV.IsOperator(token))
    ensures var r := EV.ProcessToken(st, token, at);
            r.Ok? ==> r.value.0.level == (if token.LeftBracket? then st.level + 1
                                          else if token.RightBracket? then st.level - 1
                                          else st.level)
  {
  }

  /**
    After a token that is not an operator the division check has run: the previous token counts
    as `Other` and no division is pending.
  */
  lemma StepSettles(st: EV.State, lexeme: EV.Lexeme)
    requires lexeme.token.Some? && !EV.IsOperator(lexeme.token.value)
    ensures EV.Step(st, lexeme).Ok? ==>
              EV.Step(st, lexeme).value.previous == EV.Other && !EV.Step(st, lexeme).value.pending
  {
    ProcessTokenEffects(st, lexeme.token.value, lexeme.at);
  }

  /**
    The end of the input: an error quotes the end of the input and is `UnbalancedBrackets`,
    `InputIsEmpty` or a summand mismatch; open brackets always fail; with an empty stack it
    succeeds exactly when a quantity is active, and gives that quantity.
  */
  lemma FinishOutcomes(st: EV.State, at: EV.Location)
    ensures var r := EV.Finish(st, at);
            r.Err? ==> r.error == EV.Fail(at, r.error.reason)
                       && (r.error.reason.UnbalancedBrackets? || r.error.reason.InputIsEmpty?
                           || r.error.reason.UnitsOfSummandsNotIdentical?)
    ensures st.level != 0 ==> EV.Finish(st, at) == Err(EV.Fail(at, E.UnbalancedBrackets))
    ensures st.level == 0 && st.stack == [] ==>
              EV.Finish(st, at) == (if st.active.Some? then Ok(st.active.value) else Err(EV.Fail(at, E.InputIsEmpty)))
  {
  }

  // ----- The final fold, split into units and magnitudes -----

  /** The unit the fold arrives at from `u`, magnitudes aside: summands keep it, `*` and `/` combine. */
  function FoldUnit(u: U.Unit, items: seq<EV.Operation>): U.Unit
    decreases |items|
  {
    if items == [] then u
    else
      match items[0]
      case AddOp(_) => FoldUnit(u, items[1..])
      case MulOp(item) => FoldUnit(U.Mul(item.unit, u), items[1..])
      case DivOp(item) => FoldUnit(U.Div(item.unit, u), items[1..])
  }

  /** The magnitude the fold arrives at from `v`, units aside. */
  function FoldValue(v: C.Complex, items: seq<EV.Operation>): C.Complex
    decreases |items|
  {
    if items == [] then v
    else
      match items[0]
      case AddOp(item) => FoldValue(C.Add(v, item.value), items[1..])
      case MulOp(item) => FoldValue(C.Mul(item.value, v), items[1..])
      case DivOp(item) => FoldValue(C.Div(item.value, v), items[1..])
  }

  /** Every summand has the unit the fold has reached when it comes to it. */
  predicate SummandsAgree(u: U.Unit, items: seq<EV.Operation>)
  {
    forall i :: 0 <= i < |items| && items[i].AddOp? ==> items[i].item.unit == FoldUnit(u, items[..i])
  }

  /**
    The final fold succeeds exactly when every summand matches the unit reached so far, which
    the magnitudes never influence; its result pairs the fold of the magnitudes with the fold of
    the units.
  */
  lemma {:induction false} FoldSplits(acc: Q.DynQuantity, items: seq<EV.Operation>, at: EV.Location)
    ensures EV.Fold(acc, items, at).Ok? <==> SummandsAgree(acc.unit, items)
    ensures EV.Fold(acc, items, at).Ok? ==>
              EV.Fold(acc, items, at).value == Q.DynQuantity(FoldValue(acc.value, items), FoldUnit(acc.unit, items))
    decreases |items|
  {
    if items != [] {
      var next := match items[0]
                  case AddOp(item) => Q.DynQuantity(C.Add(acc.value, item.value), acc.unit)
                  case MulOp(item) => Q.Mul(item, acc)
                  case DivOp(item) => Q.Div(item, acc);
      var rest := items[1..];
      forall i | 0 < i <= |items| ensures items[..i][1..] == rest[..i - 1] && items[..i][0] == items[0] { }
      assert FoldValue(acc.value, items) == FoldValue(next.value, rest);
      assert FoldUnit(acc.unit, items) == FoldUnit(next.unit, rest);
      assert forall i :: 0 < i < |items| ==> FoldUnit(acc.unit, items[..i]) == FoldUnit(next.unit, rest[..i - 1]);
      assert FoldUnit(acc.unit, items[..0]) == acc.unit;
      if items[0].AddOp? && items[0].item.unit != acc.unit {
        assert !SummandsAgree(acc.unit, items);
      } else {
        FoldSplits(next, rest, at);
        assert SummandsAgree(acc.unit, items) <==> SummandsAgree(next.unit, rest) by {
          if SummandsAgree(next.unit, rest) {
            forall i | 0 <= i < |items| && items[i].AddOp?
              ensures items[i].item.unit == FoldUnit(acc.unit, items[..i])
            {
              if i > 0 {
                assert rest[i - 1] == items[i];
              }
            }
          }
          if SummandsAgree(acc.unit, items) {
            forall j | 0 <= j < |rest| && rest[j].AddOp?
              ensures rest[j].item.unit == FoldUnit(next.unit, rest[..j])
            {
              assert items[j + 1] == rest[j];
            }
          }
        }
      }
    }
  }

  /** A stack of summands only folds to their sum when all have the accumulator's unit. */
  lemma {:induction false} SummandsFoldToSum(acc: Q.DynQuantity, items: seq<EV.Operation>, at: EV.Location)
    requires forall i :: 0 <= i < |items| ==> items[i].AddOp? && items[i].item.unit == acc.unit
    ensures EV.Fold(acc, items, at) == Ok(Q.DynQuantity(FoldValue(acc.value, items), acc.unit))
    decreases |items|
  {
    if items != [] {
      var rest := items[1..];
      assert forall i :: 0 <= i < |rest| ==> rest[i] == items[i + 1];
      SummandsFoldToSum(Q.DynQuantity(C.Add(acc.value, items[0].item.value), acc.unit), rest, at);
    }
  }

  // ----- Unit tokens -----

  /** Powers of ten, and so every factor a unit token scales by, are positive. */
  lemma SymbolFactorPositive(kind: L.SymbolKind, e: L.Exponents)
    ensures EV.Pow10(L.Exponent(e)) > 0.0
    ensures EV.SymbolFactor(kind, e) > 0.0
  {
    C.PositivePower(10.0, L.Exponent(e));
    C.PositivePower(10.0, L.Exponent(L.Exponents(e.unit, e.prefix + EV.PrefixShift(kind))));
    WeightPositive(kind, e.unit);
    PositiveProduct(EV.SymbolWeight(kind, e.unit), EV.Pow10(L.Exponent(L.Exponents(e.unit, e.prefix + EV.PrefixShift(kind)))));
  }

  lemma WeightPositive(kind: L.SymbolKind, u: int)
    ensures EV.SymbolWeight(kind, u) > 0.0
  {
    match kind
    case RotationsPerMinute => C.PositivePower(1.0 / 60.0, u);
    case Degree => C.PositivePower(C.Pi / 180.0, u);
    case Pi => C.PositivePower(C.Pi, u);
    case _ =>
  }

  lemma PositiveProduct(x: real, y: real)
    requires x > 0.0 && y > 0.0
    ensures x * y > 0.0
  {
  }

  /**
    A unit token keeps a real magnitude real, and every symbol but °C (whose offset it adds)
    turns a zero magnitude into zero and nothing else into zero.
  */
  lemma SymbolScalesMagnitude(q: Q.DynQuantity, kind: L.SymbolKind, e: L.Exponents)
    ensures C.IsReal(q.value) ==> C.IsReal(EV.ApplySymbol(q, kind, e).value)
    ensures kind != L.Celsius ==> (EV.ApplySymbol(q, kind, e).value == C.Zero <==> q.value == C.Zero)
  {
    SymbolFactorPositive(kind, e);
    var shifted := if kind == L.Celsius then C.Add(q.value, C.FromReal(C.RealPowi(273.15, e.unit))) else q.value;
    C.ScaleByPositive(shifted, EV.SymbolFactor(kind, e));
  }


  /**
    The prefix law: a prefix of power p on a symbol raised to u scales the magnitude by
    10^(u·p) beyond what the bare symbol does, and leaves the exponents alone. This holds for
    gram and ton too, whose factors carry the prefix shifted by 3.
  */
  lemma PrefixScales(q: Q.DynQuantity, kind: L.SymbolKind, u: int, p: int)
    ensures EV.ApplySymbol(q, kind, L.Exponents(u, p)).unit == EV.ApplySymbol(q, kind, L.Exponents(u, 0)).unit
    ensures EV.ApplySymbol(q, kind, L.Exponents(u, p)).value
            == C.Scale(EV.ApplySymbol(q, kind, L.Exponents(u, 0)).value, EV.Pow10(u * p))
  {
    PrefixKeepsUnit(q, kind, u, p);
    PrefixScalesValue(q, kind, u, p);
  }

  lemma PrefixKeepsUnit(q: Q.DynQuantity, kind: L.SymbolKind, u: int, p: int)
    ensures EV.ApplySymbol(q, kind, L.Exponents(u, p)).unit == EV.ApplySymbol(q, kind, L.Exponents(u, 0)).unit
  {
  }

  lemma PrefixScalesValue(q: Q.DynQuantity, kind: L.SymbolKind, u: int, p: int)
    ensures EV.ApplySymbol(q, kind, L.Exponents(u, p)).value
            == C.Scale(EV.ApplySymbol(q, kind, L.Exponents(u, 0)).value, EV.Pow10(u * p))
  {
    var shifted := if kind == L.Celsius then C.Add(q.value, C.FromReal(C.RealPowi(273.15, u))) else q.value;
    AppliedValue(q, kind, L.Exponents(u, p), shifted);
    AppliedValue(q, kind, L.Exponents(u, 0), shifted);
    ScaledPrefix(shifted, kind, u, p);
  }

  lemma ScaledPrefix(z: C.Complex, kind: L.SymbolKind, u: int, p: int)
    ensures C.Scale(z, EV.SymbolFactor(kind, L.Exponents(u, p)))
            == C.Scale(C.Scale(z, EV.SymbolFactor(kind, L.Exponents(u, 0))), EV.Pow10(u * p))
  {
    SymbolFactorPrefix(kind, u, p);
    ScaleBySplit(z, EV.SymbolFactor(kind, L.Exponents(u, p)), EV.SymbolFactor(kind, L.Exponents(u, 0)), EV.Pow10(u * p));
  }

  /** The magnitude a unit token leaves: the (for °C, shifted) magnitude times the symbol's factor. */
  lemma AppliedValue(q: Q.DynQuantity, kind: L.SymbolKind, e: L.Exponents, shifted: C.Complex)
    requires shifted == if kind == L.Celsius then C.Add(q.value, C.FromReal(C.RealPowi(273.15, e.unit))) else q.value
    ensures EV.ApplySymbol(q, kind, e).value == C.Scale(shifted, EV.SymbolFactor(kind, e))
  {
  }

  lemma ScaleBySplit(z: C.Complex, f: real, g: real, t: real)
    requires f == g * t
    ensures C.Scale(z, f) == C.Scale(C.Scale(z, g), t)
  {
    C.ScaleTwice(z, g, t);
  }

  lemma SymbolFactorPrefix(kind: L.SymbolKind, u: int, p: int)
    ensures EV.SymbolFactor(kind, L.Exponents(u, p)) == EV.SymbolFactor(kind, L.Exponents(u, 0)) * EV.Pow10(u * p)
  {
    FactorAt(kind, u, p);
    FactorAt(kind, u, 0);
    ShiftSplit(EV.SymbolFactor(kind, L.Exponents(u, p)), EV.SymbolFactor(kind, L.Exponents(u, 0)), EV.SymbolWeight(kind, u),
               u, p, EV.PrefixShift(kind));
  }

  /** A weight times the power of ten of a shifted prefix splits off 10^(u·p). */
  lemma ShiftSplit(f: real, g: real, w: real, u: int, p: int, d: int)
    requires f == w * EV.Pow10(u * (p + d)) && g == w * EV.Pow10(u * (0 + d))
    ensures f == g * EV.Pow10(u * p)
  {
    Distributes(u, p, d);
    WeightedSplit(f, g, w, u * (p + d), u * (0 + d), u * p);
  }

  /** A symbol's factor with the shift of its prefix written out. */
  lemma FactorAt(kind: L.SymbolKind, u: int, p: int)
    ensures EV.SymbolFactor(kind, L.Exponents(u, p)) == EV.SymbolWeight(kind, u) * EV.Pow10(u * (p + EV.PrefixShift(kind)))
  {
  }

  lemma Distributes(u: int, p: int, d: int)
    ensures u * (p + d) == u * (0 + d) + u * p
  {
  }

  /** A weight times a power of ten splits off a further power of ten. */
  lemma WeightedSplit(f: real, g: real, w: real, a: int, b: int, c: int)
    requires f == w * EV.Pow10(a) && g == w * EV.Pow10(b) && a == b + c
    ensures f == g * EV.Pow10(c)
  {
    Pow10Split(a, b, c);
    C.MulAssociates(w, EV.Pow10(b), EV.Pow10(c));
  }

  lemma Pow10Split(a: int, b: int, c: int)
    requires a == b + c
    ensures EV.Pow10(a) == EV.Pow10(b) * EV.Pow10(c)
  {
    C.RealPowiAdd(10.0, b, c);
  }

  /** A successful prefix of a successful stream. */
  lemma RunPrefixOk(lexemes: seq<EV.Lexeme>, i: nat)
    requires i <= |lexemes| && EV.Run(lexemes).Ok?
    ensures EV.Run(lexemes[..i]).Ok?
  {
    if EV.Run(lexemes[..i]).Err? {
      EV.RunErrorSticks(lexemes, i);
    }
  }

  /** Every state the token loop reaches satisfies the invariant. */
  lemma {:induction false} RunKeepsInv(lexemes: seq<EV.Lexeme>)
    ensures EV.Run(lexemes).Ok? ==> Inv(EV.Run(lexemes).value)
    decreases |lexemes|
  {
    if lexemes != [] && EV.Run(lexemes).Ok? {
      var n := |lexemes| - 1;
      RunPrefixOk(lexemes, n);
      RunKeepsInv(lexemes[..n]);
      EV.RunSnoc(lexemes, n);
      StepKeepsInv(EV.Run(lexemes[..n]).value, lexemes[n]);
      assert lexemes[..n + 1] == lexemes;
    }
  }

  // ----- Brackets -----

  function Opens(lexemes: seq<EV.Lexeme>): nat
    decreases |lexemes|
  {
    if lexemes == [] then 0
    else Opens(lexemes[..|lexemes| - 1]) + (if lexemes[|lexemes| - 1].token == Some(L.LeftBracket) then 1 else 0)
  }

  function Closes(lexemes: seq<EV.Lexeme>): nat
    decreases |lexemes|
  {
    if lexemes == [] then 0
    else Closes(lexemes[..|lexemes| - 1])
           + (if lexemes[|lexemes| - 1].token.Some? && lexemes[|lexemes| - 1].token.value.RightBracket? then 1 else 0)
  }

  /** The bracket level after a successful loop is the number of unclosed opening brackets. */
  lemma {:induction false} LevelCountsBrackets(lexemes: seq<EV.Lexeme>)
    ensures EV.Run(lexemes).Ok? ==> EV.Run(lexemes).value.level == Opens(lexemes) - Closes(lexemes)
    decreases |lexemes|
  {
    if lexemes != [] && EV.Run(lexemes).Ok? {
      var n := |lexemes| - 1;
      RunPrefixOk(lexemes, n);
      LevelCountsBrackets(lexemes[..n]);
      EV.RunSnoc(lexemes, n);
      assert lexemes[..n + 1] == lexemes;
    }
  }

  /**
    A closing bracket with every earlier bracket already closed fails at once with
    `UnbalancedBrackets`, located at that bracket.
  */
  lemma ClosingTooManyFails(lexemes: seq<EV.Lexeme>, i: nat, exponent: int, atEnd: EV.Location)
    requires i < |lexemes| && EV.Run(lexemes[..i]).Ok?
    requires Opens(lexemes[..i]) == Closes(lexemes[..i])
    requires lexemes[i].token == Some(L.RightBracket(exponent))
    ensures EV.Evaluate(lexemes, atEnd) == Err(EV.Fail(lexemes[i].at, E.UnbalancedBrackets))
  {
    LevelCountsBrackets(lexemes[..i]);
    EV.RunSnoc(lexemes, i);
    EV.RunErrorSticks(lexemes, i + 1);
  }

  /** A loop that ends with a bracket still open fails with `UnbalancedBrackets` at the end. */
  lemma UnclosedBracketFails(lexemes: seq<EV.Lexeme>, atEnd: EV.Location)
    requires EV.Run(lexemes).Ok? && Opens(lexemes) != Closes(lexemes)
    ensures EV.Evaluate(lexemes, atEnd) == Err(EV.Fail(atEnd, E.UnbalancedBrackets))
  {
    LevelCountsBrackets(lexemes);
  }

  /** A text that evaluates has balanced brackets, and no prefix of it closes more than it opened. */
  lemma SuccessMeansBalanced(lexemes: seq<EV.Lexeme>, atEnd: EV.Location, i: nat)
    requires EV.Evaluate(lexemes, atEnd).Ok? && i <= |lexemes|
    ensures Opens(lexemes) == Closes(lexemes)
    ensures Closes(lexemes[..i]) <= Opens(lexemes[..i])
  {
    LevelCountsBrackets(lexemes);
    RunPrefixOk(lexemes, i);
    LevelCountsBrackets(lexemes[..i]);
  }

  // ----- The error rules -----

  /** A token the lexer could not read ends the evaluation with `UnexpectedToken` at that token. */
  lemma LexingErrorFails(lexemes: seq<EV.Lexeme>, i: nat, atEnd: EV.Location)
    requires i < |lexemes| && EV.Run(lexemes[..i]).Ok? && lexemes[i].token.None?
    ensures EV.Evaluate(lexemes, atEnd) == Err(EV.Fail(lexemes[i].at, E.UnexpectedToken))
  {
    EV.RunSnoc(lexemes, i);
    EV.RunErrorSticks(lexemes, i + 1);
  }

  /** An input whose first token is `*` or `/` fails with `MustNotStartWith` at that token. */
  lemma LeadingOperatorFails(lexemes: seq<EV.Lexeme>, atEnd: EV.Location)
    requires |lexemes| > 0 && (lexemes[0].token == Some(L.Mul) || lexemes[0].token == Some(L.Div))
    ensures EV.Evaluate(lexemes, atEnd) == Err(EV.Fail(lexemes[0].at, E.MustNotStartWith))
  {
    EV.RunSnoc(lexemes, 0);
    assert lexemes[..0] == [];
    EV.RunErrorSticks(lexemes, 1);
  }

  /** `*` or `/` after a non-operator token with no quantity active fails with `MustNotStartWith`. */
  lemma MulOrDivWithoutQuantity(st: EV.State, token: L.Token, at: EV.Location)
    requires (token == L.Mul || token == L.Div) && st.previous == EV.Other && st.active.None?
    ensures EV.ProcessToken(st, token, at) == Err(EV.Fail(at, E.MustNotStartWith))
  {
  }

  /**
    The same rule anywhere in the input: once the loop has reached a state with nothing active and
    no operator pending, a `*` or `/` ends the evaluation with `MustNotStartWith` at that token.
  */
  lemma OperatorWithoutQuantityFails(lexemes: seq<EV.Lexeme>, i: nat, atEnd: EV.Location)
    requires i < |lexemes| && EV.Run(lexemes[..i]).Ok?
    requires EV.Run(lexemes[..i]).value.previous == EV.Other && EV.Run(lexemes[..i]).value.active.None?
    requires lexemes[i].token == Some(L.Mul) || lexemes[i].token == Some(L.Div)
    ensures EV.Evaluate(lexemes, atEnd) == Err(EV.Fail(lexemes[i].at, E.MustNotStartWith))
  {
    EV.RunSnoc(lexemes, i);
    MulOrDivWithoutQuantity(EV.Run(lexemes[..i]).value, lexemes[i].token.value, lexemes[i].at);
    EV.RunErrorSticks(lexemes, i + 1);
  }

  /** A `)` while nothing is active ends the evaluation with `UnbalancedBrackets` at that bracket. */
  lemma CloseWithoutQuantityFails(lexemes: seq<EV.Lexeme>, i: nat, exponent: int, atEnd: EV.Location)
    requires i < |lexemes| && EV.Run(lexemes[..i]).Ok? && EV.Run(lexemes[..i]).value.active.None?
    requires lexemes[i].token == Some(L.RightBracket(exponent))
    ensures EV.Evaluate(lexemes, atEnd) == Err(EV.Fail(lexemes[i].at, E.UnbalancedBrackets))
  {
    EV.RunSnoc(lexemes, i);
    EV.RunErrorSticks(lexemes, i + 1);
  }

  /** Right after `(` nothing is active and no operator is pending. */
  lemma AfterOpeningBracket(lexemes: seq<EV.Lexeme>, i: nat)
    requires 0 < i <= |lexemes| && EV.Run(lexemes[..i]).Ok? && lexemes[i - 1].token == Some(L.LeftBracket)
    ensures EV.Run(lexemes[..i]).value.previous == EV.Other && EV.Run(lexemes[..i]).value.active.None?
  {
    EV.RunSnoc(lexemes, i - 1);
    assert lexemes[..i - 1 + 1] == lexemes[..i];
  }

  /** "()": an empty pair of brackets fails at its `)` with `UnbalancedBrackets`. */
  lemma EmptyBracketsFail(lexemes: seq<EV.Lexeme>, i: nat, exponent: int, atEnd: EV.Location)
    requires 0 < i < |lexemes| && EV.Run(lexemes[..i]).Ok?
    requires lexemes[i - 1].token == Some(L.LeftBracket) && lexemes[i].token == Some(L.RightBracket(exponent))
    ensures EV.Evaluate(lexemes, atEnd) == Err(EV.Fail(lexemes[i].at, E.UnbalancedBrackets))
  {
    AfterOpeningBracket(lexemes, i);
    CloseWithoutQuantityFails(lexemes, i, exponent, atEnd);
  }

  /** "(*3)" and "2 (/3)": `*` or `/` right after `(` fails with `MustNotStartWith`. */
  lemma OperatorAfterOpeningFails(lexemes: seq<EV.Lexeme>, i: nat, atEnd: EV.Location)
    requires 0 < i < |lexemes| && EV.Run(lexemes[..i]).Ok? && lexemes[i - 1].token == Some(L.LeftBracket)
    requires lexemes[i].token == Some(L.Mul) || lexemes[i].token == Some(L.Div)
    ensures EV.Evaluate(lexemes, atEnd) == Err(EV.Fail(lexemes[i].at, E.MustNotStartWith))
  {
    AfterOpeningBracket(lexemes, i);
    OperatorWithoutQuantityFails(lexemes, i, atEnd);
  }

  /** The operator a successful step leaves as the previous token. */
  lemma OperatorIsRemembered(st: EV.State, lexeme: EV.Lexeme)
    requires EV.Step(st, lexeme).Ok? && lexeme.token.Some?
    ensures lexeme.token.value.Mul? ==> EV.Step(st, lexeme).value.previous == EV.Mul
    ensures lexeme.token.value.Div? ==> EV.Step(st, lexeme).value.previous == EV.Div
    ensures lexeme.token.value.Add? ==> EV.Step(st, lexeme).value.previous == EV.Add
    ensures lexeme.token.value.Sub? ==> EV.Step(st, lexeme).value.previous == EV.Sub
  {
  }

  /** `*` or `/` right after any operator fails with `TwoOperatorsWithoutNumber` at the second one. */
  lemma MulOrDivAfterOperatorFails(lexemes: seq<EV.Lexeme>, i: nat, atEnd: EV.Location)
    requires 0 < i < |lexemes| && EV.Run(lexemes[..i]).Ok?
    requires lexemes[i - 1].token in {Some(L.Mul), Some(L.Div), Some(L.Add), Some(L.Sub)}
    requires lexemes[i].token == Some(L.Mul) || lexemes[i].token == Some(L.Div)
    ensures EV.Evaluate(lexemes, atEnd) == Err(EV.Fail(lexemes[i].at, E.TwoOperatorsWithoutNumber))
  {
    RunPrefixOk(lexemes[..i], i - 1);
    assert lexemes[..i][..i - 1] == lexemes[..i - 1];
    EV.RunSnoc(lexemes, i - 1);
    OperatorIsRemembered(EV.Run(lexemes[..i - 1]).value, lexemes[i - 1]);
    EV.RunSnoc(lexemes, i);
    EV.RunErrorSticks(lexemes, i + 1);
  }

  /** `+` or `-` right after `+` or `-` fails with `TwoOperatorsWithoutNumber` at the second one. */
  lemma SignAfterSignFails(lexemes: seq<EV.Lexeme>, i: nat, atEnd: EV.Location)
    requires 0 < i < |lexemes| && EV.Run(lexemes[..i]).Ok?
    requires lexemes[i - 1].token == Some(L.Add) || lexemes[i - 1].token == Some(L.Sub)
    requires lexemes[i].token == Some(L.Add) || lexemes[i].token == Some(L.Sub)
    ensures EV.Evaluate(lexemes, atEnd) == Err(EV.Fail(lexemes[i].at, E.TwoOperatorsWithoutNumber))
  {
    RunPrefixOk(lexemes[..i], i - 1);
    assert lexemes[..i][..i - 1] == lexemes[..i - 1];
    EV.RunSnoc(lexemes, i - 1);
    OperatorIsRemembered(EV.Run(lexemes[..i - 1]).value, lexemes[i - 1]);
    EV.RunSnoc(lexemes, i);
    EV.RunErrorSticks(lexemes, i + 1);
  }

  /** Within the loop, `UnbalancedBrackets` is only ever reported at a closing bracket. */
  lemma {:induction false} LoopUnbalancedOnlyAtClose(lexemes: seq<EV.Lexeme>)
    ensures EV.Run(lexemes).Err? && EV.Run(lexemes).error.reason == E.UnbalancedBrackets ==>
              exists i :: 0 <= i < |lexemes| && lexemes[i].token.Some? && lexemes[i].token.value.RightBracket?
                          && EV.Run(lexemes).error.span == lexemes[i].at.span
    decreases |lexemes|
  {
    if lexemes != [] && EV.Run(lexemes).Err? && EV.Run(lexemes).error.reason == E.UnbalancedBrackets {
      var n := |lexemes| - 1;
      EV.RunSnoc(lexemes, n);
      assert lexemes[..n + 1] == lexemes;
      if EV.Run(lexemes[..n]).Err? {
        LoopUnbalancedOnlyAtClose(lexemes[..n]);
        var i :| 0 <= i < n && lexemes[..n][i].token.Some? && lexemes[..n][i].token.value.RightBracket?
                 && EV.Run(lexemes[..n]).error.span == lexemes[..n][i].at.span;
        assert lexemes[i] == lexemes[..n][i];
      } else {
        RunKeepsInv(lexemes[..n]);
        StepKeepsInv(EV.Run(lexemes[..n]).value, lexemes[n]);
        StepErrorLocated(EV.Run(lexemes[..n]).value, lexemes[n]);
      }
    }
  }

  // ----- Unit symbols -----

  /** The unit each symbol names, by the crate's own unit constructors. */
  function NamedUnit(kind: L.SymbolKind): U.Unit
  {
    match kind
    case Second => UC.Time()
    case Meter => UC.Length()
    case Gram => UC.Mass()
    case Ton => UC.Mass()
    case Ampere => UC.ElectricalCurrent()
    case Kelvin => UC.Temperature()
    case Celsius => UC.Temperature()
    case Mol => UC.AmountOfSubstance()
    case Candela => UC.LuminousIntensity()
    case Newton => UC.Force()
    case Watt => UC.Power()
    case Joule => UC.Energy()
    case NewtonMeter => UC.Torque()
    case Volt => UC.ElectricalVoltage()
    case Weber => UC.MagneticFlux()
    case Tesla => UC.MagneticFluxDensity()
    case Henry => UC.Inductance()
    case Hertz => UC.Frequency()
    case RotationsPerMinute => UC.AngularVelocity()
    case Siemens => UC.ElectricalConductance()
    case Ohm => UC.ElectricalResistance()
    case Omega => UC.ElectricalResistance()
    case Degree => U.Dimensionless
    case Radians => U.Dimensionless
    case Pi => U.Dimensionless
  }

  /** Every unit token adds exactly the exponents of the unit it names. */
  lemma SymbolAddsNamedUnit(q: Q.DynQuantity, kind: L.SymbolKind, e: L.Exponents)
    ensures EV.ApplySymbol(q, kind, e).unit == U.Mul(q.unit, U.Power(NamedUnit(kind), e.unit))
  {
    assert EV.ApplySymbol(q, kind, e).unit == U.Mul(q.unit, U.Power(EV.SymbolVector(kind), e.unit));
    SymbolVectorIsNamed(kind);
  }

  lemma SymbolVectorIsNamed(kind: L.SymbolKind)
    ensures EV.SymbolVector(kind) == NamedUnit(kind)
  {
    SymbolTableAgrees();
    match kind {
      case Second =>
      case Meter =>
      case Gram =>
      case Ton =>
      case Ampere =>
      case Kelvin =>
      case Celsius =>
      case Mol =>
      case Candela =>
      case Newton =>
      case Watt =>
      case Joule =>
      case NewtonMeter =>
      case Volt =>
      case Weber =>
      case Tesla =>
      case Henry =>
      case Hertz =>
      case RotationsPerMinute =>
      case Siemens =>
      case Ohm =>
      case Omega =>
      case Degree =>
      case Radians =>
      case Pi =>
    }
  }

  /** Symbol by symbol, the evaluator's unit table and the constructors agree. */
  lemma SymbolTableAgrees()
    ensures EV.SymbolVector(L.Second) == UC.Time()
    ensures EV.SymbolVector(L.Meter) == UC.Length()
    ensures EV.SymbolVector(L.Gram) == UC.Mass()
    ensures EV.SymbolVector(L.Ton) == UC.Mass()
    ensures EV.SymbolVector(L.Ampere) == UC.ElectricalCurrent()
    ensures EV.SymbolVector(L.Kelvin) == UC.Temperature()
    ensures EV.SymbolVector(L.Celsius) == UC.Temperature()
    ensures EV.SymbolVector(L.Mol) == UC.AmountOfSubstance()
    ensures EV.SymbolVector(L.Candela) == UC.LuminousIntensity()
    ensures EV.SymbolVector(L.Newton) == UC.Force()
    ensures EV.SymbolVector(L.Watt) == UC.Power()
    ensures EV.SymbolVector(L.Joule) == UC.Energy()
    ensures EV.SymbolVector(L.NewtonMeter) == UC.Torque()
    ensures EV.SymbolVector(L.Volt) == UC.ElectricalVoltage()
    ensures EV.SymbolVector(L.Weber) == UC.MagneticFlux()
    ensures EV.SymbolVector(L.Tesla) == UC.MagneticFluxDensity()
    ensures EV.SymbolVector(L.Henry) == UC.Inductance()
    ensures EV.SymbolVector(L.Hertz) == UC.Frequency()
    ensures EV.SymbolVector(L.RotationsPerMinute) == UC.AngularVelocity()
    ensures EV.SymbolVector(L.Siemens) == UC.ElectricalConductance()
    ensures EV.SymbolVector(L.Ohm) == UC.ElectricalResistance()
    ensures EV.SymbolVector(L.Omega) == UC.ElectricalResistance()
    ensures EV.SymbolVector(L.Degree) == U.Dimensionless
    ensures EV.SymbolVector(L.Radians) == U.Dimensionless
    ensures EV.SymbolVector(L.Pi) == U.Dimensionless
  {
  }

  /** The kilogram is the base unit: a "kg" token multiplies by exactly 1 kg. */
  lemma KilogramIsBase(q: Q.DynQuantity)
    ensures EV.ApplySymbol(q, L.Gram, L.Exponents(1, 3)) == Q.Mul(q, Q.DynQuantity(C.One, UC.Mass()))
  {
    KilogramFactor();
    U.GroupLaws(q.unit, UC.Mass(), U.Dimensionless);
    assert U.Power(UC.Mass(), 1) == UC.Mass();
  }

  lemma KilogramFactor()
    ensures EV.SymbolFactor(L.Gram, L.Exponents(1, 3)) == 1.0
  {
    assert L.Exponent(L.Exponents(1, 3 + EV.PrefixShift(L.Gram))) == 0;
    assert EV.Pow10(0) == 1.0;
    assert EV.SymbolWeight(L.Gram, 1) == 1.0;
  }

  /** A ton is a megagram: the same prefix on "t" and on "g" six powers of ten higher agree. */
  lemma TonIsMegagram(q: Q.DynQuantity, e: L.Exponents)
    ensures EV.ApplySymbol(q, L.Ton, e) == EV.ApplySymbol(q, L.Gram, L.Exponents(e.unit, e.prefix + 6))
  {
  }

  /** "Ω" and "Ohm" are the same unit. */
  lemma OmegaIsOhm(q: Q.DynQuantity, e: L.Exponents)
    ensures EV.ApplySymbol(q, L.Omega, e) == EV.ApplySymbol(q, L.Ohm, e)
  {
  }
}
