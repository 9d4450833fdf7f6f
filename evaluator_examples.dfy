/**
  Texts from the crate's documentation and tests, evaluated token by token. Each lexeme
  sequence below is what the lexer produces for the quoted text; the location the end of input
  reports is left free.
*/
module EvaluatorExamples {
  import opened Wrappers
  import U = Units
  import C = ComplexNumbers
  import E = Errors
  import Q = Quantities
  import L = Lexer
  import EV = Evaluator
  import P = EvaluatorProperties

  /** The lexeme for token `t`, read from `text` starting at offset `start`. */
  function Tok(t: L.Token, text: string, start: nat): EV.Lexeme
  {
    EV.Lexeme(Some(t), EV.Location(text, E.Span(start, start + |text|)))
  }

  /** The lexeme for token `t` at location `at`. */
  function Lx(t: L.Token, at: EV.Location): EV.Lexeme { EV.Lexeme(Some(t), at) }

  function Num(x: real): Q.DynQuantity { EV.Number(x) }

  /** A run is the chain of its steps. */
  lemma {:induction false} RunChain(st: EV.State, lexemes: seq<EV.Lexeme>, states: seq<EV.State>)
    requires |states| == |lexemes| + 1 && states[0] == st
    requires forall i :: 0 <= i < |lexemes| ==> EV.Step(states[i], lexemes[i]) == Ok(states[i + 1])
    ensures EV.RunFrom(st, lexemes) == Ok(states[|lexemes|])
    decreases |lexemes|
  {
    if lexemes != [] {
      assert EV.Step(states[0], lexemes[0]) == Ok(states[1]);
      forall i | 0 <= i < |lexemes| - 1
        ensures EV.Step(states[1..][i], lexemes[1..][i]) == Ok(states[1..][i + 1])
      {
        assert EV.Step(states[i + 1], lexemes[i + 1]) == Ok(states[i + 2]);
      }
      RunChain(states[1], lexemes[1..], states[1..]);
    }
  }

  /** One step of a run, taken at position `i`. */
  lemma RunStep(st: EV.State, lexemes: seq<EV.Lexeme>, i: nat, next: EV.State)
    requires i < |lexemes| && EV.Step(st, lexemes[i]) == Ok(next)
    ensures EV.RunFrom(st, lexemes[i..]) == EV.RunFrom(next, lexemes[i + 1..])
  {
    assert lexemes[i..][0] == lexemes[i];
    assert lexemes[i..][1..] == lexemes[i + 1..];
  }

  /** Raising to the first power changes nothing. */
  lemma PowiOne(q: Q.DynQuantity)
    ensures Q.Powi(q, 1) == q
  {
    assert C.NatPow(q.value, 0) == C.One;
    assert C.NatPow(q.value, 1) == C.Mul(C.One, q.value);
  }

  /** Multiplying by a dimensionless 1 changes nothing. */
  lemma OneTimes(q: Q.DynQuantity)
    ensures Q.Mul(Num(1.0), q) == q
  {
  }

  /** A closing bracket whose content is directly preceded by its `MulOp`. */
  lemma StepClose(q: Q.DynQuantity, x: Q.DynQuantity, before: seq<EV.Operation>, level: nat, e: int, at: EV.Location)
    requires level > 0
    ensures EV.Step(EV.State(Some(q), before + [EV.MulOp(x)], level, EV.Other, false), Lx(L.RightBracket(e), at))
            == Ok(EV.State(Some(Q.Mul(x, Q.Powi(q, e))), before, level - 1, EV.Other, false))
  {
    assert (before + [EV.MulOp(x)])[..|before|] == before;
  }

  /** "a +": a trailing `+` adds the 1 it leaves active, so the text means a + 1. */
  lemma TrailingPlusAddsOne(a: real, at: EV.Location, atEnd: EV.Location)
    ensures EV.Evaluate([Lx(L.Real(a), at), Lx(L.Add, at)], atEnd) == Ok(Num(1.0 + a))
  {
    var ls := [Lx(L.Real(a), at), Lx(L.Add, at)];
    var s1 := EV.State(Some(Num(a)), [], 0, EV.Other, false);
    var s2 := EV.State(Some(Num(1.0)), [EV.AddOp(Num(a))], 0, EV.Add, false);
    assert EV.Step(EV.Initial, ls[0]) == Ok(s1);
    assert [] + [EV.AddOp(Num(a))] == [EV.AddOp(Num(a))];
    assert EV.Step(s1, ls[1]) == Ok(s2);
    RunChain(EV.Initial, ls, [EV.Initial, s1, s2]);
    assert EV.Fold(Num(1.0), [EV.AddOp(Num(a))], atEnd) == Ok(Num(1.0 + a));
  }

  /** "a /": a trailing `/` that never gets its divisor leaves the dividend. */
  lemma TrailingSlashIsIgnored(a: real, at: EV.Location, atEnd: EV.Location)
    ensures EV.Evaluate([Lx(L.Real(a), at), Lx(L.Div, at)], atEnd) == Ok(Num(a))
  {
    var ls := [Lx(L.Real(a), at), Lx(L.Div, at)];
    var s1 := EV.State(Some(Num(a)), [], 0, EV.Other, false);
    var s2 := EV.State(None, [EV.DivOp(Num(a))], 0, EV.Div, true);
    assert EV.Step(EV.Initial, ls[0]) == Ok(s1);
    assert [] + [EV.DivOp(Num(a))] == [EV.DivOp(Num(a))];
    assert EV.Step(s1, ls[1]) == Ok(s2);
    RunChain(EV.Initial, ls, [EV.Initial, s1, s2]);
  }

  /** "4 / 2 / 2" evaluates from left to right to 1. */
  lemma DivisionsFromTheLeft(atEnd: EV.Location)
    ensures EV.Evaluate([Tok(L.Real(4.0), "4", 0), Tok(L.Div, "/", 2), Tok(L.Real(2.0), "2", 4),
                         Tok(L.Div, "/", 6), Tok(L.Real(2.0), "2", 8)], atEnd) == Ok(Num(1.0))
  {
    var ls := [Tok(L.Real(4.0), "4", 0), Tok(L.Div, "/", 2), Tok(L.Real(2.0), "2", 4),
               Tok(L.Div, "/", 6), Tok(L.Real(2.0), "2", 8)];
    var s1 := EV.State(Some(Num(4.0)), [], 0, EV.Other, false);
    var s2 := EV.State(None, [EV.DivOp(Num(4.0))], 0, EV.Div, true);
    var s3 := EV.State(Some(Num(2.0)), [], 0, EV.Other, false);
    var s4 := EV.State(None, [EV.DivOp(Num(2.0))], 0, EV.Div, true);
    var s5 := EV.State(Some(Num(1.0)), [], 0, EV.Other, false);
    assert EV.Step(EV.Initial, ls[0]) == Ok(s1);
    assert [] + [EV.DivOp(Num(4.0))] == [EV.DivOp(Num(4.0))];
    assert EV.Step(s1, ls[1]) == Ok(s2);
    assert C.Div(C.FromReal(4.0), C.FromReal(2.0)) == C.FromReal(2.0);
    assert EV.Step(s2, ls[2]) == Ok(s3);
    assert [] + [EV.DivOp(Num(2.0))] == [EV.DivOp(Num(2.0))];
    assert EV.Step(s3, ls[3]) == Ok(s4);
    assert C.Div(C.FromReal(2.0), C.FromReal(2.0)) == C.FromReal(1.0);
    assert EV.Step(s4, ls[4]) == Ok(s5);
    RunChain(EV.Initial, ls, [EV.Initial, s1, s2, s3, s4, s5]);
  }

  /** "-4 / -4": a sign right after `/` belongs to the divisor, giving 1. */
  lemma NegativeOverNegative(atEnd: EV.Location)
    ensures EV.Evaluate([Tok(L.Sub, "-", 0), Tok(L.Real(4.0), "4", 1), Tok(L.Div, "/", 3),
                         Tok(L.Sub, "-", 5), Tok(L.Real(4.0), "4", 6)], atEnd) == Ok(Num(1.0))
  {
    var ls := [Tok(L.Sub, "-", 0), Tok(L.Real(4.0), "4", 1), Tok(L.Div, "/", 3),
               Tok(L.Sub, "-", 5), Tok(L.Real(4.0), "4", 6)];
    var s1 := EV.State(Some(Num(-1.0)), [], 0, EV.Sub, false);
    var s2 := EV.State(Some(Num(-4.0)), [], 0, EV.Other, false);
    var s3 := EV.State(None, [EV.DivOp(Num(-4.0))], 0, EV.Div, true);
    var s4 := EV.State(Some(Num(-1.0)), [EV.DivOp(Num(-4.0))], 0, EV.Sub, true);
    var s5 := EV.State(Some(Num(1.0)), [], 0, EV.Other, false);
    assert EV.Step(EV.Initial, ls[0]) == Ok(s1);
    assert C.Mul(C.FromReal(-1.0), C.Complex(4.0, 0.0)) == C.FromReal(-4.0);
    assert EV.Step(s1, ls[1]) == Ok(s2);
    assert [] + [EV.DivOp(Num(-4.0))] == [EV.DivOp(Num(-4.0))];
    assert EV.Step(s2, ls[2]) == Ok(s3);
    assert EV.Step(s3, ls[3]) == Ok(s4);
    assert C.Div(C.FromReal(-4.0), C.FromReal(-4.0)) == C.FromReal(1.0);
    assert EV.Step(s4, ls[4]) == Ok(s5);
    RunChain(EV.Initial, ls, [EV.Initial, s1, s2, s3, s4, s5]);
  }

  /** The product of -1 and a number read after it. */
  lemma MinusOneTimes(b: real)
    ensures C.Mul(C.FromReal(-1.0), C.Complex(b, 0.0)) == C.FromReal(-b)
  {
  }

  /**
    "a * -b": the `-` after `*` pushes a as a summand, so the text evaluates to a + (-b) and
    not to the product a * (-b).
  */
  lemma SignAfterStarAdds(a: real, b: real, at: EV.Location, atEnd: EV.Location)
    ensures EV.Evaluate([Lx(L.Real(a), at), Lx(L.Mul, at), Lx(L.Sub, at), Lx(L.Real(b), at)], atEnd)
            == Ok(Num(-b + a))
  {
    var ls := [Lx(L.Real(a), at), Lx(L.Mul, at), Lx(L.Sub, at), Lx(L.Real(b), at)];
    var s1 := EV.State(Some(Num(a)), [], 0, EV.Other, false);
    var s2 := EV.State(Some(Num(a)), [], 0, EV.Mul, false);
    var s3 := EV.State(Some(Num(-1.0)), [EV.AddOp(Num(a))], 0, EV.Sub, false);
    var s4 := EV.State(Some(Num(-b)), [EV.AddOp(Num(a))], 0, EV.Other, false);
    assert EV.Step(EV.Initial, ls[0]) == Ok(s1);
    assert EV.Step(s1, ls[1]) == Ok(s2);
    assert [] + [EV.AddOp(Num(a))] == [EV.AddOp(Num(a))];
    assert EV.Step(s2, ls[2]) == Ok(s3);
    MinusOneTimes(b);
    assert EV.Step(s3, ls[3]) == Ok(s4);
    RunChain(EV.Initial, ls, [EV.Initial, s1, s2, s3, s4]);
    assert EV.Fold(Num(-b), [EV.AddOp(Num(a))], atEnd) == Ok(Num(-b + a));
  }

  /** The states "a / -(b) + c" passes through. */
  function SlashSignStates(a: real, b: real, c: real): seq<EV.State>
  {
    var d := EV.DivOp(Num(a));
    var m := EV.MulOp(Num(-1.0));
    [EV.Initial,
     EV.State(Some(Num(a)), [], 0, EV.Other, false),
     EV.State(None, [d], 0, EV.Div, true),
     EV.State(Some(Num(-1.0)), [d], 0, EV.Sub, true),
     EV.State(None, [d, m], 1, EV.Other, false),
     EV.State(Some(Num(b)), [d, m], 1, EV.Other, false),
     EV.State(Some(Num(-b)), [d], 0, EV.Other, false),
     EV.State(Some(Num(1.0)), [d, EV.AddOp(Num(-b))], 0, EV.Add, false),
     EV.State(Some(Num(c)), [d, EV.AddOp(Num(-b))], 0, EV.Other, false)]
  }

  function SlashSignText(a: real, b: real, c: real, at: EV.Location): seq<EV.Lexeme>
  {
    [Lx(L.Real(a), at), Lx(L.Div, at), Lx(L.Sub, at), Lx(L.LeftBracket, at), Lx(L.Real(b), at),
     Lx(L.RightBracket(1), at), Lx(L.Add, at), Lx(L.Real(c), at)]
  }

  lemma SlashSignFirstSteps(a: real, b: real, c: real, at: EV.Location, i: nat)
    requires i < 4
    ensures EV.Step(SlashSignStates(a, b, c)[i], SlashSignText(a, b, c, at)[i]) == Ok(SlashSignStates(a, b, c)[i + 1])
  {
    var d := EV.DivOp(Num(a));
    assert [] + [d] == [d];
    assert [d] + [EV.MulOp(Num(-1.0))] == [d, EV.MulOp(Num(-1.0))];
  }

  lemma SlashSignLastSteps(a: real, b: real, c: real, at: EV.Location, i: nat)
    requires 4 <= i < 8
    ensures EV.Step(SlashSignStates(a, b, c)[i], SlashSignText(a, b, c, at)[i]) == Ok(SlashSignStates(a, b, c)[i + 1])
  {
    var d := EV.DivOp(Num(a));
    if i == 5 {
      StepClose(Num(b), Num(-1.0), [d], 1, 1, at);
      assert [d] + [EV.MulOp(Num(-1.0))] == [d, EV.MulOp(Num(-1.0))];
      PowiOne(Num(b));
      MinusOneTimes(b);
    } else {
      assert [d] + [EV.AddOp(Num(-b))] == [d, EV.AddOp(Num(-b))];
      assert C.Mul(C.FromReal(1.0), C.Complex(c, 0.0)) == C.FromReal(c);
    }
  }

  /**
    "(a / -)": the `)` pops the `DivOp` that `/` pushed, not the bracket's own `MulOp`, which stays
    on the stack at level 0; the fold at the end multiplies it in, and the text evaluates to -a.
  */
  lemma SlashSignCloses(a: real, ls: seq<EV.Lexeme>, atEnd: EV.Location)
    requires |ls| == 5 && ls[0].token == Some(L.LeftBracket) && ls[1].token == Some(L.Real(a))
    requires ls[2].token == Some(L.Div) && ls[3].token == Some(L.Sub) && ls[4] == Lx(L.RightBracket(1), ls[4].at)
    ensures EV.Evaluate(ls, atEnd) == Ok(Num(-a))
  {
    SlashSignEvaluates(a, ls, atEnd, Num(-1.0));
  }

  lemma SlashSignEvaluates(a: real, ls: seq<EV.Lexeme>, atEnd: EV.Location, sign: Q.DynQuantity)
    requires sign == Num(-1.0)
    requires |ls| == 5 && ls[0].token == Some(L.LeftBracket) && ls[1].token == Some(L.Real(a))
    requires ls[2].token == Some(L.Div) && ls[3].token == Some(L.Sub) && ls[4] == Lx(L.RightBracket(1), ls[4].at)
    ensures EV.Evaluate(ls, atEnd) == Ok(Num(-a))
  {
    SlashSignClosesRun(a, ls, sign);
    FinishWithOpener(Q.Div(Num(a), Q.Powi(sign, 1)), atEnd);
    NumberOverSign(a, sign);
  }

  lemma SlashSignClosesRun(a: real, ls: seq<EV.Lexeme>, sign: Q.DynQuantity)
    requires sign == Num(-1.0)
    requires |ls| == 5 && ls[0].token == Some(L.LeftBracket) && ls[1].token == Some(L.Real(a))
    requires ls[2].token == Some(L.Div) && ls[3].token == Some(L.Sub) && ls[4] == Lx(L.RightBracket(1), ls[4].at)
    ensures EV.Run(ls) == Ok(EV.State(Some(Q.Div(Num(a), Q.Powi(sign, 1))), [EV.MulOp(Num(1.0))], 0, EV.Other, false))
  {
    var st := EV.State(Some(sign), [EV.MulOp(Num(1.0)), EV.DivOp(Num(a))], 1, EV.Sub, true);
    SlashSignBracketRun(a, ls[..4]);
    CloseOnDivisor(sign, Num(1.0), Num(a), 1, 1, ls[4].at);
    LastStep(ls, st, EV.State(Some(Q.Div(Num(a), Q.Powi(sign, 1))), [EV.MulOp(Num(1.0))], 0, EV.Other, false));
  }

  /** The end of the input with only the bracket's opener 1 left on the stack. */
  lemma FinishWithOpener(v: Q.DynQuantity, atEnd: EV.Location)
    ensures EV.Finish(EV.State(Some(v), [EV.MulOp(Num(1.0))], 0, EV.Other, false), atEnd) == Ok(v)
  {
    assert [EV.MulOp(Num(1.0))][1..] == [];
    OneTimes(v);
  }

  /** "(a / -" leaves the sign -1 active above the `DivOp` of a and the bracket's opener. */
  lemma SlashSignBracketRun(a: real, ls: seq<EV.Lexeme>)
    requires |ls| == 4 && ls[0].token == Some(L.LeftBracket) && ls[1].token == Some(L.Real(a))
    requires ls[2].token == Some(L.Div) && ls[3].token == Some(L.Sub)
    ensures EV.Run(ls) == Ok(EV.State(Some(Num(-1.0)), [EV.MulOp(Num(1.0)), EV.DivOp(Num(a))], 1, EV.Sub, true))
  {
    var m := EV.MulOp(Num(1.0));
    var d := EV.DivOp(Num(a));
    var s1 := EV.State(None, [m], 1, EV.Other, false);
    var s2 := EV.State(Some(Num(a)), [m], 1, EV.Other, false);
    var s3 := EV.State(None, [m, d], 1, EV.Div, true);
    var s4 := EV.State(Some(Num(-1.0)), [m, d], 1, EV.Sub, true);
    assert [] + [m] == [m];
    assert EV.Step(EV.Initial, ls[0]) == Ok(s1);
    assert EV.Step(s1, ls[1]) == Ok(s2);
    assert [m] + [d] == [m, d];
    assert EV.Step(s2, ls[2]) == Ok(s3);
    assert EV.Step(s3, ls[3]) == Ok(s4);
    RunOfThree(ls[..3], s1, s2, s3);
    EV.RunSnoc(ls, 3);
    assert ls[..4] == ls;
  }

  /** A `)` with a `DivOp` on top takes the bracket's content as that divisor. */
  lemma CloseOnDivisor(q: Q.DynQuantity, o: Q.DynQuantity, x: Q.DynQuantity, level: nat, e: int, at: EV.Location)
    requires level > 0
    ensures EV.Step(EV.State(Some(q), [EV.MulOp(o), EV.DivOp(x)], level, EV.Sub, true), Lx(L.RightBracket(e), at))
            == Ok(EV.State(Some(Q.Div(x, Q.Powi(q, e))), [EV.MulOp(o)], level - 1, EV.Other, false))
  {
    assert [EV.MulOp(o), EV.DivOp(x)][..1] == [EV.MulOp(o)];
  }

  lemma NumberOverSign(a: real, sign: Q.DynQuantity)
    requires sign == Num(-1.0)
    ensures Q.Div(Num(a), Q.Powi(sign, 1)) == Num(-a)
  {
    PowiOne(sign);
    RealQuotient(a, -1.0);
    assert a / -1.0 == -a;
  }

  /** Dividing two real numbers. */
  lemma RealQuotient(a: real, c: real)
    requires c != 0.0
    ensures C.Div(C.FromReal(a), C.FromReal(c)) == C.FromReal(a / c)
  {
    assert a * c + 0.0 * 0.0 == a * c;
    assert c * c + 0.0 * 0.0 == c * c;
    C.CancelFactor(a, 1.0, c);
  }

  /**
    "a / -(b) + c": the sign between `/` and the bracket ends the pending division, so the
    bracket multiplies -1, a is divided by the last number c instead of by -b, and the text
    evaluates to a / c - b.
  */
  lemma SignedBracketAfterSlash(a: real, b: real, c: real, at: EV.Location, atEnd: EV.Location)
    requires c != 0.0
    ensures EV.Evaluate(SlashSignText(a, b, c, at), atEnd) == Ok(Num(a / c + -b))
  {
    var ls := SlashSignText(a, b, c, at);
    var states := SlashSignStates(a, b, c);
    forall i | 0 <= i < 8
      ensures EV.Step(states[i], ls[i]) == Ok(states[i + 1])
    {
      if i < 4 {
        SlashSignFirstSteps(a, b, c, at, i);
      } else {
        SlashSignLastSteps(a, b, c, at, i);
      }
    }
    RunChain(EV.Initial, ls, states);
    SlashSignFinish(a, b, c, atEnd);
  }

  /** The end of "a / -(b) + c": the stack folds to a / c - b. */
  lemma SlashSignFinish(a: real, b: real, c: real, atEnd: EV.Location)
    requires c != 0.0
    ensures EV.Finish(SlashSignStates(a, b, c)[8], atEnd) == Ok(Num(a / c + -b))
  {
    var d := EV.DivOp(Num(a));
    var rest := [EV.AddOp(Num(-b))];
    RealQuotient(a, c);
    assert Q.Div(Num(a), Num(c)) == Num(a / c);
    assert [d, EV.AddOp(Num(-b))][1..] == rest;
    assert rest[1..] == [];
    assert EV.Fold(Num(a / c), rest, atEnd) == Ok(Num(a / c + -b));
    assert EV.Fold(Num(c), [d, EV.AddOp(Num(-b))], atEnd) == EV.Fold(Num(a / c), rest, atEnd);
  }

  /** "a)": a closing bracket with no opening one fails, and the error points at it. */
  lemma ClosingWithoutOpening(a: real, at0: EV.Location, at1: EV.Location, atEnd: EV.Location)
    ensures EV.Evaluate([Lx(L.Real(a), at0), Lx(L.RightBracket(1), at1)], atEnd) == Err(EV.Fail(at1, E.UnbalancedBrackets))
  {
    var ls := [Lx(L.Real(a), at0), Lx(L.RightBracket(1), at1)];
    var s1 := EV.State(Some(Num(a)), [], 0, EV.Other, false);
    assert EV.Step(EV.Initial, ls[..1][0]) == Ok(s1);
    RunChain(EV.Initial, ls[..1], [EV.Initial, s1]);
    assert ls[..1][..0] == [];
    P.ClosingTooManyFails(ls, 1, 1, atEnd);
  }

  /** "((a)": the input ends with one of its two brackets still open, and the error points at the end. */
  lemma BracketsLeftOpen(a: real, at: EV.Location, atEnd: EV.Location)
    ensures EV.Evaluate([Lx(L.LeftBracket, at), Lx(L.LeftBracket, at), Lx(L.Real(a), at), Lx(L.RightBracket(1), at)], atEnd)
            == Err(EV.Fail(atEnd, E.UnbalancedBrackets))
  {
    var ls := [Lx(L.LeftBracket, at), Lx(L.LeftBracket, at), Lx(L.Real(a), at), Lx(L.RightBracket(1), at)];
    OpenTwiceRun(a, ls);
    OpenTwiceCounts(ls);
    P.UnclosedBracketFails(ls, atEnd);
  }

  lemma OpenTwiceRun(a: real, ls: seq<EV.Lexeme>)
    requires |ls| == 4 && ls[0].token == Some(L.LeftBracket) && ls[1].token == Some(L.LeftBracket)
    requires ls[2].token == Some(L.Real(a)) && ls[3].token.Some? && ls[3].token.value.RightBracket?
    ensures EV.Run(ls).Ok?
  {
    var m := EV.MulOp(Num(1.0));
    var st := EV.State(Some(Num(a)), [m] + [m], 2, EV.Other, false);
    OpenTwicePrefix(a, ls[..3]);
    ClosingStepOk(Num(a), [m], Num(1.0), 2, ls[3]);
    LastStepOk(ls, st);
  }

  /** A successful last step after a successful prefix. */
  lemma LastStepOk(ls: seq<EV.Lexeme>, st: EV.State)
    requires |ls| > 0 && EV.Run(ls[..|ls| - 1]) == Ok(st) && EV.Step(st, ls[|ls| - 1]).Ok?
    ensures EV.Run(ls).Ok?
  {
    LastStep(ls, st, EV.Step(st, ls[|ls| - 1]).value);
  }

  /** The run's last step. */
  lemma LastStep(ls: seq<EV.Lexeme>, st: EV.State, next: EV.State)
    requires |ls| > 0 && EV.Run(ls[..|ls| - 1]) == Ok(st) && EV.Step(st, ls[|ls| - 1]) == Ok(next)
    ensures EV.Run(ls) == Ok(next)
  {
    EV.RunSnoc(ls, |ls| - 1);
    assert ls[..|ls|] == ls;
  }

  /** A `)` whose opener is on top of the stack succeeds. */
  lemma ClosingStepOk(q: Q.DynQuantity, before: seq<EV.Operation>, x: Q.DynQuantity, level: nat, lx: EV.Lexeme)
    requires level > 0 && lx.token.Some? && lx.token.value.RightBracket?
    ensures EV.Step(EV.State(Some(q), before + [EV.MulOp(x)], level, EV.Other, false), lx).Ok?
  {
    StepClose(q, x, before, level, lx.token.value.exponent, lx.at);
    assert lx == Lx(lx.token.value, lx.at);
  }

  lemma OpenTwicePrefix(a: real, ls: seq<EV.Lexeme>)
    requires |ls| == 3 && ls[0].token == Some(L.LeftBracket) && ls[1].token == Some(L.LeftBracket)
    requires ls[2].token == Some(L.Real(a))
    ensures EV.Run(ls) == Ok(EV.State(Some(Num(a)), [EV.MulOp(Num(1.0))] + [EV.MulOp(Num(1.0))], 2, EV.Other, false))
  {
    var m := EV.MulOp(Num(1.0));
    var s1 := EV.State(None, [m], 1, EV.Other, false);
    var s2 := EV.State(None, [m, m], 2, EV.Other, false);
    var s3 := EV.State(Some(Num(a)), [m, m], 2, EV.Other, false);
    assert [] + [m] == [m];
    assert EV.Step(EV.Initial, ls[0]) == Ok(s1);
    assert [m] + [m] == [m, m];
    assert EV.Step(s1, ls[1]) == Ok(s2);
    assert EV.Step(s2, ls[2]) == Ok(s3);
    RunOfThree(ls, s1, s2, s3);
  }

  lemma OpenTwiceCounts(ls: seq<EV.Lexeme>)
    requires |ls| == 4 && ls[0].token == Some(L.LeftBracket) && ls[1].token == Some(L.LeftBracket)
    requires ls[2].token.Some? && ls[2].token.value.Real? && ls[3].token == Some(L.RightBracket(1))
    ensures P.Opens(ls) != P.Closes(ls)
  {
    assert ls[..2][..1][..0] == [];
    assert ls[..2][..1] == ls[..1] && ls[..3][..2] == ls[..2] && ls[..4][..3] == ls[..3] && ls[..4] == ls;
    assert P.Opens(ls[..1]) == 1 && P.Closes(ls[..1]) == 0;
    assert P.Opens(ls[..2]) == 2 && P.Closes(ls[..2]) == 0;
    assert P.Opens(ls[..3]) == 2 && P.Closes(ls[..3]) == 0;
    assert P.Opens(ls) == 2 && P.Closes(ls) == 1;
  }

  /** "()": the closing bracket finds nothing active and fails at once. */
  lemma EmptyBrackets(at0: EV.Location, at1: EV.Location, atEnd: EV.Location)
    ensures EV.Evaluate([Lx(L.LeftBracket, at0), Lx(L.RightBracket(1), at1)], atEnd) == Err(EV.Fail(at1, E.UnbalancedBrackets))
  {
    var ls := [Lx(L.LeftBracket, at0), Lx(L.RightBracket(1), at1)];
    OpeningRun(ls);
    P.EmptyBracketsFail(ls, 1, 1, atEnd);
  }

  /** A run over a leading `(` succeeds. */
  lemma OpeningRun(ls: seq<EV.Lexeme>)
    requires |ls| > 0 && ls[0].token == Some(L.LeftBracket)
    ensures EV.Run(ls[..1]).Ok?
  {
    var s1 := EV.State(None, [EV.MulOp(Num(1.0))], 1, EV.Other, false);
    assert [] + [EV.MulOp(Num(1.0))] == [EV.MulOp(Num(1.0))];
    assert EV.Step(EV.Initial, ls[..1][0]) == Ok(s1);
    RunChain(EV.Initial, ls[..1], [EV.Initial, s1]);
  }

  /** "(*a)": a `*` first in a bracket fails with `MustNotStartWith`, as at the start of the input. */
  lemma StarOpensBracket(a: real, at0: EV.Location, at1: EV.Location, atEnd: EV.Location)
    ensures EV.Evaluate([Lx(L.LeftBracket, at0), Lx(L.Mul, at1), Lx(L.Real(a), at1), Lx(L.RightBracket(1), at1)], atEnd)
            == Err(EV.Fail(at1, E.MustNotStartWith))
  {
    var ls := [Lx(L.LeftBracket, at0), Lx(L.Mul, at1), Lx(L.Real(a), at1), Lx(L.RightBracket(1), at1)];
    OpeningRun(ls);
    P.OperatorAfterOpeningFails(ls, 1, atEnd);
  }

  /** "a %": the percent sign scales the active value by 1e-2. */
  lemma PercentScales(a: real, at: EV.Location, atEnd: EV.Location)
    ensures EV.Evaluate([Lx(L.Real(a), at), Lx(L.Percent, at)], atEnd) == Ok(Num(a * 0.01))
  {
    var ls := [Lx(L.Real(a), at), Lx(L.Percent, at)];
    var x := 0.01;
    PercentRun(a, x, ls);
    var st := EV.State(Some(Num(a * x)), [], 0, EV.Other, false);
    assert EV.Run(ls) == Ok(st);
    assert EV.Finish(st, atEnd) == Ok(Num(a * x));
    assert EV.Evaluate(ls, atEnd) == Ok(Num(a * x));
    assert a * x == a * 0.01;
  }

  lemma PercentRun(a: real, x: real, ls: seq<EV.Lexeme>)
    requires x == 0.01
    requires |ls| == 2 && ls[0].token == Some(L.Real(a)) && ls[1].token == Some(L.Percent)
    ensures EV.Run(ls) == Ok(EV.State(Some(Num(a * x)), [], 0, EV.Other, false))
  {
    var s1 := EV.State(Some(Num(a)), [], 0, EV.Other, false);
    var s2 := EV.State(Some(Num(a * x)), [], 0, EV.Other, false);
    FirstNumber(a, ls[0]);
    assert ls[1] == Lx(L.Percent, ls[1].at);
    ScaledStep(a, x, ls[1].at);
    RunStep(EV.Initial, ls, 0, s1);
    RunStep(s1, ls, 1, s2);
    assert ls[2..] == [];
  }

  /** A number at the start of the input becomes the active quantity. */
  lemma FirstNumber(a: real, lx: EV.Lexeme)
    requires lx.token == Some(L.Real(a))
    ensures EV.Step(EV.Initial, lx) == Ok(EV.State(Some(Num(a)), [], 0, EV.Other, false))
  {
  }

  /** A `%` after a plain number scales it by 1/100. */
  lemma ScaledStep(a: real, x: real, at: EV.Location)
    requires x == 0.01
    ensures EV.Step(EV.State(Some(Num(a)), [], 0, EV.Other, false), Lx(L.Percent, at))
            == Ok(EV.State(Some(Num(a * x)), [], 0, EV.Other, false))
  {
    assert Num(a) == EV.Number(a);
    assert Num(a * x) == EV.Number(a * x);
    ScaleNumber(a, x);
  }

  lemma ScaleNumber(a: real, x: real)
    ensures Q.MulScalar(EV.Number(a), x) == EV.Number(a * x)
  {
    assert Q.MulScalar(EV.Number(a), x).value == C.Scale(C.FromReal(a), x);
    assert C.Scale(C.FromReal(a), x) == C.FromReal(a * x);
  }

  /** "-a A": the leading sign quantity -1 takes the number and then the ampere. */
  lemma NegativeAmperes(a: real, ls: seq<EV.Lexeme>, atEnd: EV.Location)
    requires |ls| == 3 && ls[0].token == Some(L.Sub) && ls[1].token == Some(L.Real(a))
    requires ls[2].token == Some(L.Symbol(L.Ampere, L.Exponents(1, 0)))
    ensures EV.Evaluate(ls, atEnd) == Ok(Q.DynQuantity(C.FromReal(-a), U.Unit(0, 0, 0, 1, 0, 0, 0)))
  {
    NegativeAmperesRun(a, ls);
    SingleQuantity(ls, atEnd, Q.DynQuantity(C.FromReal(-a), U.Unit(0, 0, 0, 1, 0, 0, 0)));
  }

  /** A run that ends with one quantity active and nothing pending evaluates to that quantity. */
  lemma SingleQuantity(ls: seq<EV.Lexeme>, atEnd: EV.Location, q: Q.DynQuantity)
    requires EV.Run(ls) == Ok(EV.State(Some(q), [], 0, EV.Other, false))
    ensures EV.Evaluate(ls, atEnd) == Ok(q)
  {
    assert EV.Finish(EV.State(Some(q), [], 0, EV.Other, false), atEnd) == Ok(q);
  }

  lemma NegativeAmperesRun(a: real, ls: seq<EV.Lexeme>)
    requires |ls| == 3 && ls[0].token == Some(L.Sub) && ls[1].token == Some(L.Real(a))
    requires ls[2].token == Some(L.Symbol(L.Ampere, L.Exponents(1, 0)))
    ensures EV.Run(ls) == Ok(EV.State(Some(Q.DynQuantity(C.FromReal(-a), U.Unit(0, 0, 0, 1, 0, 0, 0))), [], 0, EV.Other, false))
  {
    AmpereFactor();
    AmperePower();
    NegatedSymbolRun(a, ls, L.Ampere, L.Exponents(1, 0), 1.0, U.Unit(0, 0, 0, 1, 0, 0, 0));
    ScaleByOne(-a);
  }

  /** "-a" followed by a unit token other than °C: -a scaled by the token's factor, in the token's unit. */
  lemma NegatedSymbolRun(a: real, ls: seq<EV.Lexeme>, kind: L.SymbolKind, e: L.Exponents, f: real, u: U.Unit)
    requires |ls| == 3 && ls[0].token == Some(L.Sub) && ls[1].token == Some(L.Real(a))
    requires ls[2].token == Some(L.Symbol(kind, e))
    requires kind != L.Celsius && EV.SymbolFactor(kind, e) == f && U.Power(EV.SymbolVector(kind), e.unit) == u
    ensures EV.Run(ls) == Ok(EV.State(Some(Q.DynQuantity(C.Scale(C.FromReal(-a), f), u)), [], 0, EV.Other, false))
  {
    var q := Q.DynQuantity(C.Scale(C.FromReal(-a), f), u);
    NegatedPrefix(a, ls);
    SymbolStep(Num(-a), kind, e, ls[2]);
    PlainSymbol(-a, kind, e, f, u);
    RunStep(EV.State(Some(Num(-a)), [], 0, EV.Other, false), ls, 2, EV.State(Some(q), [], 0, EV.Other, false));
    assert ls[3..] == [];
  }

  /** A unit token other than °C on a dimensionless number scales it by the token's factor and gives it the token's unit. */
  lemma PlainSymbol(x: real, kind: L.SymbolKind, e: L.Exponents, f: real, u: U.Unit)
    requires kind != L.Celsius && EV.SymbolFactor(kind, e) == f && U.Power(EV.SymbolVector(kind), e.unit) == u
    ensures EV.ApplySymbol(Num(x), kind, e) == Q.DynQuantity(C.Scale(C.FromReal(x), f), u)
  {
    U.GroupLaws(u, U.Dimensionless, u);
  }

  lemma ScaleByOne(x: real)
    ensures C.Scale(C.FromReal(x), 1.0) == C.FromReal(x)
  {
  }

  /** "-a" at the start leaves the dimensionless quantity -a active. */
  lemma NegatedPrefix(a: real, ls: seq<EV.Lexeme>)
    requires |ls| >= 2 && ls[0].token == Some(L.Sub) && ls[1].token == Some(L.Real(a))
    ensures EV.Run(ls) == EV.RunFrom(EV.State(Some(Num(-a)), [], 0, EV.Other, false), ls[2..])
  {
    var s1 := EV.State(Some(Num(-1.0)), [], 0, EV.Sub, false);
    LeadingMinus(ls[0]);
    NegatedNumber(a, ls[1]);
    RunStep(EV.Initial, ls, 0, s1);
    RunStep(s1, ls, 1, EV.State(Some(Num(-a)), [], 0, EV.Other, false));
  }

  /** A run over three lexemes is its three steps. */
  lemma RunOfThree(ls: seq<EV.Lexeme>, s1: EV.State, s2: EV.State, st: EV.State)
    requires |ls| == 3
    requires EV.Step(EV.Initial, ls[0]) == Ok(s1) && EV.Step(s1, ls[1]) == Ok(s2) && EV.Step(s2, ls[2]) == Ok(st)
    ensures EV.Run(ls) == Ok(st)
  {
    RunStep(EV.Initial, ls, 0, s1);
    RunStep(s1, ls, 1, s2);
    RunStep(s2, ls, 2, st);
    assert ls[3..] == [];
  }

  /** A leading `-` leaves the sign quantity -1 active. */
  lemma LeadingMinus(lx: EV.Lexeme)
    requires lx.token == Some(L.Sub)
    ensures EV.Step(EV.Initial, lx) == Ok(EV.State(Some(Num(-1.0)), [], 0, EV.Sub, false))
  {
  }

  /** A number after a leading `-` is negated. */
  lemma NegatedNumber(a: real, lx: EV.Lexeme)
    requires lx.token == Some(L.Real(a))
    ensures EV.Step(EV.State(Some(Num(-1.0)), [], 0, EV.Sub, false), lx) == Ok(EV.State(Some(Num(-a)), [], 0, EV.Other, false))
  {
    MinusOneTimes(a);
  }

  /** A unit token after an active quantity applies the unit to it. */
  lemma SymbolStep(q: Q.DynQuantity, kind: L.SymbolKind, e: L.Exponents, lx: EV.Lexeme)
    requires lx.token == Some(L.Symbol(kind, e))
    ensures EV.Step(EV.State(Some(q), [], 0, EV.Other, false), lx)
            == Ok(EV.State(Some(EV.ApplySymbol(q, kind, e)), [], 0, EV.Other, false))
  {
  }

  lemma AmpereFactor()
    ensures EV.SymbolFactor(L.Ampere, L.Exponents(1, 0)) == 1.0
  {
    assert L.Exponent(L.Exponents(1, 0)) == 0;
    assert C.RealPowi(10.0, 0) == 1.0;
  }

  lemma AmperePower()
    ensures U.Power(EV.SymbolVector(L.Ampere), 1) == U.Unit(0, 0, 0, 1, 0, 0, 0)
  {
    assert EV.SymbolVector(L.Ampere) == U.Unit(0, 0, 0, 1, 0, 0, 0);
  }

  /** "a kA": the kilo prefix scales the number by 1000 and the unit is the ampere. */
  lemma KiloAmperes(a: real, ls: seq<EV.Lexeme>, atEnd: EV.Location)
    requires |ls| == 2 && ls[0].token == Some(L.Real(a))
    requires ls[1].token == Some(L.Symbol(L.Ampere, L.Exponents(1, 3)))
    ensures EV.Evaluate(ls, atEnd) == Ok(Q.DynQuantity(C.FromReal(a * 1000.0), U.Unit(0, 0, 0, 1, 0, 0, 0)))
  {
    KiloAmperesRun(a, ls);
    SingleQuantity(ls, atEnd, Q.DynQuantity(C.FromReal(a * 1000.0), U.Unit(0, 0, 0, 1, 0, 0, 0)));
  }

  lemma KiloAmperesRun(a: real, ls: seq<EV.Lexeme>)
    requires |ls| == 2 && ls[0].token == Some(L.Real(a))
    requires ls[1].token == Some(L.Symbol(L.Ampere, L.Exponents(1, 3)))
    ensures EV.Run(ls) == Ok(EV.State(Some(Q.DynQuantity(C.FromReal(a * 1000.0), U.Unit(0, 0, 0, 1, 0, 0, 0))), [], 0, EV.Other, false))
  {
    KiloAmpereFactor();
    AmperePower();
    NumberSymbolRun(a, ls, L.Ampere, L.Exponents(1, 3), 1000.0, U.Unit(0, 0, 0, 1, 0, 0, 0));
    assert C.Scale(C.FromReal(a), 1000.0) == C.FromReal(a * 1000.0);
  }

  /** A number followed by a unit token other than °C: the number scaled by the token's factor, in the token's unit. */
  lemma NumberSymbolRun(a: real, ls: seq<EV.Lexeme>, kind: L.SymbolKind, e: L.Exponents, f: real, u: U.Unit)
    requires |ls| == 2 && ls[0].token == Some(L.Real(a)) && ls[1].token == Some(L.Symbol(kind, e))
    requires kind != L.Celsius && EV.SymbolFactor(kind, e) == f && U.Power(EV.SymbolVector(kind), e.unit) == u
    ensures EV.Run(ls) == Ok(EV.State(Some(Q.DynQuantity(C.Scale(C.FromReal(a), f), u)), [], 0, EV.Other, false))
  {
    var s1 := EV.State(Some(Num(a)), [], 0, EV.Other, false);
    var q := Q.DynQuantity(C.Scale(C.FromReal(a), f), u);
    FirstNumber(a, ls[0]);
    SymbolStep(Num(a), kind, e, ls[1]);
    PlainSymbol(a, kind, e, f, u);
    RunStep(EV.Initial, ls, 0, s1);
    RunStep(s1, ls, 1, EV.State(Some(q), [], 0, EV.Other, false));
    assert ls[2..] == [];
  }

  /** The prefix law on "kA": the bare ampere's factor 1 times 10^(1·3). */
  lemma KiloAmpereFactor()
    ensures EV.SymbolFactor(L.Ampere, L.Exponents(1, 3)) == 1000.0
  {
    P.SymbolFactorPrefix(L.Ampere, 1, 3);
    AmpereFactor();
    TenCubed();
  }

  lemma TenCubed()
    ensures EV.Pow10(1 * 3) == 1000.0
  {
    assert C.RealNatPow(10.0, 0) == 1.0;
    assert C.RealNatPow(10.0, 1) == 10.0;
    assert C.RealNatPow(10.0, 2) == 100.0;
    assert C.RealNatPow(10.0, 3) == 1000.0;
  }

  /** "a (b)": a bracket right after a number multiplies it. */
  lemma BracketAfterNumberMultiplies(a: real, b: real, at: EV.Location, atEnd: EV.Location)
    ensures EV.Evaluate([Lx(L.Real(a), at), Lx(L.LeftBracket, at), Lx(L.Real(b), at), Lx(L.RightBracket(1), at)], atEnd)
            == Ok(Num(a * b))
  {
    var ls := [Lx(L.Real(a), at), Lx(L.LeftBracket, at), Lx(L.Real(b), at), Lx(L.RightBracket(1), at)];
    BracketRun(a, b, ls);
    var st := EV.State(Some(Q.Mul(Num(a), Num(b))), [], 0, EV.Other, false);
    assert EV.Finish(st, atEnd) == Ok(Q.Mul(Num(a), Num(b)));
    assert EV.Evaluate(ls, atEnd) == Ok(Q.Mul(Num(a), Num(b)));
    assert Num(a) == EV.Number(a) && Num(b) == EV.Number(b) && Num(a * b) == EV.Number(a * b);
    NumberProduct(a, b);
  }

  /** The run over "a (b)": the number, the bracket that saves it, the content and the close. */
  lemma BracketRun(a: real, b: real, ls: seq<EV.Lexeme>)
    requires |ls| == 4 && ls[0].token == Some(L.Real(a)) && ls[1].token == Some(L.LeftBracket)
    requires ls[2].token == Some(L.Real(b)) && ls[3].token == Some(L.RightBracket(1))
    ensures EV.Run(ls) == Ok(EV.State(Some(Q.Mul(Num(a), Num(b))), [], 0, EV.Other, false))
  {
    var m := EV.MulOp(Num(a));
    var s1 := EV.State(Some(Num(a)), [], 0, EV.Other, false);
    var s2 := EV.State(None, [m], 1, EV.Other, false);
    var s3 := EV.State(Some(Num(b)), [m], 1, EV.Other, false);
    var st := EV.State(Some(Q.Mul(Num(a), Num(b))), [], 0, EV.Other, false);
    FirstNumber(a, ls[0]);
    assert [] + [m] == [m];
    assert EV.Step(s1, ls[1]) == Ok(s2);
    assert EV.Step(s2, ls[2]) == Ok(s3);
    InnerProduct(Num(a), Num(b), ls[3]);
    RunStep(EV.Initial, ls, 0, s1);
    RunStep(s1, ls, 1, s2);
    RunStep(s2, ls, 2, s3);
    RunStep(s3, ls, 3, st);
    assert ls[4..] == [];
  }

  /** The `)` of "x (q)" multiplies the quantity before the bracket by its content. */
  lemma InnerProduct(x: Q.DynQuantity, q: Q.DynQuantity, lx: EV.Lexeme)
    requires lx.token == Some(L.RightBracket(1))
    ensures EV.Step(EV.State(Some(q), [EV.MulOp(x)], 1, EV.Other, false), lx)
            == Ok(EV.State(Some(Q.Mul(x, q)), [], 0, EV.Other, false))
  {
    StepClose(q, x, [], 1, 1, lx.at);
    assert [] + [EV.MulOp(x)] == [EV.MulOp(x)];
    assert lx == Lx(L.RightBracket(1), lx.at);
    PowiOne(q);
  }

  lemma NumberProduct(a: real, b: real)
    ensures Q.Mul(EV.Number(a), EV.Number(b)) == EV.Number(a * b)
  {
    assert C.Mul(C.FromReal(a), C.FromReal(b)) == C.FromReal(a * b);
  }

  /** The unit a plain "V" token gives a dimensionless quantity. */
  lemma VoltToken(q: Q.DynQuantity)
    requires q.unit == U.Dimensionless
    ensures EV.ApplySymbol(q, L.Volt, L.Exponents(1, 0)).unit == U.Unit(-3, 2, 1, -1, 0, 0, 0)
  {
  }

  /** "a + b V": a voltage cannot be added to a plain number. */
  lemma VoltPlusNumberFails(a: real, b: real, at: EV.Location, atEnd: EV.Location)
    ensures EV.Evaluate([Lx(L.Real(a), at), Lx(L.Add, at), Lx(L.Real(b), at),
                         Lx(L.Symbol(L.Volt, L.Exponents(1, 0)), at)], atEnd)
            == Err(EV.Fail(atEnd, E.UnitsOfSummandsNotIdentical(E.UnitsNotEqual(U.Unit(-3, 2, 1, -1, 0, 0, 0), U.Dimensionless))))
  {
    var ls := [Lx(L.Real(a), at), Lx(L.Add, at), Lx(L.Real(b), at), Lx(L.Symbol(L.Volt, L.Exponents(1, 0)), at)];
    var addend := EV.AddOp(Num(a));
    var s1 := EV.State(Some(Num(a)), [], 0, EV.Other, false);
    var s2 := EV.State(Some(Num(1.0)), [addend], 0, EV.Add, false);
    var s3 := EV.State(Some(Num(b)), [addend], 0, EV.Other, false);
    var volts := EV.ApplySymbol(Num(b), L.Volt, L.Exponents(1, 0));
    var s4 := EV.State(Some(volts), [addend], 0, EV.Other, false);
    assert EV.Step(EV.Initial, ls[0]) == Ok(s1);
    assert [] + [addend] == [addend];
    assert EV.Step(s1, ls[1]) == Ok(s2);
    assert C.Mul(C.FromReal(1.0), C.Complex(b, 0.0)) == C.FromReal(b);
    assert EV.Step(s2, ls[2]) == Ok(s3);
    assert EV.Step(s3, ls[3]) == Ok(s4);
    RunChain(EV.Initial, ls, [EV.Initial, s1, s2, s3, s4]);
    VoltToken(Num(b));
  }

  /** "5i": an imaginary result is not a real quantity. */
  lemma ImaginaryIsNotReal(atEnd: EV.Location)
    ensures EV.EvaluateReal([Tok(L.Imag(5.0), "5i", 0)], atEnd)
            == Err(E.ParseError("", E.Span(0, 0),
                     E.ComplexNotConvertible(E.NotConvertibleFromComplexF64(C.Complex(0.0, 5.0), "f64"))))
  {
    var ls := [Tok(L.Imag(5.0), "5i", 0)];
    var s1 := EV.State(Some(Q.DynQuantity(C.Complex(0.0, 5.0), U.Dimensionless)), [], 0, EV.Other, false);
    assert EV.Step(EV.Initial, ls[0]) == Ok(s1);
    RunChain(EV.Initial, ls, [EV.Initial, s1]);
  }

  /**
    "(2i)^2": the bracket opens after an implicit factor 1, holds 2i, and closes with the
    exponent 2, so the text is the real number -4 and parses as a real quantity.
  */
  lemma ImaginarySquaredIsReal(ls: seq<EV.Lexeme>, atEnd: EV.Location)
    requires |ls| == 3 && ls[0].token == Some(L.LeftBracket) && ls[1].token == Some(L.Imag(2.0))
    requires ls[2].token == Some(L.RightBracket(2))
    ensures EV.EvaluateReal(ls, atEnd).Ok?
    ensures EV.EvaluateReal(ls, atEnd).value == Q.DynQuantity(C.FromReal(-4.0), U.Dimensionless)
  {
    ImaginarySquaredEvaluates(ls, atEnd, U.Dimensionless);
  }

  /** The unit is a parameter here so that the power is taken of a quantity whose unit stays symbolic. */
  lemma ImaginarySquaredEvaluates(ls: seq<EV.Lexeme>, atEnd: EV.Location, u: U.Unit)
    requires |ls| == 3 && ls[0].token == Some(L.LeftBracket) && ls[1].token == Some(L.Imag(2.0))
    requires ls[2].token == Some(L.RightBracket(2))
    requires u == U.Dimensionless
    ensures EV.Evaluate(ls, atEnd) == Ok(Q.DynQuantity(C.FromReal(-4.0), u))
  {
    ImaginarySquaredPower(ls, atEnd, u);
    MinusFour(u);
    Rewrite(EV.Evaluate(ls, atEnd), Q.Mul(Num(1.0), Q.Powi(Q.DynQuantity(C.Complex(0.0, 2.0), u), 2)),
            Q.DynQuantity(C.FromReal(-4.0), u));
  }

  /** "(2i)^2" is the implicit factor 1 times the square of 2i. */
  lemma ImaginarySquaredPower(ls: seq<EV.Lexeme>, atEnd: EV.Location, u: U.Unit)
    requires |ls| == 3 && ls[0].token == Some(L.LeftBracket) && ls[1].token == Some(L.Imag(2.0))
    requires ls[2].token == Some(L.RightBracket(2))
    requires u == U.Dimensionless
    ensures EV.Evaluate(ls, atEnd) == Ok(Q.Mul(Num(1.0), Q.Powi(Q.DynQuantity(C.Complex(0.0, 2.0), u), 2)))
  {
    var z := Q.DynQuantity(C.Complex(0.0, 2.0), u);
    ImaginaryInBracket(2.0, ls[1]);
    BracketPowerEvaluates(ls, z, 2, atEnd);
  }

  /** Replaces an evaluation result by an equal quantity. */
  lemma Rewrite(res: Result<Q.DynQuantity, E.ParseError>, a: Q.DynQuantity, b: Q.DynQuantity)
    requires res == Ok(a) && a == b
    ensures res == Ok(b)
  {
  }

  /** "(…)^e" whose content leaves `z` active: the implicit factor 1 times `z` to the `e`th power. */
  lemma BracketPowerEvaluates(ls: seq<EV.Lexeme>, z: Q.DynQuantity, e: int, atEnd: EV.Location)
    requires |ls| == 3 && ls[0].token == Some(L.LeftBracket) && ls[2].token == Some(L.RightBracket(e))
    requires EV.Step(EV.State(None, [EV.MulOp(Num(1.0))], 1, EV.Other, false), ls[1])
             == Ok(EV.State(Some(z), [EV.MulOp(Num(1.0))], 1, EV.Other, false))
    ensures EV.Evaluate(ls, atEnd) == Ok(Q.Mul(Num(1.0), Q.Powi(z, e)))
  {
    var q := Q.Mul(Num(1.0), Q.Powi(z, e));
    BracketPowerRun(ls, z, e);
    assert EV.Finish(EV.State(Some(q), [], 0, EV.Other, false), atEnd) == Ok(q);
  }

  lemma BracketPowerRun(ls: seq<EV.Lexeme>, z: Q.DynQuantity, e: int)
    requires |ls| == 3 && ls[0].token == Some(L.LeftBracket) && ls[2].token == Some(L.RightBracket(e))
    requires EV.Step(EV.State(None, [EV.MulOp(Num(1.0))], 1, EV.Other, false), ls[1])
             == Ok(EV.State(Some(z), [EV.MulOp(Num(1.0))], 1, EV.Other, false))
    ensures EV.Run(ls) == Ok(EV.State(Some(Q.Mul(Num(1.0), Q.Powi(z, e))), [], 0, EV.Other, false))
  {
    var s1 := EV.State(None, [EV.MulOp(Num(1.0))], 1, EV.Other, false);
    var s2 := EV.State(Some(z), [EV.MulOp(Num(1.0))], 1, EV.Other, false);
    var st := EV.State(Some(Q.Mul(Num(1.0), Q.Powi(z, e))), [], 0, EV.Other, false);
    OpeningFirst(ls[0]);
    ClosePower(Num(1.0), z, e, ls[2]);
    RunStep(EV.Initial, ls, 0, s1);
    RunStep(s1, ls, 1, s2);
    RunStep(s2, ls, 2, st);
    assert ls[3..] == [];
  }

  /** The `)^e` of "x (q)^e" multiplies the quantity before the bracket by the power of its content. */
  lemma ClosePower(x: Q.DynQuantity, q: Q.DynQuantity, e: int, lx: EV.Lexeme)
    requires lx.token == Some(L.RightBracket(e))
    ensures EV.Step(EV.State(Some(q), [EV.MulOp(x)], 1, EV.Other, false), lx)
            == Ok(EV.State(Some(Q.Mul(x, Q.Powi(q, e))), [], 0, EV.Other, false))
  {
    StepClose(q, x, [], 1, e, lx.at);
    assert [] + [EV.MulOp(x)] == [EV.MulOp(x)];
    assert lx == Lx(L.RightBracket(e), lx.at);
  }

  /** A `(` at the start pushes the implicit factor 1. */
  lemma OpeningFirst(lx: EV.Lexeme)
    requires lx.token == Some(L.LeftBracket)
    ensures EV.Step(EV.Initial, lx) == Ok(EV.State(None, [EV.MulOp(Num(1.0))], 1, EV.Other, false))
  {
    assert EV.Initial.stack + [EV.MulOp(EV.Number(1.0))] == [EV.MulOp(Num(1.0))];
  }

  lemma ImaginaryInBracket(v: real, lx: EV.Lexeme)
    requires lx.token == Some(L.Imag(v))
    ensures EV.Step(EV.State(None, [EV.MulOp(Num(1.0))], 1, EV.Other, false), lx)
            == Ok(EV.State(Some(Q.DynQuantity(C.Complex(0.0, v), U.Dimensionless)), [EV.MulOp(Num(1.0))], 1, EV.Other, false))
  {
  }

  /** 1 · (2i)^2 is the dimensionless real -4. */
  lemma MinusFour(u: U.Unit)
    requires u == U.Dimensionless
    ensures Q.Mul(Num(1.0), Q.Powi(Q.DynQuantity(C.Complex(0.0, 2.0), u), 2)) == Q.DynQuantity(C.FromReal(-4.0), u)
  {
    var z := Q.DynQuantity(C.Complex(0.0, 2.0), u);
    OneTimes(Q.Powi(z, 2));
    C.ImaginaryUnitSquared();
    assert U.Power(u, 2) == u;
  }
}
