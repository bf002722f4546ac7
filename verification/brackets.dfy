/**
 * Bracketed input on concrete token lists: a parenthesised group, and the
 * call form, whose closing parenthesis the parser never accepts.
 */
module Brackets {
  import opened Common
  import opened Grouping
  import opened Parser
  import opened ParseFacts
  import opened Precedence

  // ---------------------------------------------------------------------------
  // ( 2 + 3 ) * 4: the closing sign reduces what the group holds.
  // Dk is the configuration after k tokens, and DkStep consumes token k.

  const T4 := ["*(", "#2", "*+", "#3", "*)", "**", "#4"]
  const A23 := Node("add", [N2, N3])
  const P23 := Node("pri", [A23])
  const PPriClosed := Pending("pri", [], None)
  const D1 := Config(Env(1, [], [PPri], BeforeExp), [], NoFailure)
  const D2 := Config(Env(2, [N2], [PPri], AfterExp), [], NoFailure)
  const D3 := Config(Env(3, [N2], [PPri, PAdd], BeforeExp), [], NoFailure)
  const D4 := Config(Env(4, [N2, N3], [PPri, PAdd], AfterExp), [], NoFailure)
  const D5 := Config(Env(5, [P23], [], AfterExp), [], NoFailure)
  const D6 := Config(Env(6, [P23], [PMul], BeforeExp), [], NoFailure)
  const D7 := Config(Env(7, [P23, N4], [PMul], AfterExp), [], NoFailure)

  /** Token lists that begin with `( 2 + 3`; the first four steps do not look further. */
  predicate OpensSum(tokens: seq<string>) {
    |tokens| >= 4 && tokens[0] == "*(" && tokens[1] == "#2" && tokens[2] == "*+" && tokens[3] == "#3"
  }

  /** `(` before an expression: `pri` is pushed, waiting for its hole. */
  lemma D0Step(g: Grammar, tokens: seq<string>, fuel: nat)
    requires OpensSum(tokens) && fuel >= 1 && Lookup(g.signStart, "(") == Some([PriE])
    ensures Run(g, tokens, Initial, fuel) == Run(g, tokens, D1, fuel - 1)
  {
    assert RestItems(PriE.pattern) == [Hole(None), SignItem(")")];
    assert Start(g.priIds, PriE) == (PPri, BeforeExp);
    StepSignStart(g, tokens, Initial, "(", PriE);
    RunStep(g, tokens, Initial, D1, fuel);
  }
  /** `2`: pushed as a leaf. */
  lemma D1Step(g: Grammar, tokens: seq<string>, fuel: nat)
    requires OpensSum(tokens) && fuel >= 1
    ensures Run(g, tokens, D1, fuel) == Run(g, tokens, D2, fuel - 1)
  {
    StepNumber(g, tokens, D1, "2");
    RunStep(g, tokens, D1, D2, fuel);
  }
  /** `+` after an expression: `add` is pushed above the open bracket. */
  lemma D2Step(g: Grammar, tokens: seq<string>, fuel: nat)
    requires OpensSum(tokens) && fuel >= 1 && Lookup(g.expStart, "+") == Some([AddE])
    ensures Run(g, tokens, D2, fuel) == Run(g, tokens, D3, fuel - 1)
  {
    assert LastOpen([PPri]) == 0;
    assert Unwind(g.ops, [PPri], [N2], 4) == Ok(([PPri], [N2]));
    PushBinary(g, AddE, PAdd, [PPri], [N2]);
    StepExtend(g, tokens, D2, "+", AddE);
    RunStep(g, tokens, D2, D3, fuel);
  }
  /** `3`: pushed as a leaf. */
  lemma D3Step(g: Grammar, tokens: seq<string>, fuel: nat)
    requires OpensSum(tokens) && fuel >= 1
    ensures Run(g, tokens, D3, fuel) == Run(g, tokens, D4, fuel - 1)
  {
    StepNumber(g, tokens, D3, "3");
    RunStep(g, tokens, D3, D4, fuel);
  }
  /** At `)` the pending `add` is reduced, and `check_oper` then completes the group. */
  lemma CloseGroup(ops: seq<OperEntry>)
    requires FindOper(ops, "add") == Some(AddE) && FindOper(ops, "pri") == Some(PriE)
    ensures ReduceTimes(ops, [PPri, PAdd], [N2, N3], 1) == Ok(([PPri], [A23]))
    ensures CheckOper(ops, [PPriClosed], [A23]) == Ok(([], [P23], AfterExp))
  {
    GroupSum(ops);
    GroupBracket(ops);
  }
  /** The addition inside the brackets is reduced once the closing bracket arrives. */
  lemma GroupSum(ops: seq<OperEntry>)
    requires FindOper(ops, "add") == Some(AddE)
    ensures PushExp(ops, [PPri, PAdd], [N2, N3]) == Ok(([PPri], [A23]))
  {
    ReduceBinary(ops, AddE, [PPri, PAdd], [N2, N3]);
    assert [N2, N3][..0] == [] && [N2, N3][0..] == [N2, N3] && [PPri, PAdd][..1] == [PPri];
    assert [PPri, PAdd][1] == PAdd && [] + [A23] == [A23];
  }
  /** The completed bracket pops the sum as its single argument. */
  lemma GroupBracket(ops: seq<OperEntry>)
    requires FindOper(ops, "pri") == Some(PriE)
    ensures PushExp(ops, [PPriClosed], [A23]) == Ok(([], [P23]))
  {
    PriUnary();
    ReduceUnary(ops, PriE, [PPriClosed], [A23]);
    assert [A23][..0] == [] && [A23][0..] == [A23] && [PPriClosed][..0] == [];
    assert [PPriClosed][0] == PPriClosed && [] + [P23] == [P23];
  }
  lemma GroupOpen()
    ensures LastOpen([PPri, PAdd]) == 0
  {
    assert LastOpen([PPri]) == 0;
  }
  /** `)` arrives while the bracket awaits it: one turn reduces the sum and completes the group. */
  lemma D4Close(g: Grammar)
    requires FindOper(g.ops, "add") == Some(AddE) && FindOper(g.ops, "pri") == Some(PriE)
    ensures Step(g, T4, D4) == Continue(D5)
  {
    GroupOpen();
    CloseGroup(g.ops);
    assert PPri.rest[1..] == [] && [PPri][..0] == [] && [PPri][0] == PPri;
    assert [PPri][..0] + [PPri.(rest := PPri.rest[1..])] == [PPriClosed];
    assert D4.cur.opers == [PPri, PAdd] && D4.cur.exps == [N2, N3] && |D4.cur.opers| - 0 - 1 == 1;
    assert T4[D4.cur.head] == "*)" && D4.(cur := Env(5, [P23], [], AfterExp)) == D5;
    StepClose(g, T4, D4, ")", 0, [PPri], [A23], [], [P23], AfterExp);
  }
  /** `)`: the group closes into a single expression. */
  lemma D4Step(g: Grammar, fuel: nat)
    requires fuel >= 1 && FindOper(g.ops, "add") == Some(AddE) && FindOper(g.ops, "pri") == Some(PriE)
    ensures Run(g, T4, D4, fuel) == Run(g, T4, D5, fuel - 1)
  {
    D4Close(g);
    RunStep(g, T4, D4, D5, fuel);
  }
  /** `*` after the group: `mul` is pushed. */
  lemma D5Step(g: Grammar, fuel: nat)
    requires fuel >= 1 && Lookup(g.expStart, "*") == Some([MulE])
    ensures Run(g, T4, D5, fuel) == Run(g, T4, D6, fuel - 1)
  {
    PushBinary(g, MulE, PMul, [], [P23]);
    StepExtend(g, T4, D5, "*", MulE);
    RunStep(g, T4, D5, D6, fuel);
  }
  /** `4`: pushed as a leaf. */
  lemma D6Step(g: Grammar, fuel: nat)
    requires fuel >= 1
    ensures Run(g, T4, D6, fuel) == Run(g, T4, D7, fuel - 1)
  {
    StepNumber(g, T4, D6, "4");
    RunStep(g, T4, D6, D7, fuel);
  }
  /** End of input: the drain builds mul(pri(add(2, 3)), 4). */
  lemma D7Drain(g: Grammar, fuel: nat)
    requires fuel >= 1 && FindOper(g.ops, "mul") == Some(MulE)
    ensures Run(g, T4, D7, fuel) == Ok(Node("mul", [P23, N4]))
  {
    RunDrain(g, T4, D7, fuel);
    DrainOneBinary(g.ops, PMul, MulE, P23, N4);
  }

  /** `( 2 + 3 ) * 4` parses as mul(pri(add(2, 3)), 4). */
  lemma GroupMul(g: Grammar, fuel: nat)
    requires Arithmetic(g) && fuel >= 8
    ensures Parse(g, ["*(", "#2", "*+", "#3", "*)", "**", "#4"], fuel) ==
            Ok(Node("mul", [Node("pri", [Node("add", [Num("2"), Num("3")])]), Num("4")]))
  {
    assert OpensSum(T4);
    D0Step(g, T4, fuel);
    D1Step(g, T4, fuel - 1);
    D2Step(g, T4, fuel - 2);
    D3Step(g, T4, fuel - 3);
    D4Step(g, fuel - 4);
    D5Step(g, fuel - 5);
    D6Step(g, fuel - 6);
    D7Drain(g, fuel - 7);
  }

  // ---------------------------------------------------------------------------
  // ( 2 + 3 with no closing bracket: the drain completes the group anyway.

  const T6 := ["*(", "#2", "*+", "#3"]

  /**
   * At the end of the input the drain pops the sum and then the bracket,
   * although the bracket still waits for its `)`: `pushExp` looks only at
   * the arity, never at the items left.
   */
  lemma UnclosedDrain(ops: seq<OperEntry>)
    requires FindOper(ops, "add") == Some(AddE) && FindOper(ops, "pri") == Some(PriE)
    ensures Drain(ops, [PPri, PAdd], [N2, N3]) == Ok(P23)
  {
    GroupSum(ops);
    DrainStep(ops, [PPri, PAdd], [N2, N3]);
    PriUnary();
    ReduceUnary(ops, PriE, [PPri], [A23]);
    assert [A23][..0] == [] && [A23][0..] == [A23] && [PPri][..0] == [];
    assert [PPri][0] == PPri && [] + [P23] == [P23];
    DrainStep(ops, [PPri], [A23]);
    assert Drain(ops, [], [P23]) == Ok(P23);
  }
  /** End of input after `3`: the drain pops `add`, then the still-open bracket. */
  lemma D4Drain(g: Grammar, fuel: nat)
    requires fuel >= 1 && FindOper(g.ops, "add") == Some(AddE) && FindOper(g.ops, "pri") == Some(PriE)
    ensures Run(g, T6, D4, fuel) == Ok(P23)
  {
    RunDrain(g, T6, D4, fuel);
    UnclosedDrain(g.ops);
  }

  /** `( 2 + 3` with its bracket never closed parses as pri(add(2, 3)). */
  lemma GroupUnclosed(g: Grammar, fuel: nat)
    requires Arithmetic(g) && fuel >= 5
    ensures Parse(g, ["*(", "#2", "*+", "#3"], fuel) == Ok(Node("pri", [Node("add", [Num("2"), Num("3")])]))
  {
    assert OpensSum(T6);
    D0Step(g, T6, fuel);
    D1Step(g, T6, fuel - 1);
    D2Step(g, T6, fuel - 2);
    D3Step(g, T6, fuel - 3);
    D4Drain(g, fuel - 4);
  }

  // ---------------------------------------------------------------------------
  // f ( 3 ): the call operator waits for a sign and never takes its argument.
  // Ek is the configuration after k tokens, and EkStep consumes token k.

  /** The call operator as the shipped `pri` level gives it. */
  const CalE: OperEntry := OperEntry("cal", Chain, [SignItem("("), Hole(None), SignItem(")")], 1, false)
  const PCal := Pending("cal", [SignItem(")")], None)
  const T5 := ["#f", "*(", "#3", "*)"]
  const NF := Num("f")
  const E1 := Config(Env(1, [NF], [], AfterExp), [], NoFailure)
  const E2 := Config(Env(2, [NF], [PCal], NeedSign), [], NoFailure)

  /** `f`: pushed as a leaf. */
  lemma E0Step(g: Grammar, fuel: nat)
    requires fuel >= 1
    ensures Run(g, T5, Initial, fuel) == Run(g, T5, E1, fuel - 1)
  {
    StepNumber(g, T5, Initial, "f");
    RunStep(g, T5, Initial, E1, fuel);
  }
  /** After `f`, the call operator is pushed with its hole already dropped, and it waits for `)`. */
  lemma CallPushed(g: Grammar)
    ensures Start(g.priIds, CalE) == (PCal, BeforeExp)
    ensures Unwind(g.ops, [], [NF], 1) == Ok(([], [NF]))
    ensures CheckOper(g.ops, [] + [PCal], [NF]) == Ok(([PCal], [NF], NeedSign))
  {
    assert RestItems(CalE.pattern) == [Hole(None), SignItem(")")];
    var o: seq<Pending> := [];
    assert o + [PCal] == [PCal];
  }
  /** `(` after an expression: `cal` is pushed and leaves the parser in state 2. */
  lemma E1Step(g: Grammar, fuel: nat)
    requires fuel >= 1 && Lookup(g.expStart, "(") == Some([CalE])
    ensures Run(g, T5, E1, fuel) == Run(g, T5, E2, fuel - 1)
  {
    CallPushed(g);
    StepExtend(g, T5, E1, "(", CalE);
    RunStep(g, T5, E1, E2, fuel);
  }
  /** `3` where `)` is required: the only environment fails. */
  lemma E2Fails(g: Grammar, fuel: nat)
    requires fuel >= 1
    ensures Run(g, T5, E2, fuel) == Fail(SyntaxError(2, SignRequired(")")))
  {
    NeedSignStep(g, T5, E2);
  }

  /**
   * `f ( 3 )` fails at the argument: after the expression `f`, the call
   * operator's expected hole has already been dropped, so `check_oper` asks
   * for the closing parenthesis and the token `3` is refused.
   */
  lemma CallNeedsSign(g: Grammar, fuel: nat)
    requires Lookup(g.expStart, "(") == Some([CalE]) && fuel >= 3
    ensures Parse(g, ["#f", "*(", "#3", "*)"], fuel) == Fail(SyntaxError(2, SignRequired(")")))
  {
    E0Step(g, fuel);
    E1Step(g, fuel - 1);
    E2Fails(g, fuel - 2);
  }
}
