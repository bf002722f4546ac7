/**
 * Precedence outcomes on concrete token lists, for any grammar that agrees
 * with the shipped table on the handful of operators the inputs use.
 */
module Precedence {
  import opened Common
  import opened Grouping
  import opened Parser
  import opened ParseFacts

  const AddE: OperEntry := OperEntry("add", Chain, [SignItem("+"), Hole(None)], 4, false)
  const MulE: OperEntry := OperEntry("mul", Chain, [SignItem("*"), Hole(None)], 3, false)
  const NegE: OperEntry := OperEntry("neg", Chain, [SignItem("-")], 2, true)
  const PriE: OperEntry := OperEntry("pri", Value, [SignItem("("), Hole(None), SignItem(")")], 0, true)

  /** What the examples need of the grammar, as the shipped table gives it. */
  predicate Arithmetic(g: Grammar) {
    && Lookup(g.expStart, "+") == Some([AddE])
    && Lookup(g.expStart, "*") == Some([MulE])
    && Lookup(g.signStart, "-") == Some([NegE])
    && Lookup(g.signStart, "(") == Some([PriE])
    && FindOper(g.ops, "add") == Some(AddE)
    && FindOper(g.ops, "mul") == Some(MulE)
    && FindOper(g.ops, "neg") == Some(NegE)
    && FindOper(g.ops, "pri") == Some(PriE)
  }

  /** The pending forms the shipped levels give these operators. */
  const PAdd := Pending("add", [], Some(3))
  const PMul := Pending("mul", [], Some(2))
  const PNeg := Pending("neg", [], Some(2))
  const PPri := Pending("pri", [SignItem(")")], None)

  /** Pushing a binary operator after an expression: the fresh pending form, and state 0. */
  lemma PushBinary(g: Grammar, v: OperEntry, p: Pending, o: seq<Pending>, x: seq<AST>)
    requires v.kind == Chain && !v.isRight && |v.pattern| == 2 && v.pattern[0].SignItem? && v.pattern[1] == Hole(None)
    requires p == Pending(v.id, [], Some(v.priority - 1))
    ensures Start(g.priIds, v) == (p, BeforeExp)
    ensures CheckOper(g.ops, o + [p], x) == Ok((o + [p], x, BeforeExp))
  {
    assert RestItems(v.pattern) == [];
  }

  /** Reducing a binary operator: its node takes the top two expressions. */
  lemma ReduceBinary(ops: seq<OperEntry>, e: OperEntry, o: seq<Pending>, x: seq<AST>)
    requires |o| > 0 && FindOper(ops, o[|o| - 1].id) == Some(e) && |x| >= 2
    requires e.kind == Chain && |e.pattern| == 2 && e.pattern[0].SignItem? && e.pattern[1].Hole?
    ensures PushExp(ops, o, x) == Ok((o[..|o| - 1], x[..|x| - 2] + [Node(o[|o| - 1].id, x[|x| - 2..])]))
  {
    PushExpSpec(ops, o, x);
    assert HoleArgs(e.pattern) == 1 by {
      assert HoleArgs(e.pattern[1..][1..]) == 0;
      assert HoleArgs(e.pattern[1..]) == 1;
    }
  }


  /** Reducing an operator that takes one argument: its node takes the top expression. */
  lemma ReduceUnary(ops: seq<OperEntry>, e: OperEntry, o: seq<Pending>, x: seq<AST>)
    requires |o| > 0 && FindOper(ops, o[|o| - 1].id) == Some(e) && |x| >= 1
    requires Arity(e.kind, e.pattern) == 1
    ensures PushExp(ops, o, x) == Ok((o[..|o| - 1], x[..|x| - 1] + [Node(o[|o| - 1].id, x[|x| - 1..])]))
  {
    PushExpSpec(ops, o, x);
  }

  lemma NegUnary()
    ensures Arity(NegE.kind, NegE.pattern) == 1
  {
    assert HoleArgs(NegE.pattern[1..]) == 0;
  }

  lemma PriUnary()
    ensures Arity(PriE.kind, PriE.pattern) == 1
  {
    assert HoleArgs(PriE.pattern[1..][1..][1..]) == 0;
    assert HoleArgs(PriE.pattern[1..][1..]) == 0;
    assert HoleArgs(PriE.pattern[1..]) == 1;
  }

  /** One binary operator pending over two operands drains into its node. */
  lemma DrainOneBinary(ops: seq<OperEntry>, p: Pending, e: OperEntry, a: AST, b: AST)
    requires FindOper(ops, p.id) == Some(e)
    requires e.kind == Chain && |e.pattern| == 2 && e.pattern[0].SignItem? && e.pattern[1].Hole?
    ensures Drain(ops, [p], [a, b]) == Ok(Node(p.id, [a, b]))
  {
    var n := Node(p.id, [a, b]);
    ReduceBinary(ops, e, [p], [a, b]);
    assert [a, b][..0] == [] && [a, b][0..] == [a, b] && [p][..0] == [];
    assert [p][0] == p && [] + [n] == [n];
    assert PushExp(ops, [p], [a, b]) == Ok(([], [n]));
    DrainStep(ops, [p], [a, b]);
    assert Drain(ops, [], [n]) == Ok(n);
  }

  /** Two binary operators pending over three operands drain into nested nodes, the lower one outermost. */
  lemma DrainTwoBinary(ops: seq<OperEntry>, p: Pending, q: Pending, e: OperEntry, f: OperEntry, a: AST, b: AST, c: AST)
    requires FindOper(ops, p.id) == Some(e) && FindOper(ops, q.id) == Some(f)
    requires e.kind == Chain && |e.pattern| == 2 && e.pattern[0].SignItem? && e.pattern[1].Hole?
    requires f.kind == Chain && |f.pattern| == 2 && f.pattern[0].SignItem? && f.pattern[1].Hole?
    ensures Drain(ops, [p, q], [a, b, c]) == Ok(Node(p.id, [a, Node(q.id, [b, c])]))
  {
    var inner := Node(q.id, [b, c]);
    ReduceBinary(ops, f, [p, q], [a, b, c]);
    assert [a, b, c][..1] == [a] && [a, b, c][1..] == [b, c] && [p, q][..1] == [p];
    assert [p, q][1] == q && [a] + [inner] == [a, inner];
    assert PushExp(ops, [p, q], [a, b, c]) == Ok(([p], [a, inner]));
    DrainStep(ops, [p, q], [a, b, c]);
    DrainOneBinary(ops, p, e, a, inner);
  }

  // ---------------------------------------------------------------------------
  // 2 + 3 * 4: the tighter operator on the right is reduced first.
  // Ak is the configuration after k tokens, and AkStep consumes token k.

  const T1 := ["#2", "*+", "#3", "**", "#4"]
  const N2 := Num("2")
  const N3 := Num("3")
  const N4 := Num("4")
  const A1 := Config(Env(1, [N2], [], AfterExp), [], NoFailure)
  const A2 := Config(Env(2, [N2], [PAdd], BeforeExp), [], NoFailure)
  const A3 := Config(Env(3, [N2, N3], [PAdd], AfterExp), [], NoFailure)
  const A4 := Config(Env(4, [N2, N3], [PAdd, PMul], BeforeExp), [], NoFailure)
  const A5 := Config(Env(5, [N2, N3, N4], [PAdd, PMul], AfterExp), [], NoFailure)

  /** `2`: pushed as a leaf. */
  lemma A0Step(g: Grammar, fuel: nat)
    requires fuel >= 1
    ensures Run(g, T1, Initial, fuel) == Run(g, T1, A1, fuel - 1)
  {
    StepNumber(g, T1, Initial, "2");
    RunStep(g, T1, Initial, A1, fuel);
  }
  /** `+` after an expression: `add` is pushed. */
  lemma A1Step(g: Grammar, fuel: nat)
    requires fuel >= 1 && Lookup(g.expStart, "+") == Some([AddE])
    ensures Run(g, T1, A1, fuel) == Run(g, T1, A2, fuel - 1)
  {
    PushBinary(g, AddE, PAdd, [], [N2]);
    StepExtend(g, T1, A1, "+", AddE);
    RunStep(g, T1, A1, A2, fuel);
  }
  /** `3`: pushed as a leaf. */
  lemma A2Step(g: Grammar, fuel: nat)
    requires fuel >= 1
    ensures Run(g, T1, A2, fuel) == Run(g, T1, A3, fuel - 1)
  {
    StepNumber(g, T1, A2, "3");
    RunStep(g, T1, A2, A3, fuel);
  }
  /** `*` after an expression: the looser `add` stays pending and `mul` is pushed above it. */
  lemma A3Step(g: Grammar, fuel: nat)
    requires fuel >= 1 && Lookup(g.expStart, "*") == Some([MulE])
    ensures Run(g, T1, A3, fuel) == Run(g, T1, A4, fuel - 1)
  {
    assert Unwind(g.ops, [PAdd], [N2, N3], 3) == Ok(([PAdd], [N2, N3]));
    PushBinary(g, MulE, PMul, [PAdd], [N2, N3]);
    StepExtend(g, T1, A3, "*", MulE);
    RunStep(g, T1, A3, A4, fuel);
  }
  /** `4`: pushed as a leaf. */
  lemma A4Step(g: Grammar, fuel: nat)
    requires fuel >= 1
    ensures Run(g, T1, A4, fuel) == Run(g, T1, A5, fuel - 1)
  {
    StepNumber(g, T1, A4, "4");
    RunStep(g, T1, A4, A5, fuel);
  }
  /** End of input: the drain builds add(2, mul(3, 4)). */
  lemma A5Drain(g: Grammar, fuel: nat)
    requires fuel >= 1 && FindOper(g.ops, "add") == Some(AddE) && FindOper(g.ops, "mul") == Some(MulE)
    ensures Run(g, T1, A5, fuel) == Ok(Node("add", [N2, Node("mul", [N3, N4])]))
  {
    RunDrain(g, T1, A5, fuel);
    DrainTwoBinary(g.ops, PAdd, PMul, AddE, MulE, N2, N3, N4);
  }

  /** `2 + 3 * 4` parses as add(2, mul(3, 4)). */
  lemma AddMul(g: Grammar, fuel: nat)
    requires Arithmetic(g) && fuel >= 6
    ensures Parse(g, ["#2", "*+", "#3", "**", "#4"], fuel) ==
            Ok(Node("add", [Num("2"), Node("mul", [Num("3"), Num("4")])]))
  {
    A0Step(g, fuel);
    A1Step(g, fuel - 1);
    A2Step(g, fuel - 2);
    A3Step(g, fuel - 3);
    A4Step(g, fuel - 4);
    A5Drain(g, fuel - 5);
  }

  // ---------------------------------------------------------------------------
  // 2 * 3 + 4 * 5: a looser operator reduces the tighter one pending below it.
  // Bk is the configuration after k tokens, and BkStep consumes token k.

  const T2 := ["#2", "**", "#3", "*+", "#4", "**", "#5"]
  const N5 := Num("5")
  const M23 := Node("mul", [N2, N3])
  const B1 := Config(Env(1, [N2], [], AfterExp), [], NoFailure)
  const B2 := Config(Env(2, [N2], [PMul], BeforeExp), [], NoFailure)
  const B3 := Config(Env(3, [N2, N3], [PMul], AfterExp), [], NoFailure)
  const B4 := Config(Env(4, [M23], [PAdd], BeforeExp), [], NoFailure)
  const B5 := Config(Env(5, [M23, N4], [PAdd], AfterExp), [], NoFailure)
  const B6 := Config(Env(6, [M23, N4], [PAdd, PMul], BeforeExp), [], NoFailure)
  const B7 := Config(Env(7, [M23, N4, N5], [PAdd, PMul], AfterExp), [], NoFailure)

  /** `2`: pushed as a leaf. */
  lemma B0Step(g: Grammar, fuel: nat)
    requires fuel >= 1
    ensures Run(g, T2, Initial, fuel) == Run(g, T2, B1, fuel - 1)
  {
    StepNumber(g, T2, Initial, "2");
    RunStep(g, T2, Initial, B1, fuel);
  }
  /** `*` after an expression: `mul` is pushed. */
  lemma B1Step(g: Grammar, fuel: nat)
    requires fuel >= 1 && Lookup(g.expStart, "*") == Some([MulE])
    ensures Run(g, T2, B1, fuel) == Run(g, T2, B2, fuel - 1)
  {
    PushBinary(g, MulE, PMul, [], [N2]);
    StepExtend(g, T2, B1, "*", MulE);
    RunStep(g, T2, B1, B2, fuel);
  }
  /** `3`: pushed as a leaf. */
  lemma B2Step(g: Grammar, fuel: nat)
    requires fuel >= 1
    ensures Run(g, T2, B2, fuel) == Run(g, T2, B3, fuel - 1)
  {
    StepNumber(g, T2, B2, "3");
    RunStep(g, T2, B2, B3, fuel);
  }
  /** `+` after an expression: the pending `mul` is reduced, then `add` is pushed. */
  lemma B3Step(g: Grammar, fuel: nat)
    requires fuel >= 1 && Lookup(g.expStart, "+") == Some([AddE]) && FindOper(g.ops, "mul") == Some(MulE)
    ensures Run(g, T2, B3, fuel) == Run(g, T2, B4, fuel - 1)
  {
    ReduceBinary(g.ops, MulE, [PMul], [N2, N3]);
    assert [N2, N3][..0] == [] && [N2, N3][0..] == [N2, N3] && [PMul][..0] == [];
    assert [PMul][0] == PMul && [] + [M23] == [M23];
    assert PushExp(g.ops, [PMul], [N2, N3]) == Ok(([], [M23]));
    assert Unwind(g.ops, [PMul], [N2, N3], 4) == Ok(([], [M23]));
    PushBinary(g, AddE, PAdd, [], [M23]);
    StepExtend(g, T2, B3, "+", AddE);
    RunStep(g, T2, B3, B4, fuel);
  }
  /** `4`: pushed as a leaf. */
  lemma B4Step(g: Grammar, fuel: nat)
    requires fuel >= 1
    ensures Run(g, T2, B4, fuel) == Run(g, T2, B5, fuel - 1)
  {
    StepNumber(g, T2, B4, "4");
    RunStep(g, T2, B4, B5, fuel);
  }
  /** `*` after an expression: `mul` is pushed above the pending `add`. */
  lemma B5Step(g: Grammar, fuel: nat)
    requires fuel >= 1 && Lookup(g.expStart, "*") == Some([MulE])
    ensures Run(g, T2, B5, fuel) == Run(g, T2, B6, fuel - 1)
  {
    assert Unwind(g.ops, [PAdd], [M23, N4], 3) == Ok(([PAdd], [M23, N4]));
    PushBinary(g, MulE, PMul, [PAdd], [M23, N4]);
    StepExtend(g, T2, B5, "*", MulE);
    RunStep(g, T2, B5, B6, fuel);
  }
  /** `5`: pushed as a leaf. */
  lemma B6Step(g: Grammar, fuel: nat)
    requires fuel >= 1
    ensures Run(g, T2, B6, fuel) == Run(g, T2, B7, fuel - 1)
  {
    StepNumber(g, T2, B6, "5");
    RunStep(g, T2, B6, B7, fuel);
  }
  /** End of input: the drain builds add(mul(2, 3), mul(4, 5)). */
  lemma B7Drain(g: Grammar, fuel: nat)
    requires fuel >= 1 && FindOper(g.ops, "add") == Some(AddE) && FindOper(g.ops, "mul") == Some(MulE)
    ensures Run(g, T2, B7, fuel) == Ok(Node("add", [M23, Node("mul", [N4, N5])]))
  {
    RunDrain(g, T2, B7, fuel);
    DrainTwoBinary(g.ops, PAdd, PMul, AddE, MulE, M23, N4, N5);
  }

  /** `2 * 3 + 4 * 5` parses as add(mul(2, 3), mul(4, 5)). */
  lemma MulAddMul(g: Grammar, fuel: nat)
    requires Arithmetic(g) && fuel >= 8
    ensures Parse(g, ["#2", "**", "#3", "*+", "#4", "**", "#5"], fuel) ==
            Ok(Node("add", [Node("mul", [Num("2"), Num("3")]), Node("mul", [Num("4"), Num("5")])]))
  {
    B0Step(g, fuel);
    B1Step(g, fuel - 1);
    B2Step(g, fuel - 2);
    B3Step(g, fuel - 3);
    B4Step(g, fuel - 4);
    B5Step(g, fuel - 5);
    B6Step(g, fuel - 6);
    B7Drain(g, fuel - 7);
  }

  // ---------------------------------------------------------------------------
  // - 2 + 3: a prefix operator binds tighter than a following binary one.
  // Ck is the configuration after k tokens, and CkStep consumes token k.

  const T3 := ["*-", "#2", "*+", "#3"]
  const G2 := Node("neg", [N2])
  const C1 := Config(Env(1, [], [PNeg], BeforeExp), [], NoFailure)
  const C2 := Config(Env(2, [N2], [PNeg], AfterExp), [], NoFailure)
  const C3 := Config(Env(3, [G2], [PAdd], BeforeExp), [], NoFailure)
  const C4 := Config(Env(4, [G2, N3], [PAdd], AfterExp), [], NoFailure)

  /** `-` before an expression: `neg` is pushed. */
  lemma C0Step(g: Grammar, fuel: nat)
    requires fuel >= 1 && Lookup(g.signStart, "-") == Some([NegE])
    ensures Run(g, T3, Initial, fuel) == Run(g, T3, C1, fuel - 1)
  {
    assert RestItems(NegE.pattern) == [];
    assert Start(g.priIds, NegE) == (PNeg, BeforeExp);
    StepSignStart(g, T3, Initial, "-", NegE);
    RunStep(g, T3, Initial, C1, fuel);
  }
  /** `2`: pushed as a leaf. */
  lemma C1Step(g: Grammar, fuel: nat)
    requires fuel >= 1
    ensures Run(g, T3, C1, fuel) == Run(g, T3, C2, fuel - 1)
  {
    StepNumber(g, T3, C1, "2");
    RunStep(g, T3, C1, C2, fuel);
  }
  /** `+` after an expression: the pending `neg` is reduced, then `add` is pushed. */
  lemma C2Step(g: Grammar, fuel: nat)
    requires fuel >= 1 && Lookup(g.expStart, "+") == Some([AddE]) && FindOper(g.ops, "neg") == Some(NegE)
    ensures Run(g, T3, C2, fuel) == Run(g, T3, C3, fuel - 1)
  {
    NegUnary();
    ReduceUnary(g.ops, NegE, [PNeg], [N2]);
    assert [N2][..0] == [] && [N2][0..] == [N2] && [PNeg][..0] == [];
    assert [PNeg][0] == PNeg && [] + [G2] == [G2];
    assert PushExp(g.ops, [PNeg], [N2]) == Ok(([], [G2]));
    assert Unwind(g.ops, [PNeg], [N2], 4) == Ok(([], [G2]));
    PushBinary(g, AddE, PAdd, [], [G2]);
    StepExtend(g, T3, C2, "+", AddE);
    RunStep(g, T3, C2, C3, fuel);
  }
  /** `3`: pushed as a leaf. */
  lemma C3Step(g: Grammar, fuel: nat)
    requires fuel >= 1
    ensures Run(g, T3, C3, fuel) == Run(g, T3, C4, fuel - 1)
  {
    StepNumber(g, T3, C3, "3");
    RunStep(g, T3, C3, C4, fuel);
  }
  /** End of input: the drain builds add(neg(2), 3). */
  lemma C4Drain(g: Grammar, fuel: nat)
    requires fuel >= 1 && FindOper(g.ops, "add") == Some(AddE)
    ensures Run(g, T3, C4, fuel) == Ok(Node("add", [G2, N3]))
  {
    RunDrain(g, T3, C4, fuel);
    DrainOneBinary(g.ops, PAdd, AddE, G2, N3);
  }

  /** `- 2 + 3` parses as add(neg(2), 3). */
  lemma NegAdd(g: Grammar, fuel: nat)
    requires Arithmetic(g) && fuel >= 5
    ensures Parse(g, ["*-", "#2", "*+", "#3"], fuel) == Ok(Node("add", [Node("neg", [Num("2")]), Num("3")]))
  {
    C0Step(g, fuel);
    C1Step(g, fuel - 1);
    C2Step(g, fuel - 2);
    C3Step(g, fuel - 3);
    C4Drain(g, fuel - 4);
  }
}
