/**
 * Facts about the `parse` loop: the shape every reachable configuration
 * keeps, so that the states the JavaScript code could only leave through a
 * TypeError never arise; the backtracking order; what happens at the end of
 * the input and after a complete expression; and the fact that state 2 never
 * leaves itself.
 */
module ParseFacts {
  import opened Common
  import opened Grouping
  import opened Parser
  import Tokenizer

  // ---------------------------------------------------------------------------
  // Well-formed configurations

  /** No group of the map is empty (so a fork always has a first candidate). */
  predicate NonEmptyGroups(gs: seq<Group>) {
    forall i :: 0 <= i < |gs| ==> |gs[i].members| > 0
  }

  predicate WFGrammar(g: Grammar) {
    NonEmptyGroups(g.signStart) && NonEmptyGroups(g.expStart)
  }

  /** An environment never runs past the input, and in state 2 its top operator expects a sign. */
  predicate WFEnv(e: Env, n: nat) {
    e.head <= n && (e.state == NeedSign ==> SignNext(e.opers))
  }

  /** Every environment is well formed, and the recorded failure, if any, is a syntax error. */
  predicate WFConfig(c: Config, n: nat) {
    && WFEnv(c.cur, n)
    && (forall i :: 0 <= i < |c.alts| ==> WFEnv(c.alts[i], n))
    && (c.best.Failure? ==> c.best.error.SyntaxError?)
  }

  lemma LookupNonEmpty(gs: seq<Group>, sign: string)
    requires NonEmptyGroups(gs) && Lookup(gs, sign).Some?
    ensures |Lookup(gs, sign).value| > 0
  {
    LookupSpec(gs, sign);
  }

  /** The grammar built from any table that `group_with_sign` accepts has no empty group. */
  lemma BuildGrammarWF(t: seq<Level>)
    requires BuildGrammar(t).Ok?
    ensures WFGrammar(BuildGrammar(t).value)
  {
    var ops := Opers(t);
    GroupWithSignSpec(SelectStart(ops, false));
    GroupWithSignSpec(SelectStart(ops, true));
  }

  lemma BacktrackWF(c: Config, kind: SyntaxKind, at: nat, priority: int, n: nat)
    requires WFConfig(c, n)
    ensures Backtrack(c.alts, c.best, kind, at, priority) != Done(Fail(InternalError(BrokenState)))
    ensures Backtrack(c.alts, c.best, kind, at, priority).Continue? ==>
              WFConfig(Backtrack(c.alts, c.best, kind, at, priority).next, n)
  {
    var b := Record(c.best, SyntaxError(at, kind), at, priority);
    assert b.error.SyntaxError?;
    if |c.alts| > 0 {
      var next := Backtrack(c.alts, c.best, kind, at, priority).next;
      forall i | 0 <= i < |next.alts| ensures WFEnv(next.alts[i], n) {
        assert next.alts[i] == c.alts[i + 1];
      }
    }
  }

  /** The forked environments behind the first one join the front of the queue. */
  lemma QueueWF(envs: seq<Env>, alts: seq<Env>, n: nat)
    requires |envs| > 0
    requires forall i :: 0 <= i < |envs| ==> WFEnv(envs[i], n)
    requires forall i :: 0 <= i < |alts| ==> WFEnv(alts[i], n)
    ensures forall i :: 0 <= i < |envs[1..] + alts| ==> WFEnv((envs[1..] + alts)[i], n)
  {
    var q := envs[1..] + alts;
    forall i | 0 <= i < |q| ensures WFEnv(q[i], n) {
      if i < |envs| - 1 {
        assert q[i] == envs[i + 1];
      } else {
        assert q[i] == alts[i - (|envs| - 1)];
      }
    }
  }

  lemma StepBeforeWF(g: Grammar, c: Config, t: string, n: nat)
    requires WFGrammar(g) && WFConfig(c, n) && c.cur.head < n
    ensures StepBefore(g, c, t) != Done(Fail(InternalError(BrokenState)))
    ensures StepBefore(g, c, t).Continue? ==> WFConfig(StepBefore(g, c, t).next, n)
  {
    var cur := c.cur;
    match Tokenizer.Classify(t)
    case SignToken(sign) => {
      match Lookup(g.signStart, sign)
      case None =>
        BacktrackWF(c, ExpressionBefore(sign), cur.head, 0, n);
        BacktrackWF(c, UnexpectedSign(sign), cur.head, -5, n);
      case Some(cands) =>
        LookupNonEmpty(g.signStart, sign);
        var envs := ForkBefore(g.priIds, cur, cands);
        forall i | 0 <= i < |envs| ensures WFEnv(envs[i], n) {
          var (p, m) := Start(g.priIds, cands[i]);
          assert envs[i] == Env(cur.head + 1, cur.exps, cur.opers + [p], m);
        }
        QueueWF(envs, c.alts, n);
    }
    case NumberToken(_) =>
    case OtherToken =>
  }

  lemma ExtendWF(g: Grammar, c: Config, sign: string, n: nat)
    requires WFGrammar(g) && WFConfig(c, n) && c.cur.head < n
    ensures Extend(g, c, sign) != Done(Fail(InternalError(BrokenState)))
    ensures Extend(g, c, sign).Continue? ==> WFConfig(Extend(g, c, sign).next, n)
  {
    var cur := c.cur;
    match Lookup(g.expStart, sign)
    case None =>
      BacktrackWF(c, TwoExpressions, cur.head, 0, n);
      BacktrackWF(c, UnexpectedSign(sign), cur.head, -5, n);
    case Some(cands) =>
      LookupNonEmpty(g.expStart, sign);
      if ForkAfter(g, cur, cands).Ok? {
        ForkAfterWF(g, c, cands, n);
      }
  }

  lemma ForkAfterWF(g: Grammar, c: Config, cands: seq<OperEntry>, n: nat)
    requires WFConfig(c, n) && c.cur.head < n && |cands| > 0 && ForkAfter(g, c.cur, cands).Ok?
    ensures var envs := ForkAfter(g, c.cur, cands).value;
            && |envs| > 0 && |envs[0].opers| > 0
            && (CheckOper(g.ops, envs[0].opers, envs[0].exps).Ok? ==>
                  var (o, x, m) := CheckOper(g.ops, envs[0].opers, envs[0].exps).value;
                  WFConfig(Config(Env(envs[0].head, x, o, m), envs[1..] + c.alts, c.best), n))
  {
    var envs := ForkAfter(g, c.cur, cands).value;
    ForkAfterSpec(g, c.cur, cands);
    forall i | 0 <= i < |envs| ensures WFEnv(envs[i], n) && |envs[i].opers| > 0 {
      assert ForkAfterOne(g, c.cur, cands[i]) == Ok(envs[i]);
    }
    var first := envs[0];
    CheckOperSpec(g.ops, first.opers, first.exps);
    QueueWF(envs, c.alts, n);
  }

  lemma StepAfterWF(g: Grammar, c: Config, t: string, n: nat)
    requires WFGrammar(g) && WFConfig(c, n) && c.cur.head < n
    ensures StepAfter(g, c, t) != Done(Fail(InternalError(BrokenState)))
    ensures StepAfter(g, c, t).Continue? ==> WFConfig(StepAfter(g, c, t).next, n)
  {
    var cur := c.cur;
    match Tokenizer.Classify(t)
    case SignToken(sign) =>
      var k := LastOpen(cur.opers);
      if k >= 0 && cur.opers[k].rest[0].Hole? {
      } else if k >= 0 && cur.opers[k].rest[0].sign == sign {
        match ReduceTimes(g.ops, cur.opers, cur.exps, |cur.opers| - k - 1) {
          case Fail(_) =>
          case Ok((o, x)) =>
            var top := o[k];
            CheckOperSpec(g.ops, o[..k] + [top.(rest := top.rest[1..])], x);
        }
      } else {
        ExtendWF(g, c, sign, n);
      }
    case NumberToken(_) =>
      BacktrackWF(c, TwoExpressions, cur.head, 0, n);
    case OtherToken =>
      BacktrackWF(c, TwoExpressions, cur.head, 0, n);
  }

  lemma StepNeedSignWF(g: Grammar, c: Config, t: string, n: nat)
    requires WFConfig(c, n) && c.cur.head < n && c.cur.state == NeedSign
    ensures StepNeedSign(g, c, t) != Done(Fail(InternalError(BrokenState)))
    ensures StepNeedSign(g, c, t).Continue? ==> WFConfig(StepNeedSign(g, c, t).next, n)
  {
    var cur := c.cur;
    var req := cur.opers[|cur.opers| - 1].rest[0].sign;
    BacktrackWF(c, SignRequired(req), cur.head, 0, n);
    CheckOperSpec(g.ops, cur.opers, cur.exps);
  }

  /**
   * One turn of the loop keeps the configuration well formed and never
   * reaches a state the JavaScript code could only leave through a
   * TypeError.
   */
  lemma StepWF(g: Grammar, tokens: seq<string>, c: Config)
    requires WFGrammar(g) && WFConfig(c, |tokens|)
    ensures Step(g, tokens, c) != Done(Fail(InternalError(BrokenState)))
    ensures Step(g, tokens, c).Continue? ==> WFConfig(Step(g, tokens, c).next, |tokens|)
  {
    var n := |tokens|;
    if c.cur.head == n {
      BacktrackWF(c, ExpressionAtEnd, n, 0, n);
      if c.cur.state == NeedSign {
        BacktrackWF(c, SignAtEnd(c.cur.opers[|c.cur.opers| - 1].rest[0].sign), n, 0, n);
      }
    } else {
      match c.cur.state
      case BeforeExp => StepBeforeWF(g, c, tokens[c.cur.head], n);
      case AfterExp => StepAfterWF(g, c, tokens[c.cur.head], n);
      case NeedSign => StepNeedSignWF(g, c, tokens[c.cur.head], n);
    }
  }

  /** From a well-formed configuration, the loop never fails with BrokenState. */
  lemma {:induction false} RunWF(g: Grammar, tokens: seq<string>, c: Config, fuel: nat)
    requires WFGrammar(g) && WFConfig(c, |tokens|)
    ensures Run(g, tokens, c, fuel) != Fail(InternalError(BrokenState))
    decreases fuel, 1
  {
    if fuel > 0 {
      StepWF(g, tokens, c);
      if Step(g, tokens, c).Done? {
        RunDone(g, tokens, c, Step(g, tokens, c).result, fuel);
      } else {
        RunWFNext(g, tokens, c, fuel);
      }
    }
  }

  /** The continuing case of `RunWF`: the loop goes on from a well-formed configuration. */
  lemma {:induction false} RunWFNext(g: Grammar, tokens: seq<string>, c: Config, fuel: nat)
    requires WFGrammar(g) && fuel > 0
    requires Step(g, tokens, c).Continue? && WFConfig(Step(g, tokens, c).next, |tokens|)
    ensures Run(g, tokens, c, fuel) != Fail(InternalError(BrokenState))
    decreases fuel, 0
  {
    var c' := Step(g, tokens, c).next;
    RunStep(g, tokens, c, c', fuel);
    RunWF(g, tokens, c', fuel - 1);
  }

  /** `parse` on the grammar of a table never fails with BrokenState. */
  lemma ParseWF(t: seq<Level>, tokens: seq<string>, fuel: nat)
    requires BuildGrammar(t).Ok?
    ensures Parse(BuildGrammar(t).value, tokens, fuel) != Fail(InternalError(BrokenState))
  {
    BuildGrammarWF(t);
    RunWF(BuildGrammar(t).value, tokens, Initial, fuel);
  }

  // ---------------------------------------------------------------------------
  // Forks and the queue

  /**
   * A sign in state 0 that starts operators forks one environment per
   * candidate, in group order: the first becomes current, the others go to
   * the front of the queue ahead of the older alternatives. Each consumes the
   * sign and pushes the candidate's pending form, in the state `is_0` picks.
   */
  lemma ForkOrderBefore(g: Grammar, tokens: seq<string>, c: Config, sign: string, cands: seq<OperEntry>)
    requires c.cur.state == BeforeExp && c.cur.head < |tokens|
    requires Tokenizer.Classify(tokens[c.cur.head]) == Tokenizer.SignToken(sign)
    requires Lookup(g.signStart, sign) == Some(cands) && |cands| > 0
    ensures Step(g, tokens, c).Continue?
    ensures var next := Step(g, tokens, c).next;
            && next.best == c.best
            && |next.alts| == |cands| - 1 + |c.alts|
            && next.alts[|cands| - 1..] == c.alts
            && (forall i :: 0 <= i < |cands| ==>
                  var e := if i == 0 then next.cur else next.alts[i - 1];
                  e == Env(c.cur.head + 1, c.cur.exps, c.cur.opers + [Start(g.priIds, cands[i]).0], Start(g.priIds, cands[i]).1))
  {
    var envs := ForkBefore(g.priIds, c.cur, cands);
    StepForks(g, tokens, c, sign, cands);
    var alts := envs[1..] + c.alts;
    assert alts[|cands| - 1..] == c.alts;
    forall i | 0 < i < |cands| ensures alts[i - 1] == envs[i] {
    }
  }

  lemma StepForks(g: Grammar, tokens: seq<string>, c: Config, sign: string, cands: seq<OperEntry>)
    requires c.cur.state == BeforeExp && c.cur.head < |tokens|
    requires Tokenizer.Classify(tokens[c.cur.head]) == Tokenizer.SignToken(sign)
    requires Lookup(g.signStart, sign) == Some(cands) && |cands| > 0
    ensures var envs := ForkBefore(g.priIds, c.cur, cands);
            Step(g, tokens, c) == Continue(Config(envs[0], envs[1..] + c.alts, c.best))
  {
    assert Step(g, tokens, c) == StepBefore(g, c, tokens[c.cur.head]);
  }

  /**
   * A sign in state 1 that no pending operator awaits forks one environment
   * per candidate that starts with an expression and that sign. Only the
   * first passes through `check_oper`; the alternatives keep the state
   * `is_0` gave them, and go to the front of the queue in group order.
   */
  lemma ForkOrderAfter(g: Grammar, tokens: seq<string>, c: Config, sign: string, cands: seq<OperEntry>)
    requires c.cur.state == AfterExp && c.cur.head < |tokens|
    requires Tokenizer.Classify(tokens[c.cur.head]) == Tokenizer.SignToken(sign)
    requires LastOpen(c.cur.opers) >= 0 ==>
               c.cur.opers[LastOpen(c.cur.opers)].rest[0].SignItem? && c.cur.opers[LastOpen(c.cur.opers)].rest[0].sign != sign
    requires Lookup(g.expStart, sign) == Some(cands) && |cands| > 0
    requires ForkAfter(g, c.cur, cands).Ok?
    ensures var first := ForkAfterOne(g, c.cur, cands[0]).value;
            CheckOper(g.ops, first.opers, first.exps).Ok? ==>
              && Step(g, tokens, c).Continue?
              && var next := Step(g, tokens, c).next;
                 && next.best == c.best
                 && next.cur.head == c.cur.head + 1
                 && CheckOper(g.ops, first.opers, first.exps) == Ok((next.cur.opers, next.cur.exps, next.cur.state))
                 && |next.alts| == |cands| - 1 + |c.alts|
                 && next.alts[|cands| - 1..] == c.alts
                 && (forall i :: 0 < i < |cands| ==>
                       && Ok(next.alts[i - 1]) == ForkAfterOne(g, c.cur, cands[i])
                       && next.alts[i - 1].head == c.cur.head + 1
                       && next.alts[i - 1].state == Start(g.priIds, cands[i]).1)
  {
    var envs := ForkAfter(g, c.cur, cands).value;
    ForkAfterSpec(g, c.cur, cands);
    assert ForkAfterOne(g, c.cur, cands[0]) == Ok(envs[0]);
    forall i | 0 < i < |cands| ensures ForkAfterOne(g, c.cur, cands[i]) == Ok(envs[i]) {
    }
  }

  // ---------------------------------------------------------------------------
  // Adjacent expressions and the end of the input

  /**
   * After a complete expression, a token that is not a sign fails at its
   * own index; with no alternative left and nothing recorded at or beyond
   * that index, the parse ends with exactly that error.
   */
  lemma AdjacentExpressions(g: Grammar, tokens: seq<string>, c: Config)
    requires c.cur.state == AfterExp && c.cur.head < |tokens|
    requires !Tokenizer.Classify(tokens[c.cur.head]).SignToken?
    ensures Step(g, tokens, c) == Backtrack(c.alts, c.best, TwoExpressions, c.cur.head, 0)
    ensures c.alts == [] && BestAt(c.best) < c.cur.head ==>
              Step(g, tokens, c) == Done(Fail(SyntaxError(c.cur.head, TwoExpressions)))
  {
  }

  /** `2 3`: two numbers in a row fail at position 1, whatever the grammar. */
  lemma ParseAdjacentNumbers(g: Grammar, a: string, b: string, fuel: nat)
    requires fuel >= 2
    ensures Parse(g, ["#" + a, "#" + b], fuel) == Fail(SyntaxError(1, TwoExpressions))
  {
    var tokens := ["#" + a, "#" + b];
    assert Tokenizer.Classify(tokens[0]) == Tokenizer.NumberToken(a);
    var c1 := Config(Env(1, [Num(a)], [], AfterExp), [], NoFailure);
    assert Step(g, tokens, Initial) == Continue(c1);
    assert Tokenizer.Classify(tokens[1]) == Tokenizer.NumberToken(b);
    AdjacentExpressions(g, tokens, c1);
    assert Run(g, tokens, c1, fuel - 1) == Fail(SyntaxError(1, TwoExpressions));
  }

  /**
   * At the end of the input, state 1 leaves the loop and drains: with no
   * operator pending the result is the top expression, otherwise a node of
   * the bottom pending operator. States 0 and 2 record a failure at position
   * `tokens.length` (an expression, or the sign the top operator expects, is
   * missing) and resume the next alternative.
   */
  lemma AtEnd(g: Grammar, tokens: seq<string>, c: Config)
    requires c.cur.head == |tokens|
    ensures c.cur.state == AfterExp ==>
              && Step(g, tokens, c).Done?
              && var r := Step(g, tokens, c).result;
                 && (|c.cur.opers| == 0 && |c.cur.exps| > 0 ==> r == Ok(c.cur.exps[|c.cur.exps| - 1]))
                 && (|c.cur.opers| > 0 && r.Ok? ==> r.value.Node? && r.value.id == c.cur.opers[0].id)
    ensures c.cur.state == BeforeExp ==>
              Step(g, tokens, c) == Backtrack(c.alts, c.best, ExpressionAtEnd, |tokens|, 0)
    ensures c.cur.state == NeedSign && SignNext(c.cur.opers) ==>
              Step(g, tokens, c) == Backtrack(c.alts, c.best, SignAtEnd(c.cur.opers[|c.cur.opers| - 1].rest[0].sign), |tokens|, 0)
  {
    DrainSpec(g.ops, c.cur.opers, c.cur.exps);
  }

  /** The empty input fails at position 0: an expression is needed. */
  lemma ParseEmpty(g: Grammar, fuel: nat)
    requires fuel >= 1
    ensures Parse(g, [], fuel) == Fail(SyntaxError(0, ExpressionAtEnd))
  {
  }

  // ---------------------------------------------------------------------------
  // State 2

  /**
   * In state 2 the required sign is consumed but never removed from the top
   * operator's items, so a match leaves the environment in state 2 with the
   * same stacks one token further on; anything else backtracks.
   */
  lemma NeedSignStep(g: Grammar, tokens: seq<string>, c: Config)
    requires c.cur.state == NeedSign && SignNext(c.cur.opers) && c.cur.head <= |tokens|
    ensures var req := c.cur.opers[|c.cur.opers| - 1].rest[0].sign;
            && (c.cur.head < |tokens| && tokens[c.cur.head] == "*" + req ==>
                  Step(g, tokens, c) == Continue(c.(cur := c.cur.(head := c.cur.head + 1))))
            && (c.cur.head < |tokens| && tokens[c.cur.head] != "*" + req ==>
                  Step(g, tokens, c) == Backtrack(c.alts, c.best, SignRequired(req), c.cur.head, 0))
            && (c.cur.head == |tokens| ==>
                  Step(g, tokens, c) == Backtrack(c.alts, c.best, SignAtEnd(req), |tokens|, 0))
  {
    var req := c.cur.opers[|c.cur.opers| - 1].rest[0].sign;
    if c.cur.head < |tokens| {
      var t := tokens[c.cur.head];
      assert Tokenizer.Classify(t) == Tokenizer.SignToken(req) <==> t == "*" + req;
      if t == "*" + req {
        CheckOperSpec(g.ops, c.cur.opers, c.cur.exps);
      }
    }
  }

  /** An environment in state 2 with no alternative behind it never yields a tree. */
  lemma {:induction false} NeedSignNeverSucceeds(g: Grammar, tokens: seq<string>, e: Env, best: Best, fuel: nat)
    requires e.state == NeedSign && SignNext(e.opers) && e.head <= |tokens|
    ensures Run(g, tokens, Config(e, [], best), fuel).Fail?
    decreases fuel
  {
    if fuel > 0 {
      var c := Config(e, [], best);
      NeedSignStep(g, tokens, c);
      if Step(g, tokens, c).Continue? {
        NeedSignNeverSucceeds(g, tokens, e.(head := e.head + 1), best, fuel - 1);
      }
    }
  }

  // ---------------------------------------------------------------------------
  // Closing signs

  /**
   * In state 1, when the topmost operator still expecting items expects the
   * incoming sign, every operator above it is reduced, the sign is consumed,
   * and that operator stays on top unless `check_oper` completes it; the
   * operators below it and the queue are untouched.
   */
  lemma ClosingSign(g: Grammar, tokens: seq<string>, c: Config, sign: string)
    requires c.cur.state == AfterExp && c.cur.head < |tokens|
    requires Tokenizer.Classify(tokens[c.cur.head]) == Tokenizer.SignToken(sign)
    requires LastOpen(c.cur.opers) >= 0 && c.cur.opers[LastOpen(c.cur.opers)].rest[0] == SignItem(sign)
    ensures var k := LastOpen(c.cur.opers);
            Step(g, tokens, c).Continue? ==>
              var next := Step(g, tokens, c).next;
              && next.alts == c.alts && next.best == c.best
              && next.cur.head == c.cur.head + 1
              && k <= |next.cur.opers| <= k + 1
              && next.cur.opers[..k] == c.cur.opers[..k]
              && (|next.cur.opers| == k + 1 ==> next.cur.opers[k].id == c.cur.opers[k].id)
  {
    var k := LastOpen(c.cur.opers);
    var cur := c.cur;
    if Step(g, tokens, c).Continue? {
      var (o, x) := ReduceTimes(g.ops, cur.opers, cur.exps, |cur.opers| - k - 1).value;
      var top := o[k];
      var o2 := o[..k] + [top.(rest := top.rest[1..])];
      CheckOperSpec(g.ops, o2, x);
      assert o2[..k] == cur.opers[..k];
    }
  }

  // ---------------------------------------------------------------------------
  // Single steps on a deterministic path

  /** In state 0 a number is pushed as a leaf, and the state becomes 1. */
  lemma StepNumber(g: Grammar, tokens: seq<string>, c: Config, lexeme: string)
    requires c.cur.state == BeforeExp && c.cur.head < |tokens| && tokens[c.cur.head] == "#" + lexeme
    ensures Step(g, tokens, c) ==
            Continue(c.(cur := Env(c.cur.head + 1, c.cur.exps + [Num(lexeme)], c.cur.opers, AfterExp)))
  {
    assert Tokenizer.Classify(tokens[c.cur.head]).NumberToken?;
  }

  /** In state 0 a token that is neither a sign nor a number is consumed, and nothing else changes. */
  lemma StepOther(g: Grammar, tokens: seq<string>, c: Config)
    requires c.cur.state == BeforeExp && c.cur.head < |tokens|
    requires |tokens[c.cur.head]| == 0 || (tokens[c.cur.head][0] != '*' && tokens[c.cur.head][0] != '#')
    ensures Step(g, tokens, c) == Continue(c.(cur := c.cur.(head := c.cur.head + 1)))
  {
    assert Tokenizer.Classify(tokens[c.cur.head]) == Tokenizer.OtherToken;
  }

  /** In state 0, a sign that starts exactly one operator pushes that operator's pending form. */
  lemma StepSignStart(g: Grammar, tokens: seq<string>, c: Config, sign: string, v: OperEntry)
    requires c.cur.state == BeforeExp && c.cur.head < |tokens| && tokens[c.cur.head] == "*" + sign
    requires Lookup(g.signStart, sign) == Some([v])
    ensures Step(g, tokens, c) ==
            Continue(c.(cur := Env(c.cur.head + 1, c.cur.exps, c.cur.opers + [Start(g.priIds, v).0], Start(g.priIds, v).1)))
  {
    assert Tokenizer.Classify(tokens[c.cur.head]) == Tokenizer.SignToken(sign);
    ForkOrderBefore(g, tokens, c, sign, [v]);
  }

  /**
   * In state 1, a sign the topmost open operator does not await (and which
   * does not meet an expected hole) and that exactly one operator starts
   * after an expression: the stack unwinds, that operator is pushed, and
   * `check_oper` runs.
   */
  lemma StepExtend(g: Grammar, tokens: seq<string>, c: Config, sign: string, v: OperEntry)
    requires c.cur.state == AfterExp && c.cur.head < |tokens| && tokens[c.cur.head] == "*" + sign
    requires !Awaits(c.cur.opers, sign)
    requires LastOpen(c.cur.opers) >= 0 ==> c.cur.opers[LastOpen(c.cur.opers)].rest[0].SignItem?
    requires Lookup(g.expStart, sign) == Some([v])
    requires Unwind(g.ops, c.cur.opers, c.cur.exps, v.priority).Ok?
    ensures var (o, x) := Unwind(g.ops, c.cur.opers, c.cur.exps, v.priority).value;
            CheckOper(g.ops, o + [Start(g.priIds, v).0], x).Ok? ==>
              var (o', x', m) := CheckOper(g.ops, o + [Start(g.priIds, v).0], x).value;
              Step(g, tokens, c) == Continue(c.(cur := Env(c.cur.head + 1, x', o', m)))
  {
    var (o, x) := Unwind(g.ops, c.cur.opers, c.cur.exps, v.priority).value;
    var e := Env(c.cur.head + 1, x, o + [Start(g.priIds, v).0], Start(g.priIds, v).1);
    assert ForkAfterOne(g, c.cur, v) == Ok(e);
    StepToExtend(g, tokens, c, sign);
    ExtendSingle(g, c, sign, v);
  }

  /** A sign no open operator awaits takes state 1 to the extension by an expression-start operator. */
  lemma StepToExtend(g: Grammar, tokens: seq<string>, c: Config, sign: string)
    requires c.cur.state == AfterExp && c.cur.head < |tokens| && tokens[c.cur.head] == "*" + sign
    requires !Awaits(c.cur.opers, sign)
    requires LastOpen(c.cur.opers) >= 0 ==> c.cur.opers[LastOpen(c.cur.opers)].rest[0].SignItem?
    ensures Step(g, tokens, c) == Extend(g, c, sign)
  {
    assert Tokenizer.Classify(tokens[c.cur.head]) == Tokenizer.SignToken(sign);
    assert Step(g, tokens, c) == StepAfter(g, c, tokens[c.cur.head]);
  }

  /** A single candidate whose reduction succeeds forks into exactly its own environment. */
  lemma ForkSingle(g: Grammar, cur: Env, v: OperEntry)
    requires ForkAfterOne(g, cur, v).Ok?
    ensures ForkAfter(g, cur, [v]) == Ok([ForkAfterOne(g, cur, v).value])
  {
    ForkAfterSpec(g, cur, [v]);
    var r := ForkAfter(g, cur, [v]).value;
    assert |r| == 1 && Ok(r[0]) == ForkAfterOne(g, cur, [v][0]);
    assert r == [r[0]];
  }

  /** With a single candidate, the extension runs `check_oper` on its fork and queues nothing. */
  lemma ExtendSingle(g: Grammar, c: Config, sign: string, v: OperEntry)
    requires Lookup(g.expStart, sign) == Some([v]) && ForkAfterOne(g, c.cur, v).Ok?
    ensures var first := ForkAfterOne(g, c.cur, v).value;
            CheckOper(g.ops, first.opers, first.exps).Ok? ==>
              var (o, x, m) := CheckOper(g.ops, first.opers, first.exps).value;
              Extend(g, c, sign) == Continue(Config(Env(first.head, x, o, m), c.alts, c.best))
  {
    ForkSingle(g, c.cur, v);
    var first := ForkAfterOne(g, c.cur, v).value;
    assert [first][1..] + c.alts == c.alts;
  }

  /**
   * In state 1, a sign the topmost open operator (at `k`) expects: the
   * operators above it are reduced, the sign is taken off its items, and
   * `check_oper` runs.
   */
  lemma StepClose(g: Grammar, tokens: seq<string>, c: Config, sign: string, k: nat,
                  o: seq<Pending>, x: seq<AST>, o': seq<Pending>, x': seq<AST>, m: Mode)
    requires c.cur.state == AfterExp && c.cur.head < |tokens| && tokens[c.cur.head] == "*" + sign
    requires LastOpen(c.cur.opers) == k && c.cur.opers[k].rest[0] == SignItem(sign)
    requires ReduceTimes(g.ops, c.cur.opers, c.cur.exps, |c.cur.opers| - k - 1) == Ok((o, x))
    requires CheckOper(g.ops, o[..k] + [o[k].(rest := o[k].rest[1..])], x) == Ok((o', x', m))
    ensures Step(g, tokens, c) == Continue(c.(cur := Env(c.cur.head + 1, x', o', m)))
  {
    assert Tokenizer.Classify(tokens[c.cur.head]) == Tokenizer.SignToken(sign);
    assert Step(g, tokens, c) == StepAfter(g, c, tokens[c.cur.head]);
    assert StepAfter(g, c, tokens[c.cur.head]) == Close(g, c, k);
  }

  /** A run is its steps chained: a turn that continues hands the rest of the fuel to the next configuration. */
  lemma RunStep(g: Grammar, tokens: seq<string>, c: Config, c': Config, fuel: nat)
    requires fuel > 0 && Step(g, tokens, c) == Continue(c')
    ensures Run(g, tokens, c, fuel) == Run(g, tokens, c', fuel - 1)
  {
  }

  lemma RunDone(g: Grammar, tokens: seq<string>, c: Config, r: Result<AST>, fuel: nat)
    requires fuel > 0 && Step(g, tokens, c) == Done(r)
    ensures Run(g, tokens, c, fuel) == r
  {
  }

  /** A run that reaches the end of the input in state 1 returns the drain of the stacks. */
  lemma RunDrain(g: Grammar, tokens: seq<string>, c: Config, fuel: nat)
    requires fuel > 0 && c.cur.state == AfterExp && c.cur.head == |tokens|
    ensures Run(g, tokens, c, fuel) == Drain(g.ops, c.cur.opers, c.cur.exps)
  {
  }

}
