/**
 * The backtracking precedence parser. A parse keeps a current environment
 * (position, expression stack, pending-operator stack, state) and a queue of
 * alternative environments; a sign that several operators start forks the
 * environment, and a failure records the furthest error and resumes the
 * front of the queue. The loop is `Step`, iterated by `Run` under a fuel
 * bound.
 */
module Parser {
  import opened Common
  import opened Grouping
  import Tokenizer

  /** The syntax tree: a number leaf keeps its lexeme, an operator node its id and arguments in order. */
  datatype AST = Num(lexeme: string) | Node(id: string, args: seq<AST>)

  /**
   * `Oper2Parse`: an operator waiting for the rest of its form, the items it
   * still expects, and the loosest level a trailing operand may have
   * (`None` for `null`; a lower number binds tighter).
   */
  datatype Pending = Pending(id: string, rest: seq<PatternItem>, priority: Option<int>)

  /** The three states: 0 before an expression, 1 after one, 2 where the next token must be a sign. */
  datatype Mode = BeforeExp | AfterExp | NeedSign

  /** `ParseEnvironment`. */
  datatype Env = Env(head: nat, exps: seq<AST>, opers: seq<Pending>, state: Mode)

  /** `cur_error`/`cur_at`/`cur_priority`: nothing recorded yet (position -1, priority 0), or the furthest failure. */
  datatype Best = NoFailure | Failure(error: Error, at: int, priority: int)

  /** The loop state: the current environment, the alternatives, the furthest failure. */
  datatype Config = Config(cur: Env, alts: seq<Env>, best: Best)

  /** What one turn of the loop leads to: another turn, or the end of `parse`. */
  datatype Outcome = Continue(next: Config) | Done(result: Result<AST>)

  // ---------------------------------------------------------------------------
  // get_oper2parse

  /**
   * `pattern.slice(start, end)` with `start` past a leading hole and the
   * first sign and `end` before a trailing hole: whatever lies strictly
   * between those, or nothing when they overlap.
   */
  function RestItems(p: seq<PatternItem>): (r: seq<PatternItem>)
    ensures var lead := if |p| > 0 && p[0].Hole? then 1 else 0;
            var trail := if |p| > 0 && p[|p| - 1].Hole? then 1 else 0;
            && (lead + 1 + trail <= |p| ==> p == p[..lead + 1] + r + p[|p| - trail..])
            && (|p| < lead + 1 + trail ==> r == [])
  {
    var start := if |p| > 0 && p[0].Hole? then 2 else 1;
    var end := if |p| > 0 && p[|p| - 1].Hole? then |p| - 1 else |p|;
    if start < end then p[start..end] else []
  }

  /** `get_oper2parse`: the pending form of an operator the parser has just met. */
  function OperToPending(priIds: seq<string>, v: OperEntry): Pending {
    var priority :=
      if !IsExpEnd(v) then None
      else if v.isRight then Some(v.priority as int)
      else
        var limit := v.pattern[|v.pattern| - 1].limit;
        if limit.None? then Some(v.priority - 1) else Some(IndexOf(priIds, limit.value));
    Pending(v.id, RestItems(v.pattern), priority)
  }

  /**
   * The priority is `null` exactly when the operator does not end with an
   * expression; otherwise it is the operator's own level when its level is
   * right-associative, and for a left-associative level (whose pattern then
   * ends with a hole) the level just below, or the index of the level named
   * by the hole's limit (-1 when no level has that id).
   */
  lemma OperToPendingSpec(priIds: seq<string>, v: OperEntry)
    ensures OperToPending(priIds, v).id == v.id
    ensures OperToPending(priIds, v).rest == RestItems(v.pattern)
    ensures OperToPending(priIds, v).priority.None? <==> !IsExpEnd(v)
    ensures IsExpEnd(v) && v.isRight ==> OperToPending(priIds, v).priority == Some(v.priority)
    ensures IsExpEnd(v) && !v.isRight ==>
              && |v.pattern| > 0 && v.pattern[|v.pattern| - 1].Hole?
              && var limit := v.pattern[|v.pattern| - 1].limit;
                 var pri := OperToPending(priIds, v).priority;
                 && (limit.None? ==> pri == Some(v.priority - 1))
                 && (limit.Some? && limit.value !in priIds ==> pri == Some(-1))
                 && (limit.Some? && limit.value in priIds ==>
                       pri.Some? && 0 <= pri.value < |priIds| && priIds[pri.value] == limit.value &&
                       limit.value !in priIds[..pri.value])
  {
  }

  /** `is_0` and the shift that goes with it: the pending form and the state a fork starts in. */
  function Start(priIds: seq<string>, v: OperEntry): (Pending, Mode) {
    var p := OperToPending(priIds, v);
    if |p.rest| > 0 && p.rest[0].SignItem? then (p, NeedSign) else (p.(rest := Shift(p.rest)), BeforeExp)
  }

  /** `Array.prototype.shift` on a value: drops the first element, if any. */
  function Shift<T>(s: seq<T>): seq<T> {
    if |s| == 0 then [] else s[1..]
  }

  // ---------------------------------------------------------------------------
  // push_exp and check_oper

  /** `push_exp`: pops the top pending operator and replaces its arguments on the expression stack by one node. */
  function PushExp(ops: seq<OperEntry>, opers: seq<Pending>, exps: seq<AST>): (r: Result<(seq<Pending>, seq<AST>)>)
    requires |opers| > 0
    ensures r.Ok? ==> r.value.0 == opers[..|opers| - 1]
    ensures r.Fail? ==> PopFailure(r.error)
  {
    var id := opers[|opers| - 1].id;
    match PopArgs(ops, id, exps)
    case Fail(e) => Fail(e)
    case Ok((rest, args)) => Ok((opers[..|opers| - 1], rest + [Node(id, args)]))
  }

  /**
   * `push_exp` shortens the pending stack by one and replaces the top
   * arity-many expressions by one node of the popped operator holding them
   * in order; it fails as `popArgs` does.
   */
  lemma PushExpSpec(ops: seq<OperEntry>, opers: seq<Pending>, exps: seq<AST>)
    requires |opers| > 0
    ensures var id := opers[|opers| - 1].id;
            FindOper(ops, id).None? ==> PushExp(ops, opers, exps) == Fail(InternalError(IdNotFound))
    ensures var id := opers[|opers| - 1].id;
            FindOper(ops, id).Some? ==>
              var n := Arity(FindOper(ops, id).value.kind, FindOper(ops, id).value.pattern);
              && (|exps| < n ==> PushExp(ops, opers, exps) == Fail(InternalError(MissingArgs)))
              && (n <= |exps| ==>
                    PushExp(ops, opers, exps) == Ok((opers[..|opers| - 1], exps[..|exps| - n] + [Node(id, exps[|exps| - n..])])))
  {
    var id := opers[|opers| - 1].id;
    PopArgsSpec(ops, id, exps);
    if FindOper(ops, id).Some? {
      var n := Arity(FindOper(ops, id).value.kind, FindOper(ops, id).value.pattern);
      if n <= |exps| {
        var r := PopArgs(ops, id, exps).value;
        assert r.0 == exps[..|exps| - n] && r.1 == exps[|exps| - n..] by {
          assert exps[..|exps| - n] == (r.0 + r.1)[..|r.0|];
          assert exps[|exps| - n..] == (r.0 + r.1)[|r.0|..];
        }
      }
    }
  }

  /** The two ways `popArgs` can throw. */
  predicate PopFailure(e: Error) {
    e == InternalError(IdNotFound) || e == InternalError(MissingArgs)
  }

  /** `check_oper`: what the top pending operator does once it has received a sign. */
  function CheckOper(ops: seq<OperEntry>, opers: seq<Pending>, exps: seq<AST>): (r: Result<(seq<Pending>, seq<AST>, Mode)>)
    requires |opers| > 0
    ensures r.Fail? ==> PopFailure(r.error)
  {
    var top := opers[|opers| - 1];
    if |top.rest| > 0 then
      if top.rest[0].SignItem? then Ok((opers, exps, NeedSign))
      else Ok((opers[..|opers| - 1] + [top.(rest := top.rest[1..])], exps, BeforeExp))
    else if top.priority.Some? then Ok((opers, exps, BeforeExp))
    else
      match PushExp(ops, opers, exps)
      case Fail(e) => Fail(e)
      case Ok((o, x)) => Ok((o, x, AfterExp))
  }

  /**
   * `check_oper` returns state 2 when the next expected item is a sign; it
   * drops the expected hole and returns 0 when it is a hole; it returns 0
   * when nothing is left but the operator still takes a trailing operand;
   * otherwise the operator is complete, it is reduced and the state is 1.
   * Only the top operator is touched, and state 2 leaves a sign on top.
   */
  lemma CheckOperSpec(ops: seq<OperEntry>, opers: seq<Pending>, exps: seq<AST>)
    requires |opers| > 0
    ensures var top := opers[|opers| - 1];
            var r := CheckOper(ops, opers, exps);
            && (|top.rest| > 0 && top.rest[0].SignItem? ==> r == Ok((opers, exps, NeedSign)))
            && (|top.rest| > 0 && top.rest[0].Hole? ==>
                  r.Ok? && r.value.2 == BeforeExp && r.value.1 == exps && |r.value.0| == |opers| &&
                  r.value.0[..|opers| - 1] == opers[..|opers| - 1] &&
                  r.value.0[|opers| - 1] == Pending(top.id, top.rest[1..], top.priority))
            && (|top.rest| == 0 && top.priority.Some? ==> r == Ok((opers, exps, BeforeExp)))
            && (|top.rest| == 0 && top.priority.None? ==>
                  && (PushExp(ops, opers, exps).Fail? ==> r == Fail(PushExp(ops, opers, exps).error))
                  && (PushExp(ops, opers, exps).Ok? ==>
                        r.Ok? && r.value.2 == AfterExp && r.value.0 == opers[..|opers| - 1]))
            && (r.Ok? && r.value.2 == NeedSign ==> SignNext(r.value.0))
  {
    var top := opers[|opers| - 1];
    if |top.rest| > 0 && top.rest[0].Hole? {
      var o := opers[..|opers| - 1] + [top.(rest := top.rest[1..])];
      assert o[..|opers| - 1] == opers[..|opers| - 1];
    }
    if |top.rest| == 0 && top.priority.None? && PushExp(ops, opers, exps).Ok? {
      PushExpSpec(ops, opers, exps);
    }
  }

  /** The next item the top pending operator expects is a sign (what state 2 relies on). */
  predicate SignNext(opers: seq<Pending>) {
    |opers| > 0 && |opers[|opers| - 1].rest| > 0 && opers[|opers| - 1].rest[0].SignItem?
  }

  // ---------------------------------------------------------------------------
  // Reductions

  /** A pending operator whose trailing operand may not be looser than `level`, so an operator of `level` closes it. */
  predicate Yields(p: Pending, level: int) {
    p.priority.Some? && p.priority.value < level
  }

  /**
   * The reduction loop of the state-1 fork: reduce the top operator while it
   * has a priority below the incoming operator's level (`null` stops it).
   */
  function Unwind(ops: seq<OperEntry>, opers: seq<Pending>, exps: seq<AST>, level: int): (r: Result<(seq<Pending>, seq<AST>)>)
    ensures r.Fail? ==> PopFailure(r.error)
    decreases |opers|
  {
    if |opers| > 0 && Yields(opers[|opers| - 1], level) then
      match PushExp(ops, opers, exps)
      case Fail(e) => Fail(e)
      case Ok((o, x)) => Unwind(ops, o, x, level)
    else Ok((opers, exps))
  }

  /**
   * `rest` is what an unwind towards `level` leaves of `opers`: a prefix
   * obtained by removing exactly the longest run of operators at the top
   * that yield to the level.
   */
  predicate Unwound(opers: seq<Pending>, rest: seq<Pending>, level: int) {
    && |rest| <= |opers|
    && rest == opers[..|rest|]
    && (forall j :: |rest| <= j < |opers| ==> Yields(opers[j], level))
    && (|rest| > 0 ==> !Yields(opers[|rest| - 1], level))
  }

  /** Removing one yielding operator from the top does not change where the unwind stops. */
  lemma UnwoundPop(opers: seq<Pending>, rest: seq<Pending>, level: int)
    requires |opers| > 0 && Yields(opers[|opers| - 1], level)
    requires Unwound(opers[..|opers| - 1], rest, level)
    ensures Unwound(opers, rest, level)
  {
    var o := opers[..|opers| - 1];
    assert forall j :: 0 <= j < |o| ==> o[j] == opers[j];
  }

  /** The unwind stops exactly where the run of yielding operators ends. */
  lemma {:induction false} UnwindSpec(ops: seq<OperEntry>, opers: seq<Pending>, exps: seq<AST>, level: int)
    ensures var r := Unwind(ops, opers, exps, level);
            r.Ok? ==> Unwound(opers, r.value.0, level)
    decreases |opers|
  {
    if |opers| > 0 && Yields(opers[|opers| - 1], level) && PushExp(ops, opers, exps).Ok? {
      var (o, x) := PushExp(ops, opers, exps).value;
      UnwindSpec(ops, o, x, level);
      var r := Unwind(ops, o, x, level);
      assert Unwind(ops, opers, exps, level) == r;
      if r.Ok? {
        UnwoundPop(opers, r.value.0, level);
      }
    }
  }

  /** `times` calls of `push_exp`. */
  function ReduceTimes(ops: seq<OperEntry>, opers: seq<Pending>, exps: seq<AST>, times: nat): (r: Result<(seq<Pending>, seq<AST>)>)
    requires times <= |opers|
    ensures r.Ok? ==> r.value.0 == opers[..|opers| - times]
    ensures r.Fail? ==> PopFailure(r.error)
  {
    if times == 0 then Ok((opers, exps))
    else
      match PushExp(ops, opers, exps)
      case Fail(e) => Fail(e)
      case Ok((o, x)) =>
        var r := ReduceTimes(ops, o, x, times - 1);
        assert r.Ok? ==> r.value.0 == opers[..|opers| - 1][..|o| - (times - 1)];
        r
  }

  /** `findLastIndex(v => v.rest_items.length)`: the topmost pending operator still expecting items, or -1. */
  function LastOpen(opers: seq<Pending>): (k: int)
    ensures -1 <= k < |opers|
    ensures k >= 0 ==> |opers[k].rest| > 0
    ensures forall j :: k < j < |opers| ==> |opers[j].rest| == 0
  {
    if |opers| == 0 then -1
    else if |opers[|opers| - 1].rest| > 0 then |opers| - 1
    else LastOpen(opers[..|opers| - 1])
  }

  /** The state-0 test: the topmost operator still expecting items expects exactly `sign` next. */
  predicate Awaits(opers: seq<Pending>, sign: string) {
    var k := LastOpen(opers);
    k >= 0 && opers[k].rest[0] == SignItem(sign)
  }

  /** The end of `parse`: reduce every pending operator, top first, and return the top expression. */
  function Drain(ops: seq<OperEntry>, opers: seq<Pending>, exps: seq<AST>): (r: Result<AST>)
    ensures r.Fail? ==> PopFailure(r.error) || r.error == InternalError(EmptyResult)
    decreases |opers|
  {
    if |opers| == 0 then
      if |exps| == 0 then Fail(InternalError(EmptyResult)) else Ok(exps[|exps| - 1])
    else
      match PushExp(ops, opers, exps)
      case Fail(e) => Fail(e)
      case Ok((o, x)) => Drain(ops, o, x)
  }

  /** One turn of the drain. */
  lemma DrainStep(ops: seq<OperEntry>, opers: seq<Pending>, exps: seq<AST>)
    requires |opers| > 0 && PushExp(ops, opers, exps).Ok?
    ensures Drain(ops, opers, exps) == Drain(ops, PushExp(ops, opers, exps).value.0, PushExp(ops, opers, exps).value.1)
  {
  }

  /**
   * Draining with nothing pending returns the top expression; otherwise a
   * successful drain returns a node of the bottom pending operator, the one
   * met first.
   */
  lemma {:induction false} DrainSpec(ops: seq<OperEntry>, opers: seq<Pending>, exps: seq<AST>)
    ensures |opers| == 0 && |exps| > 0 ==> Drain(ops, opers, exps) == Ok(exps[|exps| - 1])
    ensures |opers| > 0 && Drain(ops, opers, exps).Ok? ==>
              Drain(ops, opers, exps).value.Node? && Drain(ops, opers, exps).value.id == opers[0].id
    decreases |opers|
  {
    if |opers| > 0 && PushExp(ops, opers, exps).Ok? {
      var (o, x) := PushExp(ops, opers, exps).value;
      DrainSpec(ops, o, x);
      if |o| > 0 {
        assert o[0] == opers[0];
      }
    }
  }

  // ---------------------------------------------------------------------------
  // backtrack

  function BestAt(b: Best): int {
    if b.NoFailure? then -1 else b.at
  }

  function BestPriority(b: Best): int {
    if b.NoFailure? then 0 else b.priority
  }

  /**
   * The recording half of `backtrack`: `(cur_at - at || cur_priority -
   * priority) < 0`. A failure replaces the recorded one exactly when it is
   * further on, or at the same position with a strictly greater priority
   * argument.
   */
  function Record(b: Best, e: Error, at: int, priority: int): (r: Best)
    ensures r == if at > BestAt(b) || (at == BestAt(b) && priority > BestPriority(b)) then Failure(e, at, priority) else b
  {
    var d := BestAt(b) - at;
    if (if d != 0 then d else BestPriority(b) - priority) < 0 then Failure(e, at, priority) else b
  }

  /**
   * The first failure is always recorded; an unexpected sign (priority -5)
   * loses a tie at the same position against any other syntax error
   * (priority 0), in either order.
   */
  lemma RecordTies(e: Error, e': Error, at: nat)
    ensures Record(NoFailure, e, at, 0) == Failure(e, at, 0)
    ensures Record(NoFailure, e, at, -5) == Failure(e, at, -5)
    ensures Record(Failure(e, at, 0), e', at, -5) == Failure(e, at, 0)
    ensures Record(Failure(e, at, -5), e', at, 0) == Failure(e', at, 0)
    ensures Record(Failure(e, at, 0), e', at, 0) == Failure(e, at, 0)
  {
  }

  /**
   * `backtrack`: record the failure, then resume the front of the queue, or
   * end `parse` with the recorded failure when the queue is empty.
   */
  function Backtrack(alts: seq<Env>, best: Best, kind: SyntaxKind, at: nat, priority: int): (o: Outcome)
    ensures Record(best, SyntaxError(at, kind), at, priority).Failure?
    ensures |alts| > 0 ==> o.Continue? && o.next.cur == alts[0] && o.next.alts == alts[1..]
    ensures |alts| == 0 ==> o == Done(Fail(Record(best, SyntaxError(at, kind), at, priority).error))
  {
    var b := Record(best, SyntaxError(at, kind), at, priority);
    if |alts| > 0 then Continue(Config(alts[0], alts[1..], b)) else Done(Fail(b.error))
  }

  // ---------------------------------------------------------------------------
  // Forks

  /** The environments state 0 forks into, one per candidate, in candidate order. */
  function ForkBefore(priIds: seq<string>, cur: Env, cands: seq<OperEntry>): (r: seq<Env>)
    ensures |r| == |cands|
    ensures forall i :: 0 <= i < |cands| ==>
              r[i] == Env(cur.head + 1, cur.exps, cur.opers + [Start(priIds, cands[i]).0], Start(priIds, cands[i]).1)
  {
    if |cands| == 0 then []
    else
      var (p, m) := Start(priIds, cands[0]);
      [Env(cur.head + 1, cur.exps, cur.opers + [p], m)] + ForkBefore(priIds, cur, cands[1..])
  }

  /** One state-1 candidate: unwind to the candidate's level, then push it. */
  function ForkAfterOne(g: Grammar, cur: Env, v: OperEntry): (r: Result<Env>)
    ensures r.Fail? ==> PopFailure(r.error)
    ensures r.Ok? ==> r.value.head == cur.head + 1 && |r.value.opers| > 0 &&
                      r.value.opers[|r.value.opers| - 1] == Start(g.priIds, v).0 && r.value.state == Start(g.priIds, v).1
  {
    var (p, m) := Start(g.priIds, v);
    match Unwind(g.ops, cur.opers, cur.exps, v.priority)
    case Fail(e) => Fail(e)
    case Ok((o, x)) => Ok(Env(cur.head + 1, x, o + [p], m))
  }

  /** Applies `f` to the elements in order; the first failure ends it. */
  function MapAll<T, U>(f: T -> Result<U>, xs: seq<T>): (r: Result<seq<U>>)
    ensures r.Ok? ==> |r.value| == |xs|
  {
    if |xs| == 0 then Ok([])
    else
      match f(xs[0])
      case Fail(e) => Fail(e)
      case Ok(y) =>
        match MapAll(f, xs[1..])
        case Fail(e) => Fail(e)
        case Ok(ys) => Ok([y] + ys)
  }

  /** A successful map holds each element's own result, in order. */
  lemma {:induction false} MapAllOk<T, U>(f: T -> Result<U>, xs: seq<T>)
    ensures MapAll(f, xs).Ok? <==> forall i :: 0 <= i < |xs| ==> f(xs[i]).Ok?
    ensures MapAll(f, xs).Ok? ==> forall i :: 0 <= i < |xs| ==> f(xs[i]) == Ok(MapAll(f, xs).value[i])
  {
    if |xs| > 0 {
      var tail := xs[1..];
      MapAllOk(f, tail);
      assert forall i :: 1 <= i < |xs| ==> xs[i] == tail[i - 1];
      if f(xs[0]).Ok? && MapAll(f, tail).Ok? {
        var ys := MapAll(f, tail).value;
        assert MapAll(f, xs).value == [f(xs[0]).value] + ys;
        assert forall i :: 1 <= i < |xs| ==> MapAll(f, xs).value[i] == ys[i - 1];
      }
    }
  }

  /** A failed map fails with the result of the first element that fails. */
  lemma {:induction false} MapAllFails<T, U>(f: T -> Result<U>, xs: seq<T>)
    ensures MapAll(f, xs).Fail? ==>
              exists i :: 0 <= i < |xs| && f(xs[i]) == Fail(MapAll(f, xs).error) &&
                forall j :: 0 <= j < i ==> f(xs[j]).Ok?
  {
    if |xs| > 0 {
      var tail := xs[1..];
      MapAllFails(f, tail);
      if MapAll(f, xs).Fail? && f(xs[0]).Ok? {
        var i :| 0 <= i < |tail| && f(tail[i]) == Fail(MapAll(f, tail).error) &&
                 forall j :: 0 <= j < i ==> f(tail[j]).Ok?;
        assert xs[i + 1] == tail[i];
        assert forall j :: 1 <= j < i + 1 ==> xs[j] == tail[j - 1];
      }
    }
  }

  /** The environments state 1 forks into, one per candidate, in candidate order; the first failing reduction ends the parse. */
  function ForkAfter(g: Grammar, cur: Env, cands: seq<OperEntry>): (r: Result<seq<Env>>)
    ensures r.Ok? ==> |r.value| == |cands|
    ensures r.Fail? ==> PopFailure(r.error)
  {
    var f := (v: OperEntry) => ForkAfterOne(g, cur, v);
    MapAllFails(f, cands);
    MapAll(f, cands)
  }

  /**
   * The fork succeeds exactly when every candidate's reduction does, and the
   * environments are the candidates' own forks, in candidate order.
   */
  lemma ForkAfterSpec(g: Grammar, cur: Env, cands: seq<OperEntry>)
    ensures ForkAfter(g, cur, cands).Ok? <==> forall i :: 0 <= i < |cands| ==> ForkAfterOne(g, cur, cands[i]).Ok?
    ensures ForkAfter(g, cur, cands).Ok? ==>
              forall i :: 0 <= i < |cands| ==> ForkAfterOne(g, cur, cands[i]) == Ok(ForkAfter(g, cur, cands).value[i])
  {
    MapAllOk((v: OperEntry) => ForkAfterOne(g, cur, v), cands);
  }

  /** A failed fork fails with the reduction error of the first candidate whose reduction fails. */
  lemma ForkAfterFails(g: Grammar, cur: Env, cands: seq<OperEntry>)
    ensures ForkAfter(g, cur, cands).Fail? ==>
              exists i :: 0 <= i < |cands| && ForkAfterOne(g, cur, cands[i]) == Fail(ForkAfter(g, cur, cands).error) &&
                forall j :: 0 <= j < i ==> ForkAfterOne(g, cur, cands[j]).Ok?
  {
    MapAllFails((v: OperEntry) => ForkAfterOne(g, cur, v), cands);
  }

  // ---------------------------------------------------------------------------
  // The loop

  /** The loop condition at the end of the input, and what follows it. */
  function StepAtEnd(g: Grammar, n: nat, c: Config): Outcome {
    var cur := c.cur;
    match cur.state
    case AfterExp => Done(Drain(g.ops, cur.opers, cur.exps))
    case BeforeExp => Backtrack(c.alts, c.best, ExpressionAtEnd, n, 0)
    case NeedSign =>
      if SignNext(cur.opers) then Backtrack(c.alts, c.best, SignAtEnd(cur.opers[|cur.opers| - 1].rest[0].sign), n, 0)
      else Done(Fail(InternalError(BrokenState)))
  }

  /** State 0, before an expression. */
  function StepBefore(g: Grammar, c: Config, t: string): Outcome {
    var cur := c.cur;
    match Tokenizer.Classify(t)
    case SignToken(sign) =>
      (match Lookup(g.signStart, sign)
       case None =>
         if Lookup(g.expStart, sign).Some? || Awaits(cur.opers, sign) then
           Backtrack(c.alts, c.best, ExpressionBefore(sign), cur.head, 0)
         else Backtrack(c.alts, c.best, UnexpectedSign(sign), cur.head, -5)
       case Some(cands) =>
         var envs := ForkBefore(g.priIds, cur, cands);
         if |envs| == 0 then Done(Fail(InternalError(BrokenState)))
         else Continue(Config(envs[0], envs[1..] + c.alts, c.best)))
    case NumberToken(lexeme) =>
      Continue(c.(cur := Env(cur.head + 1, cur.exps + [Num(lexeme)], cur.opers, AfterExp)))
    case OtherToken =>
      Continue(c.(cur := cur.(head := cur.head + 1)))
  }

  /** State 1, closing sign: reduce everything above the operator at `k`, hand it the sign, then `check_oper`. */
  function Close(g: Grammar, c: Config, k: nat): Outcome
    requires k < |c.cur.opers| && |c.cur.opers[k].rest| > 0
  {
    var cur := c.cur;
    match ReduceTimes(g.ops, cur.opers, cur.exps, |cur.opers| - k - 1)
    case Fail(e) => Done(Fail(e))
    case Ok((o, x)) =>
      var top := o[k];
      match CheckOper(g.ops, o[..k] + [top.(rest := top.rest[1..])], x)
      case Fail(e) => Done(Fail(e))
      case Ok((o', x', m)) => Continue(c.(cur := Env(cur.head + 1, x', o', m)))
  }

  /** State 1, a sign no pending operator is waiting for: fork on the operators that start with an expression and this sign. */
  function Extend(g: Grammar, c: Config, sign: string): Outcome {
    var cur := c.cur;
    match Lookup(g.expStart, sign)
    case None =>
      if Lookup(g.signStart, sign).Some? then Backtrack(c.alts, c.best, TwoExpressions, cur.head, 0)
      else Backtrack(c.alts, c.best, UnexpectedSign(sign), cur.head, -5)
    case Some(cands) =>
      match ForkAfter(g, cur, cands)
      case Fail(e) => Done(Fail(e))
      case Ok(envs) =>
        if |envs| == 0 || |envs[0].opers| == 0 then Done(Fail(InternalError(BrokenState)))
        else
          var first := envs[0];
          match CheckOper(g.ops, first.opers, first.exps)
          case Fail(e) => Done(Fail(e))
          case Ok((o, x, m)) => Continue(Config(Env(first.head, x, o, m), envs[1..] + c.alts, c.best))
  }

  /** State 1, after an expression. */
  function StepAfter(g: Grammar, c: Config, t: string): Outcome {
    var cur := c.cur;
    match Tokenizer.Classify(t)
    case SignToken(sign) =>
      var k := LastOpen(cur.opers);
      if k >= 0 && cur.opers[k].rest[0].Hole? then Done(Fail(InternalError(TwoHoles)))
      else if k >= 0 && cur.opers[k].rest[0].sign == sign then Close(g, c, k)
      else Extend(g, c, sign)
    case _ => Backtrack(c.alts, c.best, TwoExpressions, cur.head, 0)
  }

  /** State 2: only the sign the top operator expects may come; `check_oper` runs without removing it. */
  function StepNeedSign(g: Grammar, c: Config, t: string): Outcome {
    var cur := c.cur;
    if !SignNext(cur.opers) then Done(Fail(InternalError(BrokenState)))
    else
      var req := cur.opers[|cur.opers| - 1].rest[0].sign;
      if Tokenizer.Classify(t) != Tokenizer.SignToken(req) then Backtrack(c.alts, c.best, SignRequired(req), cur.head, 0)
      else
        match CheckOper(g.ops, cur.opers, cur.exps)
        case Fail(e) => Done(Fail(e))
        case Ok((o, x, m)) => Continue(c.(cur := Env(cur.head + 1, x, o, m)))
  }

  /** One turn of the `parse` loop. */
  function Step(g: Grammar, tokens: seq<string>, c: Config): Outcome {
    if c.cur.head > |tokens| then Done(Fail(InternalError(BrokenState)))
    else if c.cur.head == |tokens| then StepAtEnd(g, |tokens|, c)
    else
      match c.cur.state
      case BeforeExp => StepBefore(g, c, tokens[c.cur.head])
      case AfterExp => StepAfter(g, c, tokens[c.cur.head])
      case NeedSign => StepNeedSign(g, c, tokens[c.cur.head])
  }

  /** The `parse` loop, for at most `fuel` turns. */
  function Run(g: Grammar, tokens: seq<string>, c: Config, fuel: nat): Result<AST>
    decreases fuel
  {
    if fuel == 0 then Fail(OutOfFuel)
    else
      match Step(g, tokens, c)
      case Done(r) => r
      case Continue(c') => Run(g, tokens, c', fuel - 1)
  }

  const Initial: Config := Config(Env(0, [], [], BeforeExp), [], NoFailure)

  /** `parse`. */
  function Parse(g: Grammar, tokens: seq<string>, fuel: nat): Result<AST> {
    Run(g, tokens, Initial, fuel)
  }
}
