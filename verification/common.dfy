/**
 * The static operator table of the Compute expression language and the
 * indices derived from it once at start-up: the deduplicated sign list, the
 * level-id list, the flattened operator list, and `PopArgs`, which fixes each
 * operator's arity and the order of its arguments.
 */
module Common {

  datatype Option<+T> = None | Some(value: T)

  /** Internal errors: defects of the table or of the parser, never of the user's input. */
  datatype InternalKind =
    | IdNotFound          // popArgs: no operator carries the id
    | MissingArgs         // popArgs: the expression stack is shorter than the arity
    | NoSign              // get_first_sign: a pattern without a single sign item
    | UnexpectedPattern   // get_oper2parse: left-associative, ends with an expression, last item no hole
    | TwoHoles            // parse: a pending operator expects two expressions in a row
    | BrokenState         // a state the JavaScript code only leaves through a TypeError
    | EmptyResult         // the final expression stack is empty (the JavaScript code returns undefined)

  /** Syntax errors: the user-facing kinds, each raised at a token index. */
  datatype SyntaxKind =
    | ExpressionAtEnd               // input ends where an expression is needed
    | SignAtEnd(sign: string)       // input ends where `sign` is needed
    | ExpressionBefore(sign: string) // `sign` needs an expression before it
    | UnexpectedSign(sign: string)  // `sign` fits nowhere (reported with priority -5)
    | TwoExpressions                // two expressions with no operator between them
    | SignRequired(sign: string)    // exactly `sign` was required here

  datatype Error =
    | SyntaxError(at: int, syntax: SyntaxKind)
    | InternalError(internal: InternalKind)
    | OutOfFuel                     // the fuel bound of the model ran out (not a source behaviour)

  datatype Result<+T> = Ok(value: T) | Fail(error: Error)

  /** One slot of a pattern: a literal sign, or a hole for a sub-expression with an optional level-id limit. */
  datatype PatternItem = SignItem(sign: string) | Hole(limit: Option<string>)

  /** `Chain` attaches to an adjacent expression on one side; `Value` is fully delimited. */
  datatype OperKind = Chain | Value

  datatype Operator = Operator(id: string, kind: OperKind, pattern: seq<PatternItem>)

  /** A priority level; its index in the table is its priority (lower binds tighter). */
  datatype Level = Level(id: string, operators: seq<Operator>, isRight: bool)

  /** An operator tagged with the index of its level and that level's associativity. */
  datatype OperEntry = OperEntry(id: string, kind: OperKind, pattern: seq<PatternItem>, priority: nat, isRight: bool)

  /** The shipped operator table (`operator_proiorities`). */
  const Table: seq<Level> := [
    Level("atom", [
      Operator("pri", Value, [SignItem("("), Hole(None), SignItem(")")]),
      Operator("lst", Value, [SignItem("["), Hole(None), SignItem("]")]),
      Operator("blk", Value, [SignItem("{"), Hole(None), SignItem("}")]),
      Operator("glb", Chain, [SignItem("#")]),
      Operator("loc", Chain, [SignItem("$")])
    ], true),
    Level("pri", [
      Operator("dot", Chain, [SignItem("."), Hole(None)]),
      Operator("cal", Chain, [SignItem("("), Hole(None), SignItem(")")]),
      Operator("ind", Chain, [SignItem("["), Hole(None), SignItem("]")]),
      Operator("bcl", Chain, [SignItem("{"), Hole(None), SignItem("}")]),
      Operator("hsh", Chain, [SignItem("#"), Hole(None)])
    ], false),
    Level("ari_pref", [
      Operator("pos", Chain, [SignItem("+")]),
      Operator("neg", Chain, [SignItem("-")])
    ], true),
    Level("term", [
      Operator("mul", Chain, [SignItem("*"), Hole(None)]),
      Operator("div", Chain, [SignItem("/"), Hole(None)])
    ], false),
    Level("ari", [
      Operator("add", Chain, [SignItem("+"), Hole(None)]),
      Operator("sub", Chain, [SignItem("-"), Hole(None)])
    ], false),
    Level("cmp", [
      Operator("eq", Chain, [SignItem("=="), Hole(None)]),
      Operator("neq", Chain, [SignItem("!="), Hole(None)]),
      Operator("lt", Chain, [SignItem("<"), Hole(None)]),
      Operator("gt", Chain, [SignItem(">"), Hole(None)]),
      Operator("leq", Chain, [SignItem("<="), Hole(None)]),
      Operator("geq", Chain, [SignItem(">="), Hole(None)])
    ], false),
    Level("asg", [
      Operator("asg", Chain, [Hole(None), SignItem("=")]),
      Operator("cas", Chain, [Hole(None), SignItem("$=")])
    ], true),
    Level("sep", [
      Operator("tup", Chain, [SignItem(","), Hole(None)]),
      Operator("tup_lst", Chain, [SignItem(",")])
    ], false),
    Level("stm", [
      Operator("stm", Chain, [SignItem(";"), Hole(None)]),
      Operator("stm_lst", Chain, [SignItem(";")])
    ], false)
  ]

  // ---------------------------------------------------------------------------
  // Generic sequence helpers

  predicate NoDup<T(==)>(s: seq<T>) {
    forall i, j :: 0 <= i < j < |s| ==> s[i] != s[j]
  }

  /** The index of the first occurrence of `x` in `s`. */
  function FirstIndex<T(==)>(s: seq<T>, x: T): (k: nat)
    requires x in s
    ensures k < |s| && s[k] == x && x !in s[..k]
  {
    if s[0] == x then 0 else 1 + FirstIndex(s[1..], x)
  }

  /** `indexOf`: the first index of `x` in `s`, or -1. */
  function IndexOf<T(==)>(s: seq<T>, x: T): (k: int)
    ensures k == -1 <==> x !in s
    ensures k != -1 ==> 0 <= k < |s| && s[k] == x && x !in s[..k]
  {
    if |s| == 0 then -1
    else if s[0] == x then 0
    else var k := IndexOf(s[1..], x); if k == -1 then -1 else k + 1
  }

  /**
   * The elements of `s[..n]` without repetitions, in order of first
   * occurrence (the iteration order of a JavaScript `Set` built from them).
   */
  function DedupPrefix(s: seq<string>, n: nat): seq<string>
    requires n <= |s|
  {
    if n == 0 then []
    else
      var d := DedupPrefix(s, n - 1);
      if s[n - 1] in d then d else d + [s[n - 1]]
  }

  function Dedup(s: seq<string>): seq<string> {
    DedupPrefix(s, |s|)
  }

  lemma {:induction false} DedupPrefixSpec(s: seq<string>, n: nat)
    requires n <= |s|
    ensures NoDup(DedupPrefix(s, n))
    ensures forall x :: x in DedupPrefix(s, n) <==> x in s[..n]
    ensures forall i :: 0 <= i < |DedupPrefix(s, n)| ==> DedupPrefix(s, n)[i] in s
    ensures forall i, j :: 0 <= i < j < |DedupPrefix(s, n)| ==>
              FirstIndex(s, DedupPrefix(s, n)[i]) < FirstIndex(s, DedupPrefix(s, n)[j])
  {
    if n > 0 {
      DedupPrefixSpec(s, n - 1);
      var d := DedupPrefix(s, n - 1);
      assert s[..n] == s[..n - 1] + [s[n - 1]];
      if s[n - 1] !in d {
        FirstIndexUnique(s, s[n - 1], n - 1);
        forall i | 0 <= i < |d| ensures d[i] in s && FirstIndex(s, d[i]) < n - 1 {
          FirstIndexBelow(s, d[i], n - 1);
        }
      }
    }
  }

  /**
   * `Dedup` keeps one copy of every element, and keeps them in the order of
   * their first occurrences.
   */
  lemma DedupSpec(s: seq<string>)
    ensures NoDup(Dedup(s))
    ensures forall x :: x in Dedup(s) <==> x in s
    ensures forall i, j :: 0 <= i < j < |Dedup(s)| ==> FirstIndex(s, Dedup(s)[i]) < FirstIndex(s, Dedup(s)[j])
  {
    DedupPrefixSpec(s, |s|);
    assert s[..|s|] == s;
  }

  lemma FirstIndexBelow<T>(s: seq<T>, x: T, m: nat)
    requires m <= |s| && x in s[..m]
    ensures FirstIndex(s, x) < m
  {
    var k :| 0 <= k < m && s[..m][k] == x;
    assert s[k] == x;
  }

  lemma {:induction false} FirstIndexUnique<T>(s: seq<T>, x: T, k: nat)
    requires k < |s| && s[k] == x && x !in s[..k]
    ensures FirstIndex(s, x) == k
  {
    if k > 0 {
      assert s[..k][0] == s[0];
      assert s[1..][k - 1] == x;
      assert s[1..][..k - 1] == s[..k][1..];
      FirstIndexUnique(s[1..], x, k - 1);
    }
  }

  // ---------------------------------------------------------------------------
  // signs, pri_ids, opers

  /** The signs of one pattern, in order (`pattern.filter(sign).flatMap(sign)`). */
  function PatternSigns(p: seq<PatternItem>): seq<string> {
    if |p| == 0 then [] else (if p[0].SignItem? then [p[0].sign] else []) + PatternSigns(p[1..])
  }

  lemma {:induction false} PatternSignsMembers(p: seq<PatternItem>, x: string)
    ensures x in PatternSigns(p) <==> SignItem(x) in p
  {
    if |p| > 0 {
      PatternSignsMembers(p[1..], x);
      assert SignItem(x) in p <==> p[0] == SignItem(x) || SignItem(x) in p[1..];
    }
  }

  function OperatorsSigns(ops: seq<Operator>): seq<string> {
    if |ops| == 0 then [] else PatternSigns(ops[0].pattern) + OperatorsSigns(ops[1..])
  }

  function LevelsSigns(t: seq<Level>): seq<string> {
    if |t| == 0 then [] else OperatorsSigns(t[0].operators) + LevelsSigns(t[1..])
  }

  /** `signs`: every sign item of every pattern, deduplicated in first-occurrence order. */
  function Signs(t: seq<Level>): seq<string> {
    Dedup(LevelsSigns(t))
  }

  /** Whether some operator of the table has `SignItem(x)` in its pattern. */
  ghost predicate TableHasSign(t: seq<Level>, x: string) {
    exists p, j :: 0 <= p < |t| && 0 <= j < |t[p].operators| && SignItem(x) in t[p].operators[j].pattern
  }

  lemma {:induction false} OperatorsSignsMembers(ops: seq<Operator>, x: string)
    ensures x in OperatorsSigns(ops) <==> exists j :: 0 <= j < |ops| && SignItem(x) in ops[j].pattern
  {
    if |ops| > 0 {
      OperatorsSignsMembers(ops[1..], x);
      PatternSignsMembers(ops[0].pattern, x);
      if x in OperatorsSigns(ops[1..]) {
        var j :| 0 <= j < |ops[1..]| && SignItem(x) in ops[1..][j].pattern;
        assert SignItem(x) in ops[j + 1].pattern;
      }
      if j :| 0 <= j < |ops| && SignItem(x) in ops[j].pattern {
        if j > 0 {
          assert SignItem(x) in ops[1..][j - 1].pattern;
        }
      }
    }
  }

  lemma {:induction false} LevelsSignsMembers(t: seq<Level>, x: string)
    ensures x in LevelsSigns(t) <==> TableHasSign(t, x)
  {
    if |t| > 0 {
      LevelsSignsMembers(t[1..], x);
      OperatorsSignsMembers(t[0].operators, x);
      if x in OperatorsSigns(t[0].operators) {
        var j :| 0 <= j < |t[0].operators| && SignItem(x) in t[0].operators[j].pattern;
        assert TableHasSign(t, x) by {
          assert SignItem(x) in t[0].operators[j].pattern;
        }
      }
      if TableHasSign(t[1..], x) {
        var p, j :| 0 <= p < |t[1..]| && 0 <= j < |t[1..][p].operators| && SignItem(x) in t[1..][p].operators[j].pattern;
        assert SignItem(x) in t[p + 1].operators[j].pattern;
      }
      if TableHasSign(t, x) {
        var p, j :| 0 <= p < |t| && 0 <= j < |t[p].operators| && SignItem(x) in t[p].operators[j].pattern;
        if p > 0 {
          assert SignItem(x) in t[1..][p - 1].operators[j].pattern;
          assert TableHasSign(t[1..], x);
        }
      }
    }
  }

  /**
   * `signs` has no duplicates, holds exactly the sign items of the table's
   * patterns, and lists them in order of their first occurrence in the table.
   */
  lemma SignsSpec(t: seq<Level>)
    ensures NoDup(Signs(t))
    ensures forall x :: x in Signs(t) <==> x in LevelsSigns(t)
    ensures forall x :: x in Signs(t) <==> TableHasSign(t, x)
    ensures forall i, j :: 0 <= i < j < |Signs(t)| ==>
              FirstIndex(LevelsSigns(t), Signs(t)[i]) < FirstIndex(LevelsSigns(t), Signs(t)[j])
  {
    DedupSpec(LevelsSigns(t));
    forall x ensures x in Signs(t) <==> TableHasSign(t, x) {
      LevelsSignsMembers(t, x);
    }
  }

  /** `pri_ids`: the id of every level, by level index. */
  function PriIds(t: seq<Level>): (r: seq<string>)
    ensures |r| == |t|
    ensures forall n :: 0 <= n < |t| ==> r[n] == t[n].id
  {
    if |t| == 0 then [] else [t[0].id] + PriIds(t[1..])
  }

  function Tag(o: Operator, priority: nat, isRight: bool): OperEntry {
    OperEntry(o.id, o.kind, o.pattern, priority, isRight)
  }

  function TagLevel(ops: seq<Operator>, priority: nat, isRight: bool): (r: seq<OperEntry>)
    ensures |r| == |ops|
    ensures forall j :: 0 <= j < |ops| ==> r[j] == Tag(ops[j], priority, isRight)
  {
    if |ops| == 0 then [] else [Tag(ops[0], priority, isRight)] + TagLevel(ops[1..], priority, isRight)
  }

  /** The operators of levels `p` and later, each tagged with its level. */
  function OpersFrom(t: seq<Level>, p: nat): seq<OperEntry>
    requires p <= |t|
    decreases |t| - p
  {
    if p == |t| then [] else TagLevel(t[p].operators, p, t[p].isRight) + OpersFrom(t, p + 1)
  }

  /** `opers`: every operator of the table, in table order, tagged with its level. */
  function Opers(t: seq<Level>): seq<OperEntry> {
    OpersFrom(t, 0)
  }

  /** The number of operators in levels before `p`. */
  function Offset(t: seq<Level>, p: nat): nat
    requires p <= |t|
  {
    if p == 0 then 0 else Offset(t, p - 1) + |t[p - 1].operators|
  }

  lemma {:induction false} OffsetBounds(t: seq<Level>, q: nat, p: nat)
    requires q <= p <= |t|
    ensures Offset(t, q) <= Offset(t, p)
    decreases p - q
  {
    if q < p {
      OffsetBounds(t, q, p - 1);
    }
  }

  lemma {:induction false} OpersFromIndex(t: seq<Level>, q: nat, p: nat, j: nat)
    requires q <= p < |t| && j < |t[p].operators|
    ensures Offset(t, q) <= Offset(t, p)
    ensures Offset(t, p) - Offset(t, q) + j < |OpersFrom(t, q)|
    ensures OpersFrom(t, q)[Offset(t, p) - Offset(t, q) + j] == Tag(t[p].operators[j], p, t[p].isRight)
    decreases p - q
  {
    var head := TagLevel(t[q].operators, q, t[q].isRight);
    var tail := OpersFrom(t, q + 1);
    assert OpersFrom(t, q) == head + tail;
    if q < p {
      OpersFromIndex(t, q + 1, p, j);
      var k := Offset(t, p) - Offset(t, q + 1) + j;
      assert Offset(t, q + 1) == Offset(t, q) + |head|;
      assert (head + tail)[|head| + k] == tail[k];
    } else {
      assert (head + tail)[j] == head[j];
    }
  }

  lemma {:induction false} OpersFromLength(t: seq<Level>, q: nat)
    requires q <= |t|
    ensures |OpersFrom(t, q)| == Offset(t, |t|) - Offset(t, q)
    decreases |t| - q
  {
    if q < |t| {
      OpersFromLength(t, q + 1);
      OffsetBounds(t, q + 1, |t|);
    }
  }

  /** Operator `j` of level `p` sits in `opers` at index `Offset(t, p) + j`, tagged with its level. */
  ghost predicate PlacedInOpers(t: seq<Level>, p: nat, j: nat)
    requires p < |t| && j < |t[p].operators|
  {
    Offset(t, p) + j < |Opers(t)| && Opers(t)[Offset(t, p) + j] == Tag(t[p].operators[j], p, t[p].isRight)
  }

  /**
   * `opers` keeps table order: operator `j` of level `p` sits at index
   * `Offset(t, p) + j`, tagged with `p` and that level's `isRight`, and
   * `pri_ids` at an entry's priority is the id of its level.
   */
  lemma OpersSpec(t: seq<Level>)
    ensures |Opers(t)| == Offset(t, |t|)
    ensures forall p: nat, j: nat :: p < |t| && j < |t[p].operators| ==> PlacedInOpers(t, p, j)
    ensures forall k :: 0 <= k < |Opers(t)| ==>
              Opers(t)[k].priority < |t| && PriIds(t)[Opers(t)[k].priority] == t[Opers(t)[k].priority].id
  {
    OpersFromLength(t, 0);
    assert Offset(t, 0) == 0;
    assert Opers(t) == OpersFrom(t, 0);
    forall p: nat, j: nat | p < |t| && j < |t[p].operators|
      ensures PlacedInOpers(t, p, j)
    {
      OpersFromIndex(t, 0, p, j);
    }
    OpersFromPriority(t, 0);
  }

  lemma {:induction false} OpersFromPriority(t: seq<Level>, q: nat)
    requires q <= |t|
    ensures forall k :: 0 <= k < |OpersFrom(t, q)| ==> q <= OpersFrom(t, q)[k].priority < |t|
    decreases |t| - q
  {
    if q < |t| {
      OpersFromPriority(t, q + 1);
    }
  }

  // ---------------------------------------------------------------------------
  // Arity and popArgs

  /** `ArgTypeMain`: one argument per hole of the pattern, in pattern order. */
  function HoleArgs(p: seq<PatternItem>): nat {
    if |p| == 0 then 0 else (if p[0].Hole? then 1 else 0) + HoleArgs(p[1..])
  }

  /** `ArgTypeOf`: the chain part (one implicit outer expression) followed by the holes. */
  function Arity(kind: OperKind, pattern: seq<PatternItem>): nat {
    (if kind == Chain then 1 else 0) + HoleArgs(pattern)
  }

  /** The holes of a pattern (`pattern.filter(v => v.type == "exp")`). */
  function Holes(p: seq<PatternItem>): (r: seq<PatternItem>)
    ensures forall i :: 0 <= i < |r| ==> r[i].Hole?
  {
    if |p| == 0 then [] else (if p[0].Hole? then [p[0]] else []) + Holes(p[1..])
  }

  lemma {:induction false} HolesCount(p: seq<PatternItem>)
    ensures |Holes(p)| == HoleArgs(p)
  {
    if |p| > 0 {
      HolesCount(p[1..]);
    }
  }

  /** A chain operator takes its outer expression plus one argument per hole; a value operator only the holes. */
  lemma ArityHoles(kind: OperKind, pattern: seq<PatternItem>)
    ensures kind == Chain ==> Arity(kind, pattern) == 1 + |Holes(pattern)|
    ensures kind == Value ==> Arity(kind, pattern) == |Holes(pattern)|
  {
    HolesCount(pattern);
  }

  /** The first operator carrying `id` (`opers.filter(x => x.id == id)[0]`). */
  function FindOper(ops: seq<OperEntry>, id: string): (r: Option<OperEntry>)
    ensures r.None? <==> forall k :: 0 <= k < |ops| ==> ops[k].id != id
    ensures r.Some? ==> exists k :: 0 <= k < |ops| && ops[k] == r.value && r.value.id == id &&
                          forall m :: 0 <= m < k ==> ops[m].id != id
  {
    if |ops| == 0 then None
    else if ops[0].id == id then Some(ops[0])
    else
      var r := FindOper(ops[1..], id);
      if r.Some? then
        var k :| 0 <= k < |ops[1..]| && ops[1..][k] == r.value && r.value.id == id &&
                 forall m :: 0 <= m < k ==> ops[1..][m].id != id;
        assert ops[k + 1] == r.value;
        r
      else r
  }

  /**
   * Pops `n` elements off the top of `stack` one at a time; the popped
   * elements come back in pop order (former top first).
   */
  function PopEach<T>(stack: seq<T>, n: nat): (r: Result<(seq<T>, seq<T>)>)
    ensures r.Ok? <==> n <= |stack|
    ensures r.Fail? ==> r.error == InternalError(MissingArgs)
    ensures r.Ok? ==> r.value.0 == stack[..|stack| - n] && |r.value.1| == n &&
                      forall i :: 0 <= i < n ==> r.value.1[i] == stack[|stack| - 1 - i]
  {
    if n == 0 then Ok((stack, []))
    else if |stack| == 0 then Fail(InternalError(MissingArgs))
    else
      var top := stack[|stack| - 1];
      match PopEach(stack[..|stack| - 1], n - 1)
      case Fail(e) => Fail(e)
      case Ok((rest, popped)) => Ok((rest, [top] + popped))
  }

  function Reverse<T>(s: seq<T>): (r: seq<T>)
    ensures |r| == |s|
    ensures forall i :: 0 <= i < |s| ==> r[i] == s[|s| - 1 - i]
  {
    if |s| == 0 then [] else Reverse(s[1..]) + [s[0]]
  }

  /**
   * `popArgs`: looks the operator up by id, pops its chain part and then one
   * element per hole, and returns the popped elements reversed, together with
   * what remains of the stack.
   */
  function PopArgs<T>(ops: seq<OperEntry>, id: string, exps: seq<T>): Result<(seq<T>, seq<T>)> {
    match FindOper(ops, id)
    case None => Fail(InternalError(IdNotFound))
    case Some(op) =>
      var chainPart := if op.kind == Chain then 1 else 0;
      match PopEach(exps, chainPart + |Holes(op.pattern)|)
      case Fail(e) => Fail(e)
      case Ok((rest, popped)) => Ok((rest, Reverse(popped)))
  }

  /**
   * `popArgs` takes exactly the arity `ArgTypeOf` gives the operator (chain
   * part plus one per hole) off the top of the stack, leaves the rest of the
   * stack unchanged, and returns the arguments in stack order (the former top
   * last). It fails with IdNotFound for an unknown id and with MissingArgs when
   * the stack is shorter than the arity.
   */
  lemma PopArgsSpec<T>(ops: seq<OperEntry>, id: string, exps: seq<T>)
    ensures FindOper(ops, id).None? ==> PopArgs(ops, id, exps) == Fail(InternalError(IdNotFound))
    ensures FindOper(ops, id).Some? ==>
              var op := FindOper(ops, id).value;
              var n := Arity(op.kind, op.pattern);
              && (|exps| < n ==> PopArgs(ops, id, exps) == Fail(InternalError(MissingArgs)))
              && (n <= |exps| ==>
                    && PopArgs(ops, id, exps).Ok?
                    && |PopArgs(ops, id, exps).value.1| == n
                    && PopArgs(ops, id, exps).value.0 + PopArgs(ops, id, exps).value.1 == exps)
  {
    if FindOper(ops, id).Some? {
      var op := FindOper(ops, id).value;
      HolesCount(op.pattern);
      var n := Arity(op.kind, op.pattern);
      if n <= |exps| {
        var r := PopArgs(ops, id, exps).value;
        assert r.0 + r.1 == exps by {
          assert r.1 == exps[|exps| - n..];
          assert exps == exps[..|exps| - n] + exps[|exps| - n..];
        }
      }
    }
  }
}
