/**
 * `tokenize` itself: the tokenizer run with the sign list of the shipped
 * table. Every sign of that list is non-empty and free of whitespace, so the
 * facts proved of the tokenizer for any valid sign list hold of it.
 */
module ShippedTokens {
  import opened Common
  import opened Tokenizer

  // ---------------------------------------------------------------------------
  // The shipped sign list is valid

  /** Every sign item of the level's operators is non-empty and free of whitespace. */
  ghost predicate LevelGood(l: Level) {
    forall j, x :: 0 <= j < |l.operators| && SignItem(x) in l.operators[j].pattern ==> |x| > 0 && NoWhitespace(x)
  }

  ghost predicate SignsGood(t: seq<Level>) {
    forall p :: 0 <= p < |t| ==> LevelGood(t[p])
  }

  /** A table whose sign items are all good gives a sign list the tokenizer accepts. */
  lemma ValidFromLevels(t: seq<Level>)
    requires SignsGood(t)
    ensures ValidSigns(Signs(t))
  {
    SignsSpec(t);
    forall k | 0 <= k < |Signs(t)| ensures |Signs(t)[k]| > 0 && NoWhitespace(Signs(t)[k]) {
      var x := Signs(t)[k];
      assert TableHasSign(t, x);
    }
  }

  /** A sign item of some operator of the table is on the sign list. */
  lemma SignListed(t: seq<Level>, p: nat, j: nat, x: string)
    requires p < |t| && j < |t[p].operators| && SignItem(x) in t[p].operators[j].pattern
    ensures x in Signs(t)
  {
    SignsSpec(t);
  }

  // The shipped levels, split in two so that each half stays small.
  lemma GoodSignsLow(p: nat)
    requires p < 5
    ensures forall j, x :: 0 <= j < |Table[p].operators| && SignItem(x) in Table[p].operators[j].pattern ==>
              |x| > 0 && NoWhitespace(x)
  {
  }

  lemma GoodSignsHigh(p: nat)
    requires 5 <= p < |Table|
    ensures forall j, x :: 0 <= j < |Table[p].operators| && SignItem(x) in Table[p].operators[j].pattern ==>
              |x| > 0 && NoWhitespace(x)
  {
  }

  lemma GoodLevel(p: nat)
    requires p < |Table|
    ensures LevelGood(Table[p])
  {
    if p < 5 {
      GoodSignsLow(p);
    } else {
      GoodSignsHigh(p);
    }
  }

  lemma ShippedSignsGood()
    ensures SignsGood(Table)
  {
    forall p | 0 <= p < |Table| ensures LevelGood(Table[p]) {
      GoodLevel(p);
    }
  }

  lemma ShippedDot()
    ensures "." in Signs(Table)
  {
    assert Table[1].operators[0].pattern[0] == SignItem(".");
    SignListed(Table, 1, 0, ".");
  }

  /**
   * The sign list of the shipped table is one the tokenizer accepts: every
   * sign is non-empty and free of whitespace. It is not empty, and it holds
   * `.`, the sign of the `dot` operator.
   */
  lemma ShippedValidSigns()
    ensures ValidSigns(Signs(Table)) && |Signs(Table)| > 0 && "." in Signs(Table)
  {
    ShippedSignsGood();
    ValidFromLevels(Table);
    ShippedDot();
  }

  // ---------------------------------------------------------------------------
  // `tokenize`

  /**
   * `tokenize`: every token is a sign token for an unshadowed sign of the
   * shipped list, or a `#` token; the tokens' texts, joined, are the code
   * with its whitespace deleted.
   */
  function Tokenize(code: string): (r: seq<string>)
    ensures AllTokenShape(r, Signs(Table))
    ensures Payloads(r) == DeleteWhitespace(code)
  {
    ShippedValidSigns();
    TokenizeSpec(Signs(Table), code);
    TokenizeWith(Signs(Table), code)
  }

  /** Every token of `tokenize` is a sign of the shipped list or a number. */
  lemma ShippedClassify(code: string, i: nat)
    requires i < |Tokenize(code)|
    ensures Classify(Tokenize(code)[i]) != OtherToken
    ensures Classify(Tokenize(code)[i]).SignToken? ==> Classify(Tokenize(code)[i]).sign in Signs(Table)
  {
    ShippedValidSigns();
    TokenizeClassify(Signs(Table), code, i);
  }

  /** The fragments `tokenize` hands to the exponent fixup. */
  function Fragments(code: string): seq<string> {
    ShippedValidSigns();
    CutFragments(Signs(Table), code)
  }

  /** With the shipped list, whose `.` is a sign, every merged exponent has an integer mantissa. */
  lemma ShippedDecimalBranchDead(code: string, i: nat)
    requires MergesAt(Fragments(code), i)
    ensures var t := Fragments(code)[i];
            '.' !in t && IsInteger(t[1..|t| - 1])
  {
    ShippedValidSigns();
    DecimalBranchDead(Signs(Table), code, i);
  }

  // ---------------------------------------------------------------------------
  // `<`, `>` and `$` shadow `<=`, `>=` and `$=`

  lemma {:induction false} LevelsSignsAppend(a: seq<Level>, b: seq<Level>)
    ensures LevelsSigns(a + b) == LevelsSigns(a) + LevelsSigns(b)
    decreases |a|
  {
    if |a| == 0 {
      assert a + b == b;
    } else {
      assert (a + b)[0] == a[0] && (a + b)[1..] == a[1..] + b;
      LevelsSignsAppend(a[1..], b);
    }
  }

  lemma LevelsSignsSplit(t: seq<Level>, n: nat)
    requires n <= |t|
    ensures LevelsSigns(t) == LevelsSigns(t[..n]) + LevelsSigns(t[n..])
  {
    LevelsSignsAppend(t[..n], t[n..]);
    assert t[..n] + t[n..] == t;
  }

  /** The signs of a table: those of the levels before `n`, those of level `n`, then the rest. */
  lemma LevelsSignsAround(t: seq<Level>, n: nat)
    requires n < |t|
    ensures LevelsSigns(t) == LevelsSigns(t[..n]) + OperatorsSigns(t[n].operators) + LevelsSigns(t[n + 1..])
  {
    LevelsSignsSplit(t, n);
    var r := t[n..];
    assert r[0] == t[n] && r[1..] == t[n + 1..];
    assert LevelsSigns(r) == OperatorsSigns(r[0].operators) + LevelsSigns(r[1..]);
  }

  /** In `p + q`, a sign that occurs in `p` comes before one that occurs only in `q`. */
  lemma FirstBefore(p: seq<string>, q: seq<string>, x: string, y: string)
    requires x in p && y !in p && y in q
    ensures FirstIndex(p + q, x) < FirstIndex(p + q, y)
  {
    assert (p + q)[..|p|] == p;
    FirstIndexBelow(p + q, x, |p|);
  }

  /** A sign met earlier in the table's patterns sits at an earlier index of the sign list. */
  lemma SignOrder(t: seq<Level>, x: string, y: string) returns (j: nat, k: nat)
    requires x in LevelsSigns(t) && y in LevelsSigns(t)
    requires FirstIndex(LevelsSigns(t), x) < FirstIndex(LevelsSigns(t), y)
    ensures j < k < |Signs(t)| && Signs(t)[j] == x && Signs(t)[k] == y
  {
    SignsSpec(t);
    j :| 0 <= j < |Signs(t)| && Signs(t)[j] == x;
    k :| 0 <= k < |Signs(t)| && Signs(t)[k] == y;
  }

  /** No operator of the first `n` levels has the sign `x`. */
  ghost predicate AbsentBefore(t: seq<Level>, x: string, n: nat)
    requires n <= |t|
  {
    forall p, j :: 0 <= p < n && 0 <= j < |t[p].operators| ==> SignItem(x) !in t[p].operators[j].pattern
  }

  lemma NotAmongFirst(t: seq<Level>, x: string, n: nat)
    requires n <= |t| && AbsentBefore(t, x, n)
    ensures x !in LevelsSigns(t[..n])
  {
    LevelsSignsMembers(t[..n], x);
    forall p, j | 0 <= p < n && 0 <= j < |t[..n][p].operators|
      ensures SignItem(x) !in t[..n][p].operators[j].pattern
    {
      assert t[..n][p] == t[p];
    }
  }

  lemma {:induction false} OperatorsSignsAppend(a: seq<Operator>, b: seq<Operator>)
    ensures OperatorsSigns(a + b) == OperatorsSigns(a) + OperatorsSigns(b)
    decreases |a|
  {
    if |a| == 0 {
      assert a + b == b;
    } else {
      assert (a + b)[0] == a[0] && (a + b)[1..] == a[1..] + b;
      OperatorsSignsAppend(a[1..], b);
    }
  }

  /** No operator before the `m`-th of `ops` has the sign `x`. */
  ghost predicate AbsentOps(ops: seq<Operator>, x: string, m: nat)
    requires m <= |ops|
  {
    forall j :: 0 <= j < m ==> SignItem(x) !in ops[j].pattern
  }

  lemma OperatorsSignsHas(ops: seq<Operator>, x: string, i: nat)
    requires i < |ops| && SignItem(x) in ops[i].pattern
    ensures x in OperatorsSigns(ops)
  {
    OperatorsSignsMembers(ops, x);
  }

  lemma OperatorsSignsLacks(ops: seq<Operator>, x: string)
    requires AbsentOps(ops, x, |ops|)
    ensures x !in OperatorsSigns(ops)
  {
    OperatorsSignsMembers(ops, x);
  }

  lemma OperatorsSignsSplit(ops: seq<Operator>, m: nat)
    requires m <= |ops|
    ensures OperatorsSigns(ops) == OperatorsSigns(ops[..m]) + OperatorsSigns(ops[m..])
  {
    OperatorsSignsAppend(ops[..m], ops[m..]);
    assert ops[..m] + ops[m..] == ops;
  }

  lemma PrefixHas(ops: seq<Operator>, m: nat, x: string, jx: nat)
    requires jx < m <= |ops| && SignItem(x) in ops[jx].pattern
    ensures x in OperatorsSigns(ops[..m])
  {
    assert ops[..m][jx] == ops[jx];
    OperatorsSignsHas(ops[..m], x, jx);
  }

  lemma SuffixHas(ops: seq<Operator>, m: nat, y: string, jy: nat)
    requires m <= jy < |ops| && SignItem(y) in ops[jy].pattern
    ensures y in OperatorsSigns(ops[m..])
  {
    assert ops[m..][jy - m] == ops[jy];
    OperatorsSignsHas(ops[m..], y, jy - m);
  }

  lemma PrefixLacks(ops: seq<Operator>, m: nat, y: string)
    requires m <= |ops| && AbsentOps(ops, y, m)
    ensures y !in OperatorsSigns(ops[..m])
  {
    forall j | 0 <= j < m ensures SignItem(y) !in ops[..m][j].pattern {
      assert ops[..m][j] == ops[j];
    }
    OperatorsSignsLacks(ops[..m], y);
  }

  /**
   * When `y` is a sign of no level before `n`, and within level `n` the
   * `jx`-th operator has the sign `x` while `y` first shows up at the
   * `jy`-th operator, then `x` precedes `y` on the sign list.
   */
  lemma OrderWithinLevel(t: seq<Level>, n: nat, m: nat, x: string, y: string, jx: nat, jy: nat) returns (j: nat, k: nat)
    requires n < |t| && AbsentBefore(t, y, n)
    requires jx < m <= jy < |t[n].operators| && AbsentOps(t[n].operators, y, m)
    requires SignItem(x) in t[n].operators[jx].pattern && SignItem(y) in t[n].operators[jy].pattern
    ensures j < k < |Signs(t)| && Signs(t)[j] == x && Signs(t)[k] == y
  {
    var ops := t[n].operators;
    LevelsSignsAround(t, n);
    NotAmongFirst(t, y, n);
    OperatorsSignsSplit(ops, m);
    PrefixHas(ops, m, x, jx);
    PrefixLacks(ops, m, y);
    SuffixHas(ops, m, y, jy);
    Regroup(LevelsSigns(t), LevelsSigns(t[..n]), OperatorsSigns(ops), OperatorsSigns(ops[..m]), OperatorsSigns(ops[m..]),
            LevelsSigns(t[n + 1..]), x, y);
    j, k := OrderFromSplit(t, LevelsSigns(t[..n]) + OperatorsSigns(ops[..m]), OperatorsSigns(ops[m..]) + LevelsSigns(t[n + 1..]), x, y);
  }

  /** Regrouping `a + (s1 + s2) + c` as `(a + s1) + (s2 + c)` keeps `x` in the first part and `y` in the second only. */
  lemma Regroup(l: seq<string>, a: seq<string>, s: seq<string>, s1: seq<string>, s2: seq<string>, c: seq<string>, x: string, y: string)
    requires l == a + s + c && s == s1 + s2
    requires x in s1 && y !in a && y !in s1 && y in s2
    ensures l == (a + s1) + (s2 + c)
    ensures x in a + s1 && y !in a + s1 && y in s2 + c
  {
  }

  /** When the table's signs split into `p + q` with `x` in `p` and `y` only in `q`, `x` precedes `y` on the sign list. */
  lemma OrderFromSplit(t: seq<Level>, p: seq<string>, q: seq<string>, x: string, y: string) returns (j: nat, k: nat)
    requires LevelsSigns(t) == p + q && x in p && y !in p && y in q
    ensures j < k < |Signs(t)| && Signs(t)[j] == x && Signs(t)[k] == y
  {
    FirstBefore(p, q, x, y);
    j, k := SignOrder(t, x, y);
  }

  /**
   * When `x` is a sign of some level before `n`, and `y` is absent from
   * the levels before `n` but a sign of some level from `n` on, then `x`
   * precedes `y` on the sign list.
   */
  lemma OrderAcrossLevels(t: seq<Level>, n: nat, x: string, y: string, px: nat, jx: nat, py: nat, jy: nat)
    returns (j: nat, k: nat)
    requires px < n <= py < |t| && AbsentBefore(t, y, n)
    requires jx < |t[px].operators| && SignItem(x) in t[px].operators[jx].pattern
    requires jy < |t[py].operators| && SignItem(y) in t[py].operators[jy].pattern
    ensures j < k < |Signs(t)| && Signs(t)[j] == x && Signs(t)[k] == y
  {
    LevelsSignsAppend(t[..n], t[n..]);
    assert t[..n] + t[n..] == t;
    NotAmongFirst(t, y, n);
    assert t[..n][px] == t[px] && t[n..][py - n] == t[py];
    LevelsSignsMembers(t[..n], x);
    LevelsSignsMembers(t[n..], y);
    FirstBefore(LevelsSigns(t[..n]), LevelsSigns(t[n..]), x, y);
    j, k := SignOrder(t, x, y);
  }

  lemma CmpSignsLow(p: nat)
    requires p < 5
    ensures forall j :: 0 <= j < |Table[p].operators| ==>
              SignItem("<=") !in Table[p].operators[j].pattern && SignItem(">=") !in Table[p].operators[j].pattern
  {
  }

  lemma CasSignLow(p: nat)
    requires p < 6
    ensures forall j :: 0 <= j < |Table[p].operators| ==> SignItem("$=") !in Table[p].operators[j].pattern
  {
  }

  /** None of `<=`, `>=` is a sign of the levels before `cmp`, and `$=` is none of those before `asg`. */
  lemma LongSignsAbsent()
    ensures AbsentBefore(Table, "<=", 5) && AbsentBefore(Table, ">=", 5) && AbsentBefore(Table, "$=", 6)
  {
    forall p | 0 <= p < 5 {
      CmpSignsLow(p);
    }
    forall p | 0 <= p < 6 {
      CasSignLow(p);
    }
  }

  /** In `cmp`, `<` and `>` are the third and fourth operators, `<=` and `>=` the fifth and sixth. */
  lemma CmpOrder()
    ensures 5 < |Table[5].operators|
    ensures SignItem("<") in Table[5].operators[2].pattern && SignItem(">") in Table[5].operators[3].pattern
    ensures SignItem("<=") in Table[5].operators[4].pattern && SignItem(">=") in Table[5].operators[5].pattern
    ensures AbsentOps(Table[5].operators, "<=", 3) && AbsentOps(Table[5].operators, ">=", 4)
  {
    assert Table[5].operators[2].pattern[0] == SignItem("<") && Table[5].operators[3].pattern[0] == SignItem(">");
    assert Table[5].operators[4].pattern[0] == SignItem("<=") && Table[5].operators[5].pattern[0] == SignItem(">=");
  }

  lemma CasAndLoc()
    ensures 4 < |Table[0].operators| && SignItem("$") in Table[0].operators[4].pattern
    ensures 1 < |Table[6].operators| && SignItem("$=") in Table[6].operators[1].pattern
  {
    assert Table[0].operators[4].pattern[0] == SignItem("$");
    assert Table[6].operators[1].pattern[1] == SignItem("$=");
  }

  /** A later sign of a valid list that begins with an earlier sign never comes out of the tokenizer. */
  lemma ShadowedPair(signs: seq<string>, code: string, j: nat, k: nat, x: string, y: string, tok: string)
    requires ValidSigns(signs) && NoDup(signs) && j < k < |signs| && signs[j] == x && signs[k] == y
    requires |x| <= |y| && y[..|x|] == x && tok == "*" + y
    ensures tok !in TokenizeWith(signs, code)
  {
    assert FoundAt(y, x, 0);
    ShadowedNeverEmitted(signs, code, j, k);
  }

  lemma ShippedNoDup()
    ensures NoDup(Signs(Table))
  {
    SignsSpec(Table);
  }

  /** `<`, `>` and `$` begin `<=`, `>=` and `$=`. */
  lemma LongSignsPrefixed()
    ensures |"<"| <= |"<="| && "<="[..|"<"|] == "<" && "*<=" == "*" + "<="
    ensures |">"| <= |">="| && ">="[..|">"|] == ">" && "*>=" == "*" + ">="
    ensures |"$"| <= |"$="| && "$="[..|"$"|] == "$" && "*$=" == "*" + "$="
  {
  }

  /**
   * `tokenize` never emits `<=`, `>=` or `$=`: the shipped list puts `<`,
   * `>` and `$` first, and they cut every fragment those could occur in.
   */
  lemma ShippedShadowed(code: string)
    ensures "*<=" !in Tokenize(code) && "*>=" !in Tokenize(code) && "*$=" !in Tokenize(code)
  {
    LeqShadowed(code);
    GeqShadowed(code);
    CasShadowed(code);
  }

  lemma LeqShadowed(code: string)
    ensures "*<=" !in Tokenize(code)
  {
    ShippedValidSigns();
    ShippedNoDup();
    LeqNotCut(code);
  }

  lemma LeqNotCut(code: string)
    requires ValidSigns(Signs(Table)) && NoDup(Signs(Table))
    ensures "*<=" !in TokenizeWith(Signs(Table), code)
  {
    LongSignsPrefixed();
    var j, k := LtBeforeLeq();
    ShadowedPair(Signs(Table), code, j, k, "<", "<=", "*<=");
  }

  lemma GeqShadowed(code: string)
    ensures "*>=" !in Tokenize(code)
  {
    ShippedValidSigns();
    ShippedNoDup();
    GeqNotCut(code);
  }

  lemma GeqNotCut(code: string)
    requires ValidSigns(Signs(Table)) && NoDup(Signs(Table))
    ensures "*>=" !in TokenizeWith(Signs(Table), code)
  {
    LongSignsPrefixed();
    var j, k := GtBeforeGeq();
    ShadowedPair(Signs(Table), code, j, k, ">", ">=", "*>=");
  }

  lemma CasShadowed(code: string)
    ensures "*$=" !in Tokenize(code)
  {
    ShippedValidSigns();
    ShippedNoDup();
    CasNotCut(code);
  }

  lemma CasNotCut(code: string)
    requires ValidSigns(Signs(Table)) && NoDup(Signs(Table))
    ensures "*$=" !in TokenizeWith(Signs(Table), code)
  {
    LongSignsPrefixed();
    var j, k := LocBeforeCas();
    ShadowedPair(Signs(Table), code, j, k, "$", "$=", "*$=");
  }

  lemma LtBeforeLeq() returns (j: nat, k: nat)
    ensures j < k < |Signs(Table)| && Signs(Table)[j] == "<" && Signs(Table)[k] == "<="
  {
    LongSignsAbsent();
    CmpOrder();
    j, k := OrderWithinLevel(Table, 5, 3, "<", "<=", 2, 4);
  }

  lemma GtBeforeGeq() returns (j: nat, k: nat)
    ensures j < k < |Signs(Table)| && Signs(Table)[j] == ">" && Signs(Table)[k] == ">="
  {
    LongSignsAbsent();
    CmpOrder();
    j, k := OrderWithinLevel(Table, 5, 4, ">", ">=", 3, 5);
  }

  lemma LocBeforeCas() returns (j: nat, k: nat)
    ensures j < k < |Signs(Table)| && Signs(Table)[j] == "$" && Signs(Table)[k] == "$="
  {
    LongSignsAbsent();
    CasAndLoc();
    j, k := OrderAcrossLevels(Table, 6, "$", "$=", 0, 4, 6, 1);
  }
}
