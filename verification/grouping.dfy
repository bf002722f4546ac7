/**
 * How the parser sorts the operators of a table before parsing: which
 * operators start or end with an expression, the first sign of a pattern,
 * and the per-sign groups (`group_with_sign`), longest pattern first. The
 * two group maps and the tagged operator list make up the grammar the
 * parser runs on.
 */
module Grouping {
  import opened Common

  // ---------------------------------------------------------------------------
  // Classification

  /** `is_exp_start`: a chain operator whose form begins with an expression. */
  predicate IsExpStart(v: OperEntry) {
    v.kind == Chain && (!v.isRight || (|v.pattern| > 0 && v.pattern[0].Hole?))
  }

  /** `is_exp_end`: a chain operator whose form ends with an expression. */
  predicate IsExpEnd(v: OperEntry) {
    v.kind == Chain && (v.isRight || (|v.pattern| > 0 && v.pattern[|v.pattern| - 1].Hole?))
  }

  /** The operators whose `is_exp_start` is `start`, in order (`opers.filter(...)`). */
  function SelectStart(ops: seq<OperEntry>, start: bool): seq<OperEntry> {
    if |ops| == 0 then [] else (if IsExpStart(ops[0]) == start then [ops[0]] else []) + SelectStart(ops[1..], start)
  }

  /** An operator is selected exactly when it is in the list and its `is_exp_start` is `start`. */
  lemma {:induction false} SelectStartMembers(ops: seq<OperEntry>, start: bool)
    ensures forall o :: o in SelectStart(ops, start) <==> o in ops && IsExpStart(o) == start
  {
    if |ops| > 0 {
      SelectStartMembers(ops[1..], start);
      assert ops == [ops[0]] + ops[1..];
    }
  }

  /**
   * The operators that start with a sign and those that start with an
   * expression split the operator list: every operator lands in exactly one
   * of the two, and a value operator always starts with a sign and never
   * ends with an expression.
   */
  lemma {:induction false} SelectStartPartition(ops: seq<OperEntry>)
    ensures multiset(SelectStart(ops, false)) + multiset(SelectStart(ops, true)) == multiset(ops)
    ensures forall o :: o in SelectStart(ops, true) <==> o in ops && IsExpStart(o)
    ensures forall o :: o in SelectStart(ops, false) <==> o in ops && !IsExpStart(o)
    ensures forall o :: o in ops && o.kind == Value ==> o in SelectStart(ops, false) && !IsExpEnd(o)
  {
    SelectStartMembers(ops, true);
    SelectStartMembers(ops, false);
    SelectStartCount(ops);
  }

  lemma {:induction false} SelectStartCount(ops: seq<OperEntry>)
    ensures multiset(SelectStart(ops, false)) + multiset(SelectStart(ops, true)) == multiset(ops)
  {
    if |ops| > 0 {
      SelectStartCount(ops[1..]);
      assert ops == [ops[0]] + ops[1..];
      assert multiset(ops) == multiset([ops[0]]) + multiset(ops[1..]);
    }
  }

  // ---------------------------------------------------------------------------
  // First sign

  /** `get_first_sign`: the first sign item of the pattern, or an internal error when it has none. */
  function FirstSign(p: seq<PatternItem>): Result<string> {
    var s := PatternSigns(p);
    if |s| == 0 then Fail(InternalError(NoSign)) else Ok(s[0])
  }

  /**
   * `get_first_sign` fails, with NoSign, exactly when the pattern is all
   * holes; otherwise it returns the sign of the first sign item.
   */
  lemma {:induction false} FirstSignSpec(p: seq<PatternItem>)
    ensures FirstSign(p).Fail? <==> forall i :: 0 <= i < |p| ==> p[i].Hole?
    ensures FirstSign(p).Fail? ==> FirstSign(p).error == InternalError(NoSign)
    ensures FirstSign(p).Ok? ==>
              exists i :: 0 <= i < |p| && p[i] == SignItem(FirstSign(p).value) && forall j :: 0 <= j < i ==> p[j].Hole?
  {
    if |p| > 0 {
      FirstSignSpec(p[1..]);
      if !p[0].SignItem? {
        assert PatternSigns(p) == PatternSigns(p[1..]);
        if FirstSign(p).Ok? {
          var i :| 0 <= i < |p[1..]| && p[1..][i] == SignItem(FirstSign(p).value) && forall j :: 0 <= j < i ==> p[1..][j].Hole?;
          assert p[i + 1] == SignItem(FirstSign(p).value);
          assert forall j :: 0 <= j < i + 1 ==> p[j].Hole? by {
            forall j | 0 <= j < i + 1 ensures p[j].Hole? {
              if j > 0 {
                assert p[j] == p[1..][j - 1];
              }
            }
          }
        } else {
          forall i | 0 <= i < |p| ensures p[i].Hole? {
            if i > 0 {
              assert p[i] == p[1..][i - 1];
            }
          }
        }
      } else {
        assert p[0] == SignItem(FirstSign(p).value);
      }
    }
  }

  // ---------------------------------------------------------------------------
  // Group maps

  /** One entry of a `Map<Sign, OperType[]>`. */
  datatype Group = Group(sign: string, members: seq<OperEntry>)

  /** The keys of a group map, in insertion order. */
  function Keys(gs: seq<Group>): (r: seq<string>)
    ensures |r| == |gs|
    ensures forall i :: 0 <= i < |gs| ==> r[i] == gs[i].sign
  {
    if |gs| == 0 then [] else [gs[0].sign] + Keys(gs[1..])
  }

  /** `Map.get`: the members of the first entry for `sign`, if any. */
  function Lookup(gs: seq<Group>, sign: string): Option<seq<OperEntry>> {
    if |gs| == 0 then None
    else if gs[0].sign == sign then Some(gs[0].members)
    else Lookup(gs[1..], sign)
  }

  /** The members filed under `sign`; none when it is not a key. */
  function Members(gs: seq<Group>, sign: string): seq<OperEntry> {
    match Lookup(gs, sign)
    case None => []
    case Some(m) => m
  }

  /** `Map.has`. */
  lemma {:induction false} LookupSpec(gs: seq<Group>, sign: string)
    ensures Lookup(gs, sign).None? <==> sign !in Keys(gs)
    ensures Lookup(gs, sign).Some? ==>
              exists i :: 0 <= i < |gs| && gs[i] == Group(sign, Lookup(gs, sign).value)
  {
    if |gs| > 0 {
      LookupSpec(gs[1..], sign);
      assert Keys(gs) == [gs[0].sign] + Keys(gs[1..]);
      if gs[0].sign != sign && Lookup(gs, sign).Some? {
        var i :| 0 <= i < |gs[1..]| && gs[1..][i] == Group(sign, Lookup(gs, sign).value);
        assert gs[i + 1] == gs[1..][i];
      }
    }
  }

  /** One turn of the filing loop: `target.push(oper)` on the entry for `sign`, created at the end when missing. */
  function File(gs: seq<Group>, sign: string, o: OperEntry): seq<Group> {
    if |gs| == 0 then [Group(sign, [o])]
    else if gs[0].sign == sign then [Group(sign, gs[0].members + [o])] + gs[1..]
    else [gs[0]] + File(gs[1..], sign, o)
  }

  /**
   * Filing appends `o` to the members of `sign` and leaves every other entry
   * alone; a new key goes to the end, and the keys stay distinct.
   */
  lemma {:induction false} FileSpec(gs: seq<Group>, sign: string, o: OperEntry)
    ensures Keys(File(gs, sign, o)) == if sign in Keys(gs) then Keys(gs) else Keys(gs) + [sign]
    ensures forall s :: Members(File(gs, sign, o), s) == if s == sign then Members(gs, s) + [o] else Members(gs, s)
  {
    if |gs| > 0 {
      FileSpec(gs[1..], sign, o);
      assert Keys(gs) == [gs[0].sign] + Keys(gs[1..]);
      var f := File(gs, sign, o);
      if gs[0].sign == sign {
        assert Keys(f) == [sign] + Keys(gs[1..]);
        assert f[1..] == gs[1..];
      } else {
        assert f[0] == gs[0] && f[1..] == File(gs[1..], sign, o);
        assert Keys(f) == [gs[0].sign] + Keys(File(gs[1..], sign, o));
        forall s ensures Members(f, s) == if s == sign then Members(gs, s) + [o] else Members(gs, s) {
          if s != gs[0].sign {
            assert Lookup(f, s) == Lookup(File(gs[1..], sign, o), s);
            assert Lookup(gs, s) == Lookup(gs[1..], s);
            assert Members(f, s) == Members(File(gs[1..], sign, o), s);
            assert Members(gs, s) == Members(gs[1..], s);
          } else {
            assert Lookup(f, s) == Some(gs[0].members) == Lookup(gs, s);
          }
        }
      }
    }
  }

  lemma FileKeepsNoDup(gs: seq<Group>, sign: string, o: OperEntry)
    requires NoDup(Keys(gs))
    ensures NoDup(Keys(File(gs, sign, o)))
  {
    FileSpec(gs, sign, o);
    if sign !in Keys(gs) {
      var k := Keys(gs) + [sign];
      forall i, j | 0 <= i < j < |k| ensures k[i] != k[j] {
        if j == |k| - 1 {
          assert k[i] == Keys(gs)[i];
        } else {
          assert k[i] == Keys(gs)[i] && k[j] == Keys(gs)[j];
        }
      }
    }
  }

  /** `ops[..n]` filtered to the operators whose first sign is `sign`, in order. */
  function FiledUnder(ops: seq<OperEntry>, sign: string, n: nat): seq<OperEntry>
    requires n <= |ops|
  {
    if n == 0 then [] else FiledUnder(ops, sign, n - 1) + (if FirstSign(ops[n - 1].pattern) == Ok(sign) then [ops[n - 1]] else [])
  }

  lemma {:induction false} FiledUnderMembers(ops: seq<OperEntry>, sign: string, n: nat, o: OperEntry)
    requires n <= |ops|
    ensures o in FiledUnder(ops, sign, n) <==> exists i :: 0 <= i < n && ops[i] == o && FirstSign(o.pattern) == Ok(sign)
  {
    if n > 0 {
      FiledUnderMembers(ops, sign, n - 1, o);
    }
  }

  /** The first loop of `group_with_sign` over `ops[..n]`. */
  function CollectUpTo(ops: seq<OperEntry>, n: nat): Result<seq<Group>>
    requires n <= |ops|
  {
    if n == 0 then Ok([])
    else
      match CollectUpTo(ops, n - 1)
      case Fail(e) => Fail(e)
      case Ok(gs) =>
        match FirstSign(ops[n - 1].pattern)
        case Fail(e) => Fail(e)
        case Ok(sign) => Ok(File(gs, sign, ops[n - 1]))
  }

  /** The filing loop fails, with NoSign, exactly when some operator has no sign. */
  lemma {:induction false} CollectFails(ops: seq<OperEntry>, n: nat)
    requires n <= |ops|
    ensures CollectUpTo(ops, n).Fail? <==> exists i :: 0 <= i < n && FirstSign(ops[i].pattern).Fail?
    ensures CollectUpTo(ops, n).Fail? ==> CollectUpTo(ops, n).error == InternalError(NoSign)
  {
    if n > 0 {
      CollectFails(ops, n - 1);
    }
  }

  /**
   * When the filing loop succeeds, every sign's entry holds exactly the
   * operators whose first sign it is, in their order, the keys are distinct,
   * and a sign is a key exactly when some operator is filed under it.
   */
  lemma {:induction false} CollectSpec(ops: seq<OperEntry>, n: nat)
    requires n <= |ops|
    ensures CollectUpTo(ops, n).Ok? ==>
              var gs := CollectUpTo(ops, n).value;
              && NoDup(Keys(gs))
              && (forall s :: Members(gs, s) == FiledUnder(ops, s, n))
              && (forall s :: s in Keys(gs) <==> |FiledUnder(ops, s, n)| > 0)
  {
    if n > 0 && CollectUpTo(ops, n).Ok? {
      CollectSpec(ops, n - 1);
      CollectStep(ops, n, CollectUpTo(ops, n - 1).value, FirstSign(ops[n - 1].pattern).value);
    }
  }

  /** One filing step keeps the entries equal to the filtered operator list. */
  lemma CollectStep(ops: seq<OperEntry>, n: nat, gs: seq<Group>, sign: string)
    requires 0 < n <= |ops| && FirstSign(ops[n - 1].pattern) == Ok(sign)
    requires NoDup(Keys(gs))
    requires forall s :: Members(gs, s) == FiledUnder(ops, s, n - 1)
    requires forall s :: s in Keys(gs) <==> |FiledUnder(ops, s, n - 1)| > 0
    ensures NoDup(Keys(File(gs, sign, ops[n - 1])))
    ensures forall s :: Members(File(gs, sign, ops[n - 1]), s) == FiledUnder(ops, s, n)
    ensures forall s :: s in Keys(File(gs, sign, ops[n - 1])) <==> |FiledUnder(ops, s, n)| > 0
  {
    var o := ops[n - 1];
    FileSpec(gs, sign, o);
    FileKeepsNoDup(gs, sign, o);
  }

  // ---------------------------------------------------------------------------
  // Sorting a group

  /** Inserts `o` in front of the first element whose pattern is not longer. */
  function InsertByLength(o: OperEntry, s: seq<OperEntry>): seq<OperEntry> {
    if |s| == 0 || |s[0].pattern| <= |o.pattern| then [o] + s else [s[0]] + InsertByLength(o, s[1..])
  }

  /**
   * `sort((l, r) => r.pattern.length - l.pattern.length)`: longest pattern
   * first; `Array.prototype.sort` is stable, so is this insertion sort.
   */
  function SortByLength(s: seq<OperEntry>): seq<OperEntry> {
    if |s| == 0 then [] else InsertByLength(s[0], SortByLength(s[1..]))
  }

  predicate SortedByLength(s: seq<OperEntry>) {
    forall i, j :: 0 <= i < j < |s| ==> |s[j].pattern| <= |s[i].pattern|
  }

  /** The elements whose pattern has length `n`, in order. */
  function WithLength(s: seq<OperEntry>, n: nat): seq<OperEntry> {
    if |s| == 0 then [] else (if |s[0].pattern| == n then [s[0]] else []) + WithLength(s[1..], n)
  }

  /** Insertion adds `o` once, and among the elements of its length it comes first. */
  lemma InsertByLengthContents(o: OperEntry, s: seq<OperEntry>)
    ensures multiset(InsertByLength(o, s)) == multiset([o]) + multiset(s)
    ensures forall n: nat :: WithLength(InsertByLength(o, s), n) == (if |o.pattern| == n then [o] else []) + WithLength(s, n)
  {
    InsertByLengthCount(o, s);
    forall n: nat ensures WithLength(InsertByLength(o, s), n) == (if |o.pattern| == n then [o] else []) + WithLength(s, n) {
      InsertByLengthWithLength(o, s, n);
    }
  }

  lemma {:induction false} InsertByLengthCount(o: OperEntry, s: seq<OperEntry>)
    ensures multiset(InsertByLength(o, s)) == multiset([o]) + multiset(s)
  {
    var r := InsertByLength(o, s);
    if |s| == 0 || |s[0].pattern| <= |o.pattern| {
      assert r == [o] + s;
    } else {
      InsertByLengthCount(o, s[1..]);
      var t := InsertByLength(o, s[1..]);
      assert r == [s[0]] + t;
      assert s == [s[0]] + s[1..];
    }
  }

  lemma {:induction false} InsertByLengthWithLength(o: OperEntry, s: seq<OperEntry>, n: nat)
    ensures WithLength(InsertByLength(o, s), n) == (if |o.pattern| == n then [o] else []) + WithLength(s, n)
  {
    var r := InsertByLength(o, s);
    var mine := if |o.pattern| == n then [o] else [];
    if |s| == 0 || |s[0].pattern| <= |o.pattern| {
      assert r == [o] + s && r[0] == o && r[1..] == s;
      assert WithLength(r, n) == mine + WithLength(s, n);
    } else {
      InsertByLengthWithLength(o, s[1..], n);
      var t := InsertByLength(o, s[1..]);
      assert r == [s[0]] + t && r[0] == s[0] && r[1..] == t;
      var head := if |s[0].pattern| == n then [s[0]] else [];
      assert WithLength(r, n) == head + WithLength(t, n);
      assert WithLength(s, n) == head + WithLength(s[1..], n);
      assert head == [] || mine == [];
    }
  }

  /** Insertion into a list sorted by non-increasing length keeps it sorted. */
  lemma {:induction false} InsertByLengthSorted(o: OperEntry, s: seq<OperEntry>)
    requires SortedByLength(s)
    ensures SortedByLength(InsertByLength(o, s))
  {
    var r := InsertByLength(o, s);
    if |s| == 0 || |s[0].pattern| <= |o.pattern| {
      forall i, j | 0 <= i < j < |r| ensures |r[j].pattern| <= |r[i].pattern| {
        assert r[j] == s[j - 1];
        if i > 0 {
          assert r[i] == s[i - 1];
        }
      }
    } else {
      assert SortedByLength(s[1..]) by {
        forall i, j | 0 <= i < j < |s[1..]| ensures |s[1..][j].pattern| <= |s[1..][i].pattern| {
          assert s[1..][j] == s[j + 1] && s[1..][i] == s[i + 1];
        }
      }
      InsertByLengthSorted(o, s[1..]);
      InsertByLengthContents(o, s[1..]);
      var t := InsertByLength(o, s[1..]);
      assert r == [s[0]] + t;
      forall i, j | 0 <= i < j < |r| ensures |r[j].pattern| <= |r[i].pattern| {
        if i == 0 {
          assert r[j] == t[j - 1];
          assert r[j] in multiset(t);
          if r[j] != o {
            assert r[j] in multiset(s[1..]);
            var k :| 0 <= k < |s[1..]| && s[1..][k] == r[j];
            assert s[k + 1] == r[j];
          }
        } else {
          assert r[i] == t[i - 1] && r[j] == t[j - 1];
        }
      }
    }
  }

  /**
   * The sort returns a permutation of its input, sorted by non-increasing
   * pattern length, in which elements of equal length keep their order.
   */
  lemma {:induction false} SortByLengthSpec(s: seq<OperEntry>)
    ensures multiset(SortByLength(s)) == multiset(s)
    ensures SortedByLength(SortByLength(s))
    ensures forall n: nat :: WithLength(SortByLength(s), n) == WithLength(s, n)
  {
    if |s| > 0 {
      SortByLengthSpec(s[1..]);
      InsertByLengthContents(s[0], SortByLength(s[1..]));
      InsertByLengthSorted(s[0], SortByLength(s[1..]));
      assert s == [s[0]] + s[1..];
    }
  }

  // ---------------------------------------------------------------------------
  // group_with_sign

  function SortGroups(gs: seq<Group>): (r: seq<Group>)
    ensures |r| == |gs|
    ensures forall i :: 0 <= i < |gs| ==> r[i] == Group(gs[i].sign, SortByLength(gs[i].members))
  {
    if |gs| == 0 then [] else [Group(gs[0].sign, SortByLength(gs[0].members))] + SortGroups(gs[1..])
  }

  lemma {:induction false} SortGroupsLookup(gs: seq<Group>, sign: string)
    ensures Keys(SortGroups(gs)) == Keys(gs)
    ensures Members(SortGroups(gs), sign) == SortByLength(Members(gs, sign))
  {
    if |gs| > 0 {
      SortGroupsLookup(gs[1..], sign);
      assert SortGroups(gs)[1..] == SortGroups(gs[1..]);
    }
  }

  /** `group_with_sign`: file every operator under its first sign, then sort each entry. */
  function GroupWithSign(ops: seq<OperEntry>): Result<seq<Group>> {
    match CollectUpTo(ops, |ops|)
    case Fail(e) => Fail(e)
    case Ok(gs) => Ok(SortGroups(gs))
  }

  /**
   * `group_with_sign` fails with NoSign exactly when some operator has no
   * sign. Otherwise its keys are distinct and are exactly the first signs of
   * the operators, and the entry of a sign is the operators filed under it,
   * sorted longest pattern first (stably); no entry is empty.
   */
  lemma GroupWithSignSpec(ops: seq<OperEntry>)
    ensures GroupWithSign(ops).Fail? <==> exists i :: 0 <= i < |ops| && FirstSign(ops[i].pattern).Fail?
    ensures GroupWithSign(ops).Fail? ==> GroupWithSign(ops).error == InternalError(NoSign)
    ensures GroupWithSign(ops).Ok? ==>
              var gs := GroupWithSign(ops).value;
              && NoDup(Keys(gs))
              && (forall s :: s in Keys(gs) <==> |FiledUnder(ops, s, |ops|)| > 0)
              && (forall s :: Members(gs, s) == SortByLength(FiledUnder(ops, s, |ops|)))
              && (forall i :: 0 <= i < |gs| ==> |gs[i].members| > 0)
  {
    CollectFails(ops, |ops|);
    CollectSpec(ops, |ops|);
    if GroupWithSign(ops).Ok? {
      var c := CollectUpTo(ops, |ops|).value;
      var gs := GroupWithSign(ops).value;
      forall s ensures Members(gs, s) == SortByLength(FiledUnder(ops, s, |ops|)) && (s in Keys(gs) <==> s in Keys(c)) {
        SortGroupsLookup(c, s);
      }
      forall i | 0 <= i < |gs| ensures |gs[i].members| > 0 {
        var s := gs[i].sign;
        SortGroupsLookup(c, s);
        LookupSpec(gs, s);
        var k :| 0 <= k < |gs| && gs[k] == Group(s, Lookup(gs, s).value);
        assert k == i by {
          assert Keys(gs)[k] == Keys(gs)[i];
        }
        SortByLengthSpec(FiledUnder(ops, s, |ops|));
        assert |SortByLength(FiledUnder(ops, s, |ops|))| == |FiledUnder(ops, s, |ops|)| by {
          assert |multiset(SortByLength(FiledUnder(ops, s, |ops|)))| == |multiset(FiledUnder(ops, s, |ops|))|;
        }
      }
    }
  }

  // ---------------------------------------------------------------------------
  // The grammar the parser runs on

  /**
   * What `parse` reads besides the tokens: the tagged operator list (for
   * `popArgs`), the level ids (for `limit`), and the two group maps.
   */
  datatype Grammar = Grammar(ops: seq<OperEntry>, priIds: seq<string>, signStart: seq<Group>, expStart: seq<Group>)

  /** `sign_start_opers` and `exp_start_opers`, built from a table. */
  function BuildGrammar(t: seq<Level>): Result<Grammar> {
    var ops := Opers(t);
    match GroupWithSign(SelectStart(ops, false))
    case Fail(e) => Fail(e)
    case Ok(signStart) =>
      match GroupWithSign(SelectStart(ops, true))
      case Fail(e) => Fail(e)
      case Ok(expStart) => Ok(Grammar(ops, PriIds(t), signStart, expStart))
  }
}
