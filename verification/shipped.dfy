/**
 * The grammar built from the shipped table: `popArgs` finds each operator by
 * its id, and each sign the arithmetic examples use is filed under exactly
 * the one operator the table gives it. The parse examples therefore hold of
 * the grammar the parser actually uses.
 */
module Shipped {
  import opened Common
  import opened Grouping
  import opened Parser
  import opened TableFacts
  import opened Precedence
  import opened Brackets

  // ---------------------------------------------------------------------------
  // Operators by id

  /** Every entry of the operator list is some operator of a level at or after `q`, tagged with that level. */
  lemma {:induction false} OpersFromOrigin(t: seq<Level>, q: nat, k: nat)
    requires q <= |t| && k < |OpersFrom(t, q)|
    ensures exists p, j :: q <= p < |t| && 0 <= j < |t[p].operators| &&
                           OpersFrom(t, q)[k] == Tag(t[p].operators[j], p, t[p].isRight)
    decreases |t| - q
  {
    var head: seq<OperEntry> := TagLevel(t[q].operators, q, t[q].isRight);
    var tail: seq<OperEntry> := OpersFrom(t, q + 1);
    assert OpersFrom(t, q) == head + tail;
    if k < |head| {
      assert OpersFrom(t, q)[k] == head[k];
    } else {
      OpersFromOrigin(t, q + 1, k - |head|);
      assert OpersFrom(t, q)[k] == tail[k - |head|];
    }
  }

  /** With unique ids in the table, the entries of the operator list have pairwise distinct ids. */
  lemma {:induction false} OpersFromIdsDistinct(t: seq<Level>, q: nat)
    requires UniqueOperatorIds(t) && q <= |t|
    ensures forall k, k' :: 0 <= k < k' < |OpersFrom(t, q)| ==> OpersFrom(t, q)[k].id != OpersFrom(t, q)[k'].id
    decreases |t| - q
  {
    if q < |t| {
      OpersFromIdsDistinct(t, q + 1);
      var head: seq<OperEntry> := TagLevel(t[q].operators, q, t[q].isRight);
      var tail: seq<OperEntry> := OpersFrom(t, q + 1);
      var all := head + tail;
      assert OpersFrom(t, q) == all;
      forall k, k' | 0 <= k < k' < |all| ensures all[k].id != all[k'].id {
        if k' < |head| {
          assert all[k] == head[k] && all[k'] == head[k'];
        } else if k < |head| {
          assert all[k'] == tail[k' - |head|];
          OpersFromOrigin(t, q + 1, k' - |head|);
        } else {
          assert all[k] == tail[k - |head|] && all[k'] == tail[k' - |head|];
        }
      }
    }
  }

  /** With unique ids, `opers.find` by the id of any entry returns that very entry. */
  lemma FindEntry(t: seq<Level>, k: nat)
    requires UniqueOperatorIds(t) && k < |Opers(t)|
    ensures FindOper(Opers(t), Opers(t)[k].id) == Some(Opers(t)[k])
  {
    OpersFromIdsDistinct(t, 0);
  }

  /** With unique ids, `opers.find` by an operator's id returns that operator tagged with its level. */
  lemma FindPlaced(t: seq<Level>, p: nat, j: nat)
    requires UniqueOperatorIds(t) && p < |t| && j < |t[p].operators|
    ensures FindOper(Opers(t), t[p].operators[j].id) == Some(Tag(t[p].operators[j], p, t[p].isRight))
  {
    var e := Tag(t[p].operators[j], p, t[p].isRight);
    OpersFromIndex(t, 0, p, j);
    assert Offset(t, 0) == 0;
    var k := Offset(t, p) + j;
    assert k < |Opers(t)| && Opers(t)[k] == e;
    FindEntry(t, k);
    assert e.id == t[p].operators[j].id;
  }

  /** With unique ids, every entry of the operator list is what `opers.find` returns for its id. */
  lemma FindEntries(t: seq<Level>)
    requires UniqueOperatorIds(t)
    ensures forall o :: o in Opers(t) ==> FindOper(Opers(t), o.id) == Some(o)
  {
    forall o | o in Opers(t) ensures FindOper(Opers(t), o.id) == Some(o) {
      var k :| 0 <= k < |Opers(t)| && Opers(t)[k] == o;
      FindEntry(t, k);
    }
  }

  /** A property every tagged operator of the table has, every entry of the operator list has. */
  lemma OpersEvery(t: seq<Level>, P: OperEntry -> bool)
    requires forall p, j :: 0 <= p < |t| && 0 <= j < |t[p].operators| ==> P(Tag(t[p].operators[j], p, t[p].isRight))
    ensures forall o :: o in Opers(t) ==> P(o)
  {
    forall o | o in Opers(t) ensures P(o) {
      var k :| 0 <= k < |Opers(t)| && Opers(t)[k] == o;
      OpersFromOrigin(t, 0, k);
    }
  }

  // ---------------------------------------------------------------------------
  // Groups with a single member

  lemma {:induction false} SelectStartNoDup(ops: seq<OperEntry>, b: bool)
    requires NoDup(ops)
    ensures NoDup(SelectStart(ops, b))
  {
    if |ops| > 0 {
      SelectStartNoDup(ops[1..], b);
      SelectStartMembers(ops[1..], b);
      assert ops[0] !in ops[1..];
    }
  }

  /** In a duplicate-free list where only `e` has `sign` first, the prefix filter holds `e` once if it has met it, else nothing. */
  lemma {:induction false} SoleFiledUpTo(sel: seq<OperEntry>, sign: string, e: OperEntry, n: nat)
    requires NoDup(sel) && n <= |sel| && FirstSign(e.pattern) == Ok(sign)
    requires forall o :: o in sel && FirstSign(o.pattern) == Ok(sign) ==> o == e
    ensures FiledUnder(sel, sign, n) == if e in sel[..n] then [e] else []
  {
    if n > 0 {
      SoleFiledUpTo(sel, sign, e, n - 1);
      assert sel[..n] == sel[..n - 1] + [sel[n - 1]];
      if FirstSign(sel[n - 1].pattern) == Ok(sign) {
        assert sel[n - 1] == e;
        assert e !in sel[..n - 1];
      }
    }
  }

  /** A duplicate-free list with exactly one operator whose first sign is `sign` files that operator alone under it. */
  lemma SoleFiled(sel: seq<OperEntry>, sign: string, e: OperEntry)
    requires NoDup(sel) && e in sel && FirstSign(e.pattern) == Ok(sign)
    requires forall o :: o in sel && FirstSign(o.pattern) == Ok(sign) ==> o == e
    ensures FiledUnder(sel, sign, |sel|) == [e]
  {
    SoleFiledUpTo(sel, sign, e, |sel|);
    assert sel[..|sel|] == sel;
  }

  /**
   * When exactly one operator of a duplicate-free list starts (or does not
   * start) with an expression and has `sign` as its first sign, the group
   * for `sign` holds that operator alone.
   */
  lemma SoleMember(ops: seq<OperEntry>, b: bool, sign: string, e: OperEntry)
    requires NoDup(ops)
    requires e in ops && IsExpStart(e) == b && FirstSign(e.pattern) == Ok(sign)
    requires forall o :: o in ops && IsExpStart(o) == b && FirstSign(o.pattern) == Ok(sign) ==> o == e
    requires GroupWithSign(SelectStart(ops, b)).Ok?
    ensures Lookup(GroupWithSign(SelectStart(ops, b)).value, sign) == Some([e])
  {
    var sel := SelectStart(ops, b);
    var gs := GroupWithSign(sel).value;
    SelectStartMembers(ops, b);
    SelectStartNoDup(ops, b);
    SoleFiled(sel, sign, e);
    GroupWithSignSpec(sel);
    assert SortByLength([e]) == [e] by {
      assert [e][1..] == [];
    }
    assert Members(gs, sign) == [e];
    LookupSpec(gs, sign);
  }

  // ---------------------------------------------------------------------------
  // The shipped table

  /** `is_exp_start` and the first sign of each shipped operator, by id. */
  function Slot(id: string): (bool, Result<string>) {
    match id
    case "pri" => (false, Ok("("))
    case "lst" => (false, Ok("["))
    case "blk" => (false, Ok("{"))
    case "glb" => (false, Ok("#"))
    case "loc" => (false, Ok("$"))
    case "dot" => (true, Ok("."))
    case "cal" => (true, Ok("("))
    case "ind" => (true, Ok("["))
    case "bcl" => (true, Ok("{"))
    case "hsh" => (true, Ok("#"))
    case "pos" => (false, Ok("+"))
    case "neg" => (false, Ok("-"))
    case "mul" => (true, Ok("*"))
    case "div" => (true, Ok("/"))
    case "add" => (true, Ok("+"))
    case "sub" => (true, Ok("-"))
    case "eq" => (true, Ok("=="))
    case "neq" => (true, Ok("!="))
    case "lt" => (true, Ok("<"))
    case "gt" => (true, Ok(">"))
    case "leq" => (true, Ok("<="))
    case "geq" => (true, Ok(">="))
    case "asg" => (true, Ok("="))
    case "cas" => (true, Ok("$="))
    case "tup" => (true, Ok(","))
    case "tup_lst" => (true, Ok(","))
    case "stm" => (true, Ok(";"))
    case "stm_lst" => (true, Ok(";"))
    case _ => (false, Fail(InternalError(NoSign)))
  }

  predicate SlotsMatch(o: OperEntry) {
    Slot(o.id) == (IsExpStart(o), FirstSign(o.pattern))
  }

  lemma SlotsAtom()
    ensures forall j :: 0 <= j < |Table[0].operators| ==> SlotsMatch(Tag(Table[0].operators[j], 0, Table[0].isRight))
  {
  }
  lemma SlotsPri()
    ensures forall j :: 0 <= j < |Table[1].operators| ==> SlotsMatch(Tag(Table[1].operators[j], 1, Table[1].isRight))
  {
  }
  lemma SlotsAriPref()
    ensures forall j :: 0 <= j < |Table[2].operators| ==> SlotsMatch(Tag(Table[2].operators[j], 2, Table[2].isRight))
  {
  }
  lemma SlotsTerm()
    ensures forall j :: 0 <= j < |Table[3].operators| ==> SlotsMatch(Tag(Table[3].operators[j], 3, Table[3].isRight))
  {
  }
  lemma SlotsAri()
    ensures forall j :: 0 <= j < |Table[4].operators| ==> SlotsMatch(Tag(Table[4].operators[j], 4, Table[4].isRight))
  {
  }
  lemma SlotsCmp()
    ensures forall j :: 0 <= j < |Table[5].operators| ==> SlotsMatch(Tag(Table[5].operators[j], 5, Table[5].isRight))
  {
  }
  lemma SlotsAsg()
    ensures forall j :: 0 <= j < |Table[6].operators| ==> SlotsMatch(Tag(Table[6].operators[j], 6, Table[6].isRight))
  {
  }
  lemma SlotsSep()
    ensures forall j :: 0 <= j < |Table[7].operators| ==> SlotsMatch(Tag(Table[7].operators[j], 7, Table[7].isRight))
  {
  }
  lemma SlotsStm()
    ensures forall j :: 0 <= j < |Table[8].operators| ==> SlotsMatch(Tag(Table[8].operators[j], 8, Table[8].isRight))
  {
  }

  lemma SlotLevel(p: nat)
    requires p < |Table|
    ensures forall j :: 0 <= j < |Table[p].operators| ==> SlotsMatch(Tag(Table[p].operators[j], p, Table[p].isRight))
  {
    if p == 0 {
      SlotsAtom();
    } else if p == 1 {
      SlotsPri();
    } else if p == 2 {
      SlotsAriPref();
    } else if p == 3 {
      SlotsTerm();
    } else if p == 4 {
      SlotsAri();
    } else if p == 5 {
      SlotsCmp();
    } else if p == 6 {
      SlotsAsg();
    } else if p == 7 {
      SlotsSep();
    } else {
      SlotsStm();
    }
  }

  lemma ShippedSlots()
    ensures forall o :: o in Opers(Table) ==> SlotsMatch(o)
  {
    forall p: nat | p < |Table| {
      SlotLevel(p);
    }
    OpersEvery(Table, o => SlotsMatch(o));
  }

  // Among the shipped operators, a start kind and a first sign single out one id.

  lemma OwnerPlus()
    ensures forall x :: Slot(x) == (true, Ok("+")) ==> x == "add"
    ensures IsExpStart(AddE) && FirstSign(AddE.pattern) == Ok("+")
  {
  }

  lemma OwnerTimes()
    ensures forall x :: Slot(x) == (true, Ok("*")) ==> x == "mul"
    ensures IsExpStart(MulE) && FirstSign(MulE.pattern) == Ok("*")
  {
  }

  lemma OwnerCall()
    ensures forall x :: Slot(x) == (true, Ok("(")) ==> x == "cal"
    ensures IsExpStart(CalE) && FirstSign(CalE.pattern) == Ok("(")
  {
  }

  lemma OwnerMinus()
    ensures forall x :: Slot(x) == (false, Ok("-")) ==> x == "neg"
    ensures !IsExpStart(NegE) && FirstSign(NegE.pattern) == Ok("-")
  {
  }

  lemma OwnerParen()
    ensures forall x :: Slot(x) == (false, Ok("(")) ==> x == "pri"
    ensures !IsExpStart(PriE) && FirstSign(PriE.pattern) == Ok("(")
  {
  }

  /** When the id an operator's start kind and first sign single out is found as `e`, every such entry is `e`. */
  lemma OwnedBy(ops: seq<OperEntry>, b: bool, sign: string, id: string, e: OperEntry)
    requires forall o :: o in ops ==> FindOper(ops, o.id) == Some(o) && SlotsMatch(o)
    requires forall x :: Slot(x) == (b, Ok(sign)) ==> x == id
    requires FindOper(ops, id) == Some(e)
    ensures forall o :: o in ops && IsExpStart(o) == b && FirstSign(o.pattern) == Ok(sign) ==> o == e
  {
  }

  /** `opers.find` on the shipped list returns the tagged operator for each id the examples use, and any entry for its own id. */
  lemma ShippedFinds()
    ensures FindOper(Opers(Table), "add") == Some(AddE)
    ensures FindOper(Opers(Table), "mul") == Some(MulE)
    ensures FindOper(Opers(Table), "neg") == Some(NegE)
    ensures FindOper(Opers(Table), "pri") == Some(PriE)
    ensures FindOper(Opers(Table), "cal") == Some(CalE)
  {
    ShippedOperatorIdsUnique();
    FindPlaced(Table, 4, 0);
    FindPlaced(Table, 3, 0);
    FindPlaced(Table, 2, 1);
    FindPlaced(Table, 0, 0);
    FindPlaced(Table, 1, 1);
  }

  /** The shipped operator list holds no entry twice. */
  lemma ShippedNoDup()
    ensures NoDup(Opers(Table))
  {
    ShippedOperatorIdsUnique();
    OpersFromIdsDistinct(Table, 0);
  }

  /** Every entry of the shipped list is what `opers.find` returns for its id. */
  lemma ShippedFindSelf()
    ensures forall o :: o in Opers(Table) ==> FindOper(Opers(Table), o.id) == Some(o) && SlotsMatch(o)
  {
    ShippedOperatorIdsUnique();
    ShippedSlots();
    FindEntries(Table);
  }

  /**
   * In the shipped grammar, the group a sign and start kind select holds
   * only the operator whose id the sign and start kind single out.
   */
  lemma ShippedGroup(b: bool, sign: string, id: string, e: OperEntry)
    requires FindOper(Opers(Table), id) == Some(e) && IsExpStart(e) == b && FirstSign(e.pattern) == Ok(sign)
    requires forall x :: Slot(x) == (b, Ok(sign)) ==> x == id
    ensures GroupWithSign(SelectStart(Opers(Table), b)).Ok?
    ensures Lookup(GroupWithSign(SelectStart(Opers(Table), b)).value, sign) == Some([e])
  {
    var ops := Opers(Table);
    ShippedBuilds();
    ShippedNoDup();
    ShippedFindSelf();
    OwnedBy(ops, b, sign, id, e);
    SoleMember(ops, b, sign, e);
  }

  /** The shipped grammar: the operator list, the level ids, and the two groupings. */
  lemma ShippedParts()
    ensures var ops := Opers(Table);
            && GroupWithSign(SelectStart(ops, false)).Ok? && GroupWithSign(SelectStart(ops, true)).Ok?
            && BuildGrammar(Table) ==
               Ok(Grammar(ops, PriIds(Table), GroupWithSign(SelectStart(ops, false)).value, GroupWithSign(SelectStart(ops, true)).value))
  {
    ShippedBuilds();
  }

  lemma ShippedPlus()
    ensures GroupWithSign(SelectStart(Opers(Table), true)).Ok?
    ensures Lookup(GroupWithSign(SelectStart(Opers(Table), true)).value, "+") == Some([AddE])
  {
    ShippedFinds();
    OwnerPlus();
    ShippedGroup(true, "+", "add", AddE);
  }

  lemma ShippedTimes()
    ensures GroupWithSign(SelectStart(Opers(Table), true)).Ok?
    ensures Lookup(GroupWithSign(SelectStart(Opers(Table), true)).value, "*") == Some([MulE])
  {
    ShippedFinds();
    OwnerTimes();
    ShippedGroup(true, "*", "mul", MulE);
  }

  lemma ShippedCall()
    ensures GroupWithSign(SelectStart(Opers(Table), true)).Ok?
    ensures Lookup(GroupWithSign(SelectStart(Opers(Table), true)).value, "(") == Some([CalE])
  {
    ShippedFinds();
    OwnerCall();
    ShippedGroup(true, "(", "cal", CalE);
  }

  lemma ShippedMinus()
    ensures GroupWithSign(SelectStart(Opers(Table), false)).Ok?
    ensures Lookup(GroupWithSign(SelectStart(Opers(Table), false)).value, "-") == Some([NegE])
  {
    ShippedFinds();
    OwnerMinus();
    ShippedGroup(false, "-", "neg", NegE);
  }

  lemma ShippedParen()
    ensures GroupWithSign(SelectStart(Opers(Table), false)).Ok?
    ensures Lookup(GroupWithSign(SelectStart(Opers(Table), false)).value, "(") == Some([PriE])
  {
    ShippedFinds();
    OwnerParen();
    ShippedGroup(false, "(", "pri", PriE);
  }

  /** The shipped grammar agrees with the shipped table on `+`, `*`, `-`, `(` and on the operators they name. */
  lemma ShippedArithmetic()
    ensures BuildGrammar(Table).Ok?
    ensures Arithmetic(BuildGrammar(Table).value)
    ensures Lookup(BuildGrammar(Table).value.expStart, "(") == Some([CalE])
  {
    ShippedParts();
    ShippedFinds();
    ShippedPlus();
    ShippedTimes();
    ShippedCall();
    ShippedMinus();
    ShippedParen();
  }

  // ---------------------------------------------------------------------------
  // The examples, on the shipped grammar

  /** `2 + 3 * 4` parses as add(2, mul(3, 4)) with the shipped grammar. */
  lemma ShippedAddMul(fuel: nat)
    requires fuel >= 6
    ensures BuildGrammar(Table).Ok?
    ensures Parse(BuildGrammar(Table).value, ["#2", "*+", "#3", "**", "#4"], fuel) ==
            Ok(Node("add", [Num("2"), Node("mul", [Num("3"), Num("4")])]))
  {
    ShippedArithmetic();
    AddMul(BuildGrammar(Table).value, fuel);
  }

  /** `2 * 3 + 4 * 5` parses as add(mul(2, 3), mul(4, 5)) with the shipped grammar. */
  lemma ShippedMulAddMul(fuel: nat)
    requires fuel >= 8
    ensures BuildGrammar(Table).Ok?
    ensures Parse(BuildGrammar(Table).value, ["#2", "**", "#3", "*+", "#4", "**", "#5"], fuel) ==
            Ok(Node("add", [Node("mul", [Num("2"), Num("3")]), Node("mul", [Num("4"), Num("5")])]))
  {
    ShippedArithmetic();
    MulAddMul(BuildGrammar(Table).value, fuel);
  }

  /** `- 2 + 3` parses as add(neg(2), 3) with the shipped grammar. */
  lemma ShippedNegAdd(fuel: nat)
    requires fuel >= 5
    ensures BuildGrammar(Table).Ok?
    ensures Parse(BuildGrammar(Table).value, ["*-", "#2", "*+", "#3"], fuel) ==
            Ok(Node("add", [Node("neg", [Num("2")]), Num("3")]))
  {
    ShippedArithmetic();
    NegAdd(BuildGrammar(Table).value, fuel);
  }

  /** `( 2 + 3 ) * 4` parses as mul(pri(add(2, 3)), 4) with the shipped grammar. */
  lemma ShippedGroupMul(fuel: nat)
    requires fuel >= 8
    ensures BuildGrammar(Table).Ok?
    ensures Parse(BuildGrammar(Table).value, ["*(", "#2", "*+", "#3", "*)", "**", "#4"], fuel) ==
            Ok(Node("mul", [Node("pri", [Node("add", [Num("2"), Num("3")])]), Num("4")]))
  {
    ShippedArithmetic();
    GroupMul(BuildGrammar(Table).value, fuel);
  }

  /** `( 2 + 3` without its closing bracket parses as pri(add(2, 3)) with the shipped grammar. */
  lemma ShippedGroupUnclosed(fuel: nat)
    requires fuel >= 5
    ensures BuildGrammar(Table).Ok?
    ensures Parse(BuildGrammar(Table).value, ["*(", "#2", "*+", "#3"], fuel) ==
            Ok(Node("pri", [Node("add", [Num("2"), Num("3")])]))
  {
    ShippedArithmetic();
    GroupUnclosed(BuildGrammar(Table).value, fuel);
  }

  /** `f ( 3 )` fails at the argument with the shipped grammar: `)` is demanded where `3` stands. */
  lemma ShippedCallNeedsSign(fuel: nat)
    requires fuel >= 3
    ensures BuildGrammar(Table).Ok?
    ensures Parse(BuildGrammar(Table).value, ["#f", "*(", "#3", "*)"], fuel) == Fail(SyntaxError(2, SignRequired(")")))
  {
    ShippedArithmetic();
    CallNeedsSign(BuildGrammar(Table).value, fuel);
  }
}
