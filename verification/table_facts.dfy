/**
 * Facts about the shipped operator table: level ids and operator ids are
 * unique, every operator has a sign item, and so building the grammar from
 * it cannot fail.
 */
module TableFacts {
  import opened Common
  import opened Grouping

  /** No two operators of the table, at different places, share an id. */
  ghost predicate UniqueOperatorIds(t: seq<Level>) {
    forall p, j, p', j' ::
      (0 <= p < |t| && 0 <= j < |t[p].operators| && 0 <= p' < |t| && 0 <= j' < |t[p'].operators| &&
       t[p].operators[j].id == t[p'].operators[j'].id) ==> p == p' && j == j'
  }

  /** Every operator of the table has at least one sign item. */
  ghost predicate AllSigned(t: seq<Level>) {
    forall p, j :: 0 <= p < |t| && 0 <= j < |t[p].operators| ==> |PatternSigns(t[p].operators[j].pattern)| > 0
  }

  /** Where each id of the shipped table sits: its level and its place in that level. */
  function Position(id: string): Option<(int, int)> {
    match id
    case "pri" => Some((0, 0))
    case "lst" => Some((0, 1))
    case "blk" => Some((0, 2))
    case "glb" => Some((0, 3))
    case "loc" => Some((0, 4))
    case "dot" => Some((1, 0))
    case "cal" => Some((1, 1))
    case "ind" => Some((1, 2))
    case "bcl" => Some((1, 3))
    case "hsh" => Some((1, 4))
    case "pos" => Some((2, 0))
    case "neg" => Some((2, 1))
    case "mul" => Some((3, 0))
    case "div" => Some((3, 1))
    case "add" => Some((4, 0))
    case "sub" => Some((4, 1))
    case "eq" => Some((5, 0))
    case "neq" => Some((5, 1))
    case "lt" => Some((5, 2))
    case "gt" => Some((5, 3))
    case "leq" => Some((5, 4))
    case "geq" => Some((5, 5))
    case "asg" => Some((6, 0))
    case "cas" => Some((6, 1))
    case "tup" => Some((7, 0))
    case "tup_lst" => Some((7, 1))
    case "stm" => Some((8, 0))
    case "stm_lst" => Some((8, 1))
    case _ => None
  }

  lemma PositionLevel(p: nat)
    requires p < |Table|
    ensures forall j :: 0 <= j < |Table[p].operators| ==> Position(Table[p].operators[j].id) == Some((p, j))
  {
  }

  /** The shipped table gives every operator its own id, so `opers.find` by id is unambiguous. */
  lemma ShippedOperatorIdsUnique()
    ensures UniqueOperatorIds(Table)
  {
    forall p: nat | p < |Table| {
      PositionLevel(p);
    }
  }

  /** The index of each level id of the shipped table. */
  function LevelIndex(id: string): int {
    match id
    case "atom" => 0
    case "pri" => 1
    case "ari_pref" => 2
    case "term" => 3
    case "ari" => 4
    case "cmp" => 5
    case "asg" => 6
    case "sep" => 7
    case "stm" => 8
    case _ => -1
  }

  lemma LevelIndexAt(p: nat)
    requires p < |Table|
    ensures LevelIndex(Table[p].id) == p
  {
  }

  /** Level ids that some function maps back to their own indices are distinct. */
  lemma IndexedLevelIds(t: seq<Level>)
    requires forall p :: 0 <= p < |t| ==> LevelIndex(t[p].id) == p
    ensures NoDup(PriIds(t))
  {
  }

  /** The shipped level ids are distinct, so `pri_ids.indexOf` finds the level a limit names. */
  lemma ShippedLevelIdsUnique()
    ensures NoDup(PriIds(Table))
  {
    forall p: nat | p < |Table| {
      LevelIndexAt(p);
    }
    IndexedLevelIds(Table);
  }

  lemma SignedLevel(p: nat)
    requires p < |Table|
    ensures forall j :: 0 <= j < |Table[p].operators| ==> |PatternSigns(Table[p].operators[j].pattern)| > 0
  {
  }

  /** Every shipped operator carries a sign, so `get_first_sign` never throws on it. */
  lemma ShippedSigned()
    ensures AllSigned(Table)
  {
    forall p: nat | p < |Table| {
      SignedLevel(p);
    }
  }

  lemma {:induction false} OpersFromSigned(t: seq<Level>, q: nat)
    requires AllSigned(t) && q <= |t|
    ensures forall k :: 0 <= k < |OpersFrom(t, q)| ==> |PatternSigns(OpersFrom(t, q)[k].pattern)| > 0
    decreases |t| - q
  {
    if q < |t| {
      OpersFromSigned(t, q + 1);
      var head: seq<OperEntry> := TagLevel(t[q].operators, q, t[q].isRight);
      var tail: seq<OperEntry> := OpersFrom(t, q + 1);
      forall k | 0 <= k < |head + tail| ensures |PatternSigns((head + tail)[k].pattern)| > 0 {
        if k >= |head| {
          assert (head + tail)[k] == tail[k - |head|];
        }
      }
    }
  }

  /**
   * When every operator of a table has a sign item, grouping both halves of
   * its operator list succeeds, so building the grammar does not fail.
   */
  lemma SignedBuilds(t: seq<Level>)
    requires AllSigned(t)
    ensures BuildGrammar(t).Ok?
  {
    var ops := Opers(t);
    OpersFromSigned(t, 0);
    forall b: bool ensures GroupWithSign(SelectStart(ops, b)).Ok? {
      var sel := SelectStart(ops, b);
      SelectStartMembers(ops, b);
      GroupWithSignSpec(sel);
      forall i | 0 <= i < |sel| ensures FirstSign(sel[i].pattern).Ok? {
        assert sel[i] in ops;
      }
    }
  }

  /** Building the grammar from the shipped table succeeds. */
  lemma ShippedBuilds()
    ensures BuildGrammar(Table).Ok?
  {
    ShippedSigned();
    SignedBuilds(Table);
  }
}
