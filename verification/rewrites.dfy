/**
  A join the repaired rule does rewrite. In `$0 * 2 + $2 > 0` over a
  two-column left input, `$0 * 2` is LEFT and `$2` RIGHT, so the sum is
  pushed down and `$0 * 2` becomes a new column of the left input. The
  replacement compares `$2 + $3` with zero over the new layout (left
  columns `$0, $1, $0 * 2`, right columns `$2, $3`), and running the rule
  again on the replacement changes nothing.
 */
module Rewrites {
  import opened Wrappers
  import opened Exprs
  import opened Sides
  import opened Rewriter
  import opened Pusher
  import opened Renumber
  import opened Soundness
  import opened Rule
  import opened Findings

  /** `$0 * 2`: LEFT. */
  const Doubled: Expr := Call(Times, [InputRef(0), Literal(2)])
  /** `$0 * 2 + $2`: LEFT plus RIGHT. */
  const Spread: Expr := Call(Plus, [Doubled, InputRef(2)])
  /** `$0 * 2 + $2 > 0`: the join condition. */
  const Test: Expr := Call(Greater, [Spread, Literal(0)])
  /** A join of a two-column left input and a two-column right input, all four columns projected. */
  const Join: NestedLoopJoin := NestedLoopJoin(2, Test, [0, 1, 2, 3])

  /** `$2 + $3 > 0`: the condition over the new layout. */
  const NewTest: Expr := Call(Greater, [Call(Plus, [InputRef(2), InputRef(3)]), Literal(0)])
  /** The replacement: `$0 * 2` joins the left input's columns; the old columns 2 and 3 move to 3 and 4. */
  const Expected: Replacement :=
    Replacement([InputRef(0), InputRef(1), Doubled], [InputRef(0), InputRef(1)], NewTest, {0, 1, 3, 4})
  /** The replacement as a join of its own: a three-column left input, with the projected columns it lists. */
  const Again: NestedLoopJoin := NestedLoopJoin(3, NewTest, [0, 1, 3, 4])

  lemma TestIsNormal(fuel: nat)
    ensures WellFormed(Test)
    ensures Normalize(Test, fuel).expr == Test
  {
    assert WellFormed(Doubled) && NoRedex(Doubled);
    assert WellFormed(Spread) && NoRedex(Spread);
    assert NoRedex(Test);
  }

  lemma NewTestIsNormal(fuel: nat)
    ensures WellFormed(NewTest)
    ensures Normalize(NewTest, fuel).expr == NewTest
  {
    var sum := Call(Plus, [InputRef(2), InputRef(3)]);
    assert WellFormed(sum) && NoRedex(sum);
    assert NoRedex(NewTest);
  }

  /**
    Positions 0..3 shared out so that exactly 0 and 1 go left: the LEFT list
    is `[0, 1]` and the RIGHT list `[2, 3]`, both being increasing.
   */
  lemma TwoAndTwo(l: seq<nat>, r: seq<nat>)
    requires Partition(l, r, 4)
    requires forall i :: 0 <= i < 4 ==> (i in l <==> i < 2)
    ensures l == [0, 1] && r == [2, 3]
  {
    assert 0 in l && 1 in l && 2 in r && 3 in r;
    var k0 :| 0 <= k0 < |l| && l[k0] == 0;
    var k1 :| 0 <= k1 < |l| && l[k1] == 1;
    var k2 :| 0 <= k2 < |r| && r[k2] == 2;
    var k3 :| 0 <= k3 < |r| && r[k3] == 3;
    assert k0 != k1 && k2 != k3;
    assert |l| == 2 && |r| == 2;
    assert l[0] in l && l[1] in l && r[0] in r && r[1] in r;
  }

  lemma JoinColumns()
    ensures Increasing(Join.projected)
    ensures |Join.projected| == 4 && forall i :: 0 <= i < 4 ==> Join.projected[i] == i
  {
  }

  lemma AgainColumns()
    ensures Increasing(Again.projected)
    ensures Again.projected == [0, 1, 3, 4]
  {
  }

  /** Seeding `[0, 1, 2, 3]` with two left columns tags positions 0 and 1 LEFT and 2 and 3 RIGHT. */
  lemma SeedSplit(t: Table)
    requires Increasing(Join.projected)
    requires t == Seed(Join.projected, 2)
    ensures t.leftExprs == [0, 1] && t.rightExprs == [2, 3]
  {
    JoinColumns();
    TwoAndTwo(t.leftExprs, t.rightExprs);
  }

  /** `$0 * 2` merges [LEFT, EMPTY] to LEFT and keeps the table. */
  lemma PushDoubled(t: Table)
    ensures Push(Doubled, t, Config(2, BothAbsorbs)) == Pushed(Doubled, Left, t)
  {
    var cfg := Config(2, BothAbsorbs);
    PushRef(0, t, cfg);
    assert Push(Literal(2), t, cfg) == Pushed(Literal(2), Empty, t);
    assert !ShouldPushDown([Left, Empty]) && Merge([Left, Empty]) == Left by {
      assert [Left, Empty][0] == Left && [Left, Empty][1] == Empty;
    }
    MergedStep(Times, InputRef(0), Literal(2), Left, Empty, t, cfg);
  }

  /**
    Hoisting a new LEFT operand and a RIGHT operand the table already holds:
    the first is appended at the end, the second read from its position.
   */
  lemma HoistFreshAndKnown(a: Expr, b: Expr, t: Table)
    requires a !in t.positions && b in t.positions && a != b
    ensures HoistAll([a, b], [Left, Right], t)
      == HoistedAll([InputRef(|t.exprs|), InputRef(t.positions[b])], Append(t, a, true))
  {
    HoistPair(a, b, Left, Right, t);
    var head := HoistOperand(a, Left, t);
    assert head == Hoisted(InputRef(|t.exprs|), Append(t, a, true));
    assert b in head.table.positions && head.table.positions[b] == t.positions[b];
  }

  /** A LEFT operand and a RIGHT one that keep the table mix sides: the call is pushed down. */
  lemma MixedPair(op: Op, a: Expr, b: Expr, t: Table, cfg: Config)
    requires !op.IsMarker()
    requires Push(a, t, cfg) == Pushed(a, Left, t) && Push(b, t, cfg) == Pushed(b, Right, t)
    ensures var h := HoistAll([a, b], [Left, Right], t);
      Push(Call(op, [a, b]), t, cfg) == Pushed(Call(op, h.exprs), Both, h.table)
  {
    assert ShouldPushDown([Left, Right]) by {
      assert [Left, Right][0] == Left && [Left, Right][1] == Right;
    }
    PushedDownStep(op, a, b, Left, Right, t, cfg);
  }

  /** The sum mixes LEFT with RIGHT: `$0 * 2` is appended as a LEFT entry and the sum reads it by position. */
  lemma PushSpread(t: Table)
    requires Positioned(t) && Doubled !in t.positions
    ensures var r := Push(Spread, t, Config(2, BothAbsorbs));
      && r.side == Both
      && r.expr == Call(Plus, [InputRef(|t.exprs|), InputRef(2)])
      && r.table == Append(t, Doubled, true)
  {
    var cfg := Config(2, BothAbsorbs);
    PushDoubled(t);
    PushRef(2, t, cfg);
    MixedPair(Plus, Doubled, InputRef(2), t, cfg);
    HoistFreshAndKnown(Doubled, InputRef(2), t);
  }

  /** The comparison merges [BOTH, EMPTY] to BOTH and keeps the pushed-down sum. */
  lemma PushTest(t: Table)
    requires Positioned(t) && Doubled !in t.positions
    ensures Push(Test, t, Config(2, BothAbsorbs))
      == Pushed(Call(Greater, [Call(Plus, [InputRef(|t.exprs|), InputRef(2)]), Literal(0)]), Both, Append(t, Doubled, true))
  {
    PushSpread(t);
    ComparedStep(Greater, Spread, t, Config(2, BothAbsorbs));
    ScaledSides();
  }

  /** The repaired pusher's run on `Join`: the seeds, then the condition, which appends `$0 * 2` at position 4. */
  lemma JoinPush(fuel: nat)
    ensures WellFormed(Join.condition) && Increasing(Join.projected)
    ensures var t := Seed(Join.projected, 2);
      && Seeded(t)
      && PushCondition(Join, BothAbsorbs, fuel)
           == Pushed(Call(Greater, [Call(Plus, [InputRef(4), InputRef(2)]), Literal(0)]), Both, Append(t, Doubled, true))
  {
    TestIsNormal(fuel);
    var cols: seq<nat> := [0, 1, 2, 3];
    assert Increasing(cols);
    PushConditionFromSeeds(Join, BothAbsorbs, fuel);
    var t := Seed(cols, 2);
    SeededTable(cols, 2, t);
    SeededPositions(t);
    assert Doubled !in t.positions by {
      assert forall e :: e in t.positions ==> e in t.exprs;
    }
    PushTest(t);
  }

  /** A valid table lists exactly its entries in the map, each at its own position. */
  lemma PositionsAreEntries(t: Table)
    requires Valid(t)
    ensures forall e :: e in t.positions ==> e in t.exprs
    ensures forall i :: 0 <= i < |t.exprs| ==> t.exprs[i] in t.positions && t.positions[t.exprs[i]] == i
  {
  }

  /** The table after the run: the seeds and `$0 * 2`, laid out as `[0, 1, 4, 2, 3]`. */
  lemma GrownTable(s: Table, t: Table)
    requires Valid(s) && s.exprs == [InputRef(0), InputRef(1), InputRef(2), InputRef(3)]
    requires s.leftExprs == [0, 1] && s.rightExprs == [2, 3]
    requires t == Append(s, Doubled, true)
    ensures Valid(t)
    ensures t.exprs == [InputRef(0), InputRef(1), InputRef(2), InputRef(3), Doubled]
    ensures t.leftExprs == [0, 1, 4] && t.rightExprs == [2, 3]
    ensures Layout(t) == [0, 1, 4, 2, 3]
  {
    PositionsAreEntries(s);
    assert Doubled !in s.positions;
  }

  lemma RenamePair(op: Op, x: Expr, y: Expr, order: seq<nat>)
    ensures Rename(Call(op, [x, y]), order) == Call(op, [Rename(x, order), Rename(y, order)])
  {
    assert [x, y][1..] == [y];
    assert [y][1..] == [];
    assert RenameAll([y], order) == [Rename(y, order)];
  }

  /** Remapping the pushed condition through `[0, 1, 4, 2, 3]` gives `$2 + $3 > 0`. */
  lemma NewTestRemaps(order: seq<nat>)
    requires order == [0, 1, 4, 2, 3]
    ensures Remap(Call(Greater, [Call(Plus, [InputRef(4), InputRef(2)]), Literal(0)]), order) == Some(NewTest)
  {
    var sum := Call(Plus, [InputRef(2), InputRef(3)]);
    assert Distinct(order);
    assert RefsWithin(sum, 0, |order|);
    RefsWithinSmallCall(Greater, sum, Literal(0), 0, |order|);
    RenameThenRemap(NewTest, order);
    RenamePair(Plus, InputRef(2), InputRef(3), order);
    RenamePair(Greater, sum, Literal(0), order);
  }

  /** The seeds land on new columns 0, 1, 3 and 4. */
  lemma NewProjected(t: Table)
    requires Valid(t) && |t.exprs| == 5 && Layout(t) == [0, 1, 4, 2, 3]
    ensures RemapAll(IdentityRefs(4), Layout(t)).Some?
    ensures ProjectedOf(RemapAll(IdentityRefs(4), Layout(t)).value) == {0, 1, 3, 4}
  {
    ProjectedAreSeeds(t, 4);
    var s := ProjectedOf(RemapAll(IdentityRefs(4), Layout(t)).value);
    SeedColumns(s, Layout(t));
  }

  /** The columns of `[0, 1, 4, 2, 3]` that carry one of the positions 0..3. */
  lemma SeedColumns(s: set<int>, order: seq<nat>)
    requires order == [0, 1, 4, 2, 3]
    requires forall k :: k in s <==> 0 <= k < |order| && order[k] < 4
    ensures s == {0, 1, 3, 4}
  {
    assert order[0] == 0 && order[1] == 1 && order[2] == 4 && order[3] == 2 && order[4] == 3;
    assert 0 in s && 1 in s && 3 in s && 4 in s && 2 !in s;
    forall k | k in s
      ensures k in {0, 1, 3, 4}
    {
      assert 0 <= k < 5;
    }
  }

  /** When something was hoisted and both remaps succeed with a new condition, `Assemble` builds the replacement from them. */
  lemma AssembleBuilds(j: NestedLoopJoin, p: Pushed, c: Expr, refs: seq<Expr>)
    requires Valid(p.table) && |j.projected| <= |p.table.exprs|
    requires HoistedSome(p.table)
    requires Remap(p.expr, Layout(p.table)) == Some(c) && c != j.condition
    requires RemapAll(IdentityRefs(|j.projected|), Layout(p.table)) == Some(refs)
    ensures Assemble(j, p)
      == Rewritten(Replacement(LeftProjects(p.table), RightProjects(p.table, j.leftCount), c, ProjectedOf(refs)))
  {
  }

  /** The new projections: the left entries `$0, $1, $0 * 2` and the right entries shifted to `$0, $1`. */
  lemma GrownProjects(t: Table)
    requires Valid(t)
    requires t.exprs == [InputRef(0), InputRef(1), InputRef(2), InputRef(3), Doubled]
    requires t.leftExprs == [0, 1, 4] && t.rightExprs == [2, 3]
    ensures LeftProjects(t) == Expected.leftProjects
    ensures RightProjects(t, 2) == Expected.rightProjects
  {
    assert LeftProjects(t) == [InputRef(0), InputRef(1), Doubled];
    assert RightProjects(t, 2) == [Shift(InputRef(2), -2), Shift(InputRef(3), -2)];
  }

  /** `Assemble` over the grown table rewrites `Join` into `Expected`. */
  lemma AssembleGrown(p: Pushed)
    requires Valid(p.table)
    requires p.table.exprs == [InputRef(0), InputRef(1), InputRef(2), InputRef(3), Doubled]
    requires p.table.leftExprs == [0, 1, 4] && p.table.rightExprs == [2, 3]
    requires p.expr == Call(Greater, [Call(Plus, [InputRef(4), InputRef(2)]), Literal(0)])
    ensures Assemble(Join, p) == Rewritten(Expected)
  {
    var t := p.table;
    assert !t.exprs[4].InputRef?;
    NewTestRemaps(Layout(t));
    NewProjected(t);
    GrownProjects(t);
    AssembleBuilds(Join, p, NewTest, RemapAll(IdentityRefs(4), Layout(t)).value);
  }

  /**
    With the repaired merge the rule rewrites `Join`: the left input gains
    the column `$0 * 2`, the right input keeps its two columns, and the
    condition becomes `$2 + $3 > 0` over the new layout.
   */
  lemma RepairedRewritesJoin(fuel: nat)
    ensures WellFormed(Join.condition) && Increasing(Join.projected)
    ensures OnMatch(Join, BothAbsorbs, fuel) == Rewritten(Expected)
  {
    JoinPush(fuel);
    var s := Seed(Join.projected, 2);
    JoinColumns();
    SeedSplit(s);
    var p := PushCondition(Join, BothAbsorbs, fuel);
    GrownTable(s, p.table);
    AssembleGrown(p);
  }

  /** Seeding `[0, 1, 3, 4]`: the four references in order. */
  lemma AgainSeeds(t: Table)
    requires Increasing(Again.projected)
    requires t == Seed(Again.projected, 3)
    ensures Valid(t)
    ensures t.exprs == [InputRef(0), InputRef(1), InputRef(3), InputRef(4)]
  {
    AgainColumns();
    SeededTable(Again.projected, 3, t);
  }

  /** `$2` is not among the seeds, `$3` is at position 2. */
  lemma AgainPositions(t: Table)
    requires Valid(t) && t.exprs == [InputRef(0), InputRef(1), InputRef(3), InputRef(4)]
    ensures InputRef(2) !in t.positions
    ensures InputRef(3) in t.positions && t.positions[InputRef(3)] == 2
  {
    PositionsAreEntries(t);
    assert t.exprs[2] == InputRef(3);
  }

  /** On the replacement, `$2` is LEFT and `$3` RIGHT: both are hoisted as bare references. */
  lemma PushAgainSum(t: Table)
    requires |t.exprs| == 4
    requires InputRef(2) !in t.positions
    requires InputRef(3) in t.positions && t.positions[InputRef(3)] == 2
    ensures Push(Call(Plus, [InputRef(2), InputRef(3)]), t, Config(3, BothAbsorbs))
      == Pushed(Call(Plus, [InputRef(4), InputRef(2)]), Both, Append(t, InputRef(2), true))
  {
    var cfg := Config(3, BothAbsorbs);
    PushRef(2, t, cfg);
    PushRef(3, t, cfg);
    MixedPair(Plus, InputRef(2), InputRef(3), t, cfg);
    HoistFreshAndKnown(InputRef(2), InputRef(3), t);
  }

  /** The comparison keeps the pushed-down sum as BOTH. */
  lemma PushAgain(t: Table)
    requires |t.exprs| == 4
    requires InputRef(2) !in t.positions
    requires InputRef(3) in t.positions && t.positions[InputRef(3)] == 2
    ensures Push(NewTest, t, Config(3, BothAbsorbs))
      == Pushed(Call(Greater, [Call(Plus, [InputRef(4), InputRef(2)]), Literal(0)]), Both, Append(t, InputRef(2), true))
  {
    PushAgainSum(t);
    ComparedStep(Greater, Call(Plus, [InputRef(2), InputRef(3)]), t, Config(3, BothAbsorbs));
    ScaledSides();
  }

  /** Appending a reference to a table of references leaves a table of references. */
  lemma AppendRef(t: Table, i: int)
    requires forall k :: 0 <= k < |t.exprs| ==> t.exprs[k].InputRef?
    ensures forall k :: 0 <= k < |Append(t, InputRef(i), true).exprs| ==> Append(t, InputRef(i), true).exprs[k].InputRef?
  {
    assert Append(t, InputRef(i), true).exprs == t.exprs + [InputRef(i)];
  }

  /** The repaired pusher's run on `Again`: the seeds, then the condition, which appends `$2` as a bare reference. */
  lemma AgainPush(fuel: nat)
    ensures WellFormed(Again.condition) && Increasing(Again.projected)
    ensures var p := PushCondition(Again, BothAbsorbs, fuel);
      && Valid(p.table) && |Again.projected| <= |p.table.exprs|
      && forall i :: 0 <= i < |p.table.exprs| ==> p.table.exprs[i].InputRef?
  {
    NewTestIsNormal(fuel);
    AgainColumns();
    PushConditionFromSeeds(Again, BothAbsorbs, fuel);
    var t := Seed(Again.projected, 3);
    AgainSeeds(t);
    AgainPositions(t);
    PushAgain(t);
    AppendRef(t, 2);
  }

  /**
    Running the repaired rule on its own replacement changes nothing: the
    only operands it would hoist are bare column references.
   */
  lemma RewriteIsStable(fuel: nat)
    ensures WellFormed(Again.condition) && Increasing(Again.projected)
    ensures OnMatch(Again, BothAbsorbs, fuel) == NoChange
  {
    AgainPush(fuel);
    NothingHoistedNoChange(Again, PushCondition(Again, BothAbsorbs, fuel));
  }

  /** The replacement `RepairedRewritesJoin` builds, read as a join, is `Again`. */
  lemma ExpectedIsAgain()
    ensures Again.leftCount == |Expected.leftProjects|
    ensures Again.condition == Expected.condition
    ensures forall k :: k in Expected.projected <==> k in Again.projected
    ensures Increasing(Again.projected)
  {
  }
}
