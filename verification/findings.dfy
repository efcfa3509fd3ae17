/**
  The merge as written lets a LEFT-only expression absorb a BOTH operand:
  `Side.merge` looks only for LEFT and RIGHT, so `(($0 + $2) * 2)` comes out
  EMPTY and `((($0 + $2) * 2) * $1)` comes out LEFT although it reads the
  right column `$2`. Pushed under a mixed `+`, that expression is hoisted into
  the new LEFT projection, which then reads a column the left input does not
  have. The repaired merge (BOTH absorbs) keeps the expression BOTH and leaves
  the join alone. The join condition compares that sum with zero.
 */
module Findings {
  import opened Wrappers
  import opened Exprs
  import opened Sides
  import opened Rewriter
  import opened Pusher
  import opened Renumber
  import opened Soundness
  import opened Rule

  /** `$0 + $2`: reads one left and one right column. */
  const Mixed: Expr := Call(Plus, [InputRef(0), InputRef(2)])
  /** `($0 + $2) * 2`: BOTH by its refs, EMPTY under the merge as written. */
  const Scaled: Expr := Call(Times, [Mixed, Literal(2)])
  /** `(($0 + $2) * 2) * $1`: BOTH by its refs, LEFT under the merge as written. */
  const Tainted: Expr := Call(Times, [Scaled, InputRef(1)])
  /** `((($0 + $2) * 2) * $1) + $3`: LEFT plus RIGHT under the merge as written. */
  const Sum: Expr := Call(Plus, [Tainted, InputRef(3)])
  /** `>`: a deterministic operator the rule does not tell apart. */
  const Greater: Op := Other(">", true)
  /** `((($0 + $2) * 2) * $1) + $3 > 0`: the join condition. */
  const Condition: Expr := Call(Greater, [Sum, Literal(0)])

  /** A join of a two-column left input and a two-column right input, all four columns projected. */
  const Witness: NestedLoopJoin := NestedLoopJoin(2, Condition, [0, 1, 2, 3])

  /** Seeding four increasing columns puts the four references in order. */
  lemma SeededTable(cols: seq<nat>, leftCount: nat, t: Table)
    requires Increasing(cols) && |cols| == 4
    requires t == Seed(cols, leftCount)
    ensures Valid(t)
    ensures t.exprs == [InputRef(cols[0]), InputRef(cols[1]), InputRef(cols[2]), InputRef(cols[3])]
  {
    assert |t.exprs| == 4;
    assert t.exprs[0] == InputRef(cols[0]) && t.exprs[1] == InputRef(cols[1]);
    assert t.exprs[2] == InputRef(cols[2]) && t.exprs[3] == InputRef(cols[3]);
  }

  /** The condition has no trig redex, so the rewriter hands it back unchanged. */
  lemma WitnessIsNormal(fuel: nat)
    ensures WellFormed(Condition)
    ensures Normalize(Condition, fuel).expr == Condition
  {
    assert WellFormed(Mixed);
    assert WellFormed(Scaled);
    assert WellFormed(Tainted);
    assert NoRedex(Mixed);
    assert NoRedex(Scaled);
    assert NoRedex(Tainted);
    assert WellFormed(Sum);
    assert NoRedex(Sum);
    assert NoRedex(Condition);
  }

  /** A column reference is LEFT below the left input's column count and RIGHT from it on. */
  lemma PushRef(i: nat, t: Table, cfg: Config)
    ensures Push(InputRef(i), t, cfg) == Pushed(InputRef(i), if i < cfg.leftCount then Left else Right, t)
  {
  }

  /** Pushing two operands: the first over `t`, the second over what the first left behind. */
  lemma PushPair(a: Expr, b: Expr, t: Table, cfg: Config)
    ensures var ra := Push(a, t, cfg);
      var rb := Push(b, ra.table, cfg);
      PushAll([a, b], t, cfg) == PushedAll([ra.expr, rb.expr], [ra.side, rb.side], rb.table)
  {
    var ra := Push(a, t, cfg);
    var rb := Push(b, ra.table, cfg);
    assert [a, b][1..] == [b];
    assert [b][1..] == [];
    assert PushAll([b], ra.table, cfg) == PushedAll([rb.expr], [rb.side], rb.table);
  }

  /** A non-marker call over two operands that keep the table and do not mix sides takes their merge. */
  lemma MergedStep(op: Op, a: Expr, b: Expr, sa: Side, sb: Side, t: Table, cfg: Config)
    requires !op.IsMarker()
    requires Push(a, t, cfg) == Pushed(a, sa, t) && Push(b, t, cfg) == Pushed(b, sb, t)
    requires !ShouldPushDown([sa, sb])
    ensures Push(Call(op, [a, b]), t, cfg) == Pushed(Call(op, [a, b]), MergeBy(cfg.variant, [sa, sb]), t)
  {
    PushPair(a, b, t, cfg);
  }

  /** A non-marker call over two operands that keep the table and mix sides is pushed down as BOTH. */
  lemma PushedDownStep(op: Op, a: Expr, b: Expr, sa: Side, sb: Side, t: Table, cfg: Config)
    requires !op.IsMarker()
    requires Push(a, t, cfg) == Pushed(a, sa, t) && Push(b, t, cfg) == Pushed(b, sb, t)
    requires ShouldPushDown([sa, sb])
    ensures var h := HoistAll([a, b], [sa, sb], t);
      Push(Call(op, [a, b]), t, cfg) == Pushed(Call(op, h.exprs), Both, h.table)
  {
    PushPair(a, b, t, cfg);
  }

  /** A comparison with a literal never mixes sides: it takes the merge of its first operand's side with EMPTY. */
  lemma ComparedStep(op: Op, a: Expr, t: Table, cfg: Config)
    requires !op.IsMarker()
    ensures var ra := Push(a, t, cfg);
      Push(Call(op, [a, Literal(0)]), t, cfg)
        == Pushed(Call(op, [ra.expr, Literal(0)]), MergeBy(cfg.variant, [ra.side, Empty]), ra.table)
  {
    var ra := Push(a, t, cfg);
    PushPair(a, Literal(0), t, cfg);
    assert Push(Literal(0), ra.table, cfg) == Pushed(Literal(0), Empty, ra.table);
    assert !ShouldPushDown([ra.side, Empty]) by {
      assert [ra.side, Empty][0] == ra.side && [ra.side, Empty][1] == Empty;
    }
  }

  /** Hoisting two operands: the first over `t`, the second over what the first left behind. */
  lemma HoistPair(a: Expr, b: Expr, sa: Side, sb: Side, t: Table)
    ensures var ha := HoistOperand(a, sa, t);
      var hb := HoistOperand(b, sb, ha.table);
      HoistAll([a, b], [sa, sb], t) == HoistedAll([ha.expr, hb.expr], hb.table)
  {
    var ha := HoistOperand(a, sa, t);
    var hb := HoistOperand(b, sb, ha.table);
    assert [a, b][1..] == [b] && [sa, sb][1..] == [sb];
    assert [b][1..] == [] && [sb][1..] == [];
    assert HoistAll([b], [sb], ha.table) == HoistedAll([hb.expr], hb.table);
  }

  /** The four seed columns, each at its own position. */
  predicate Seeded(t: Table) {
    && Valid(t)
    && t.exprs == [InputRef(0), InputRef(1), InputRef(2), InputRef(3)]
  }

  /** Every seed reference `$i` is known to the map at position `i`. */
  predicate Positioned(t: Table) {
    forall i :: 0 <= i < 4 ==> InputRef(i) in t.positions && t.positions[InputRef(i)] == i
  }

  lemma SeededAreRefs(t: Table)
    requires Seeded(t)
    ensures |t.exprs| == 4 && forall i :: 0 <= i < |t.exprs| ==> t.exprs[i].InputRef?
  {
  }

  lemma SeededPositions(t: Table)
    requires Seeded(t)
    ensures Positioned(t)
    ensures Tainted !in t.positions
  {
    assert forall i :: 0 <= i < 4 ==> t.exprs[i] == InputRef(i);
    assert forall e :: e in t.positions ==> e in t.exprs;
  }

  /** The operands of `$0 + $2` push to LEFT and RIGHT, so the sum is pushed down in place as BOTH. */
  lemma PushMixed(t: Table, v: Variant)
    requires Positioned(t)
    ensures Push(Mixed, t, Config(2, v)) == Pushed(Mixed, Both, t)
  {
    var cfg := Config(2, v);
    PushRef(0, t, cfg);
    PushRef(2, t, cfg);
    assert ShouldPushDown([Left, Right]) by {
      assert [Left, Right][0] == Left && [Left, Right][1] == Right;
    }
    PushedDownStep(Plus, InputRef(0), InputRef(2), Left, Right, t, cfg);
    HoistPair(InputRef(0), InputRef(2), Left, Right, t);
  }

  /** `($0 + $2) * 2` merges [BOTH, EMPTY] with the configured merge, keeping the table. */
  lemma PushScaled(t: Table, v: Variant)
    requires Positioned(t)
    ensures Push(Scaled, t, Config(2, v)) == Pushed(Scaled, MergeBy(v, [Both, Empty]), t)
  {
    var cfg := Config(2, v);
    PushMixed(t, v);
    assert Push(Literal(2), t, cfg) == Pushed(Literal(2), Empty, t);
    assert !ShouldPushDown([Both, Empty]) by {
      assert forall i :: 0 <= i < 2 ==> [Both, Empty][i] != Left && [Both, Empty][i] != Right;
    }
    MergedStep(Times, Mixed, Literal(2), Both, Empty, t, cfg);
  }

  /** The two merges part ways on [BOTH, EMPTY]. */
  lemma ScaledSides()
    ensures MergeBy(AsWritten, [Both, Empty]) == Empty
    ensures MergeBy(BothAbsorbs, [Both, Empty]) == Both
  {
    assert [Both, Empty][0] == Both;
  }

  /** As written, `(($0 + $2) * 2) * $1` merges [EMPTY, LEFT] to LEFT. */
  lemma PushTaintedAsWritten(t: Table)
    requires Positioned(t)
    ensures Push(Tainted, t, Config(2, AsWritten)) == Pushed(Tainted, Left, t)
  {
    var cfg := Config(2, AsWritten);
    PushScaled(t, AsWritten);
    ScaledSides();
    PushRef(1, t, cfg);
    assert !ShouldPushDown([Empty, Left]) by {
      assert forall i :: 0 <= i < 2 ==> [Empty, Left][i] != Right && [Empty, Left][i] != Both;
    }
    MergedStep(Times, Scaled, InputRef(1), Empty, Left, t, cfg);
    assert Merge([Empty, Left]) == Left by {
      assert [Empty, Left][1] == Left;
    }
  }

  /**
    As written, the sum's operands are LEFT and RIGHT, so it is pushed down:
    the tainted product is appended as table entry 4, tagged LEFT, and the sum
    becomes `$4 + $3`.
   */
  lemma PushSumAsWritten(t: Table)
    requires Positioned(t) && Tainted !in t.positions
    ensures var r := Push(Sum, t, Config(2, AsWritten));
      && r.side == Both
      && r.expr == Call(Plus, [InputRef(|t.exprs|), InputRef(3)])
      && r.table == Append(t, Tainted, true)
  {
    var cfg := Config(2, AsWritten);
    PushTaintedAsWritten(t);
    PushRef(3, t, cfg);
    assert ShouldPushDown([Left, Right]) by {
      assert [Left, Right][0] == Left && [Left, Right][1] == Right;
    }
    PushedDownStep(Plus, Tainted, InputRef(3), Left, Right, t, cfg);
    HoistPair(Tainted, InputRef(3), Left, Right, t);
    var head := HoistOperand(Tainted, Left, t);
    assert head == Hoisted(InputRef(|t.exprs|), Append(t, Tainted, true));
    assert InputRef(3) in head.table.positions && head.table.positions[InputRef(3)] == 3;
  }

  /** Repaired, `(($0 + $2) * 2) * $1` mixes BOTH with LEFT and is pushed down in place. */
  lemma PushTaintedRepaired(t: Table)
    requires Positioned(t)
    ensures Push(Tainted, t, Config(2, BothAbsorbs)) == Pushed(Tainted, Both, t)
  {
    var cfg := Config(2, BothAbsorbs);
    PushScaled(t, BothAbsorbs);
    ScaledSides();
    PushRef(1, t, cfg);
    assert ShouldPushDown([Both, Left]) by {
      assert [Both, Left][0] == Both && [Both, Left][1] == Left;
    }
    PushedDownStep(Times, Scaled, InputRef(1), Both, Left, t, cfg);
    HoistPair(Scaled, InputRef(1), Both, Left, t);
  }

  /**
    As written, the comparison merges [BOTH, EMPTY] to EMPTY and keeps the
    pushed-down sum: the condition becomes `$4 + $3 > 0` over the table with
    the tainted entry.
   */
  lemma PushConditionAsWritten(t: Table)
    requires Positioned(t) && Tainted !in t.positions
    ensures var r := Push(Condition, t, Config(2, AsWritten));
      && r.side == Empty
      && r.expr == Call(Greater, [Call(Plus, [InputRef(|t.exprs|), InputRef(3)]), Literal(0)])
      && r.table == Append(t, Tainted, true)
  {
    PushSumAsWritten(t);
    ComparedStep(Greater, Sum, t, Config(2, AsWritten));
    ScaledSides();
  }

  /** Repaired, the comparison merges [BOTH, EMPTY] to BOTH and keeps the condition whole: the table keeps only the seeds. */
  lemma PushConditionRepaired(t: Table)
    requires Positioned(t)
    ensures Push(Condition, t, Config(2, BothAbsorbs)) == Pushed(Condition, Both, t)
  {
    PushSumRepaired(t);
    ComparedStep(Greater, Sum, t, Config(2, BothAbsorbs));
    ScaledSides();
  }

  /** Repaired, the sum mixes BOTH with RIGHT and is pushed down in place. */
  lemma PushSumRepaired(t: Table)
    requires Positioned(t)
    ensures Push(Sum, t, Config(2, BothAbsorbs)) == Pushed(Sum, Both, t)
  {
    var cfg := Config(2, BothAbsorbs);
    PushTaintedRepaired(t);
    PushRef(3, t, cfg);
    assert ShouldPushDown([Both, Right]) by {
      assert [Both, Right][0] == Both && [Both, Right][1] == Right;
    }
    PushedDownStep(Plus, Tainted, InputRef(3), Both, Right, t, cfg);
    HoistPair(Tainted, InputRef(3), Both, Right, t);
  }

  /** The repaired pusher's run on `Witness`: seeds, then the condition, which is kept whole. */
  lemma WitnessPushRepaired(fuel: nat)
    ensures WellFormed(Witness.condition) && Increasing(Witness.projected)
    ensures var t := Seed(Witness.projected, 2);
      && Seeded(t)
      && PushCondition(Witness, BothAbsorbs, fuel) == Pushed(Condition, Both, t)
  {
    WitnessIsNormal(fuel);
    var cols: seq<nat> := [0, 1, 2, 3];
    assert Increasing(cols);
    PushConditionFromSeeds(Witness, BothAbsorbs, fuel);
    var t := Seed(cols, 2);
    SeededTable(cols, 2, t);
    SeededPositions(t);
    PushConditionRepaired(t);
  }

  /** With the repaired merge the rule leaves `Witness` alone: every table entry is a seed reference. */
  lemma RepairedLeavesWitnessAlone(fuel: nat)
    ensures WellFormed(Witness.condition) && Increasing(Witness.projected)
    ensures TagSound(PushCondition(Witness, BothAbsorbs, fuel).table, 2, 4)
    ensures OnMatch(Witness, BothAbsorbs, fuel) == NoChange
  {
    WitnessPushRepaired(fuel);
    var t := Seed(Witness.projected, 2);
    var p := Pushed(Condition, Both, t);
    SeededAreRefs(t);
    NothingHoistedNoChange(Witness, p);
    SeedTagSound(Witness.projected, 2, 4);
  }

  /** The tainted product reads the right column `$2`. */
  lemma TaintedReadsRight()
    ensures !RefsWithin(Tainted, 0, 2)
    ensures RefsWithin(Tainted, 0, 4)
  {
    assert !RefsWithin(Mixed, 0, 2) by { assert Mixed.args[1] == InputRef(2); }
    assert !RefsWithin(Scaled, 0, 2) by { assert Scaled.args[0] == Mixed; }
    assert Tainted.args[0] == Scaled;
    assert RefsWithin(Mixed, 0, 4);
    assert RefsWithin(Scaled, 0, 4);
  }

  /** The as-written pusher's run on `Witness`: seeds, then the condition, which appends the tainted entry. */
  lemma WitnessPushAsWritten(fuel: nat)
    ensures WellFormed(Witness.condition) && Increasing(Witness.projected)
    ensures var t := Seed(Witness.projected, 2);
      && Seeded(t)
      && PushCondition(Witness, AsWritten, fuel)
           == Pushed(Call(Greater, [Call(Plus, [InputRef(4), InputRef(3)]), Literal(0)]), Empty, Append(t, Tainted, true))
  {
    WitnessIsNormal(fuel);
    var cols: seq<nat> := [0, 1, 2, 3];
    assert Increasing(cols);
    PushConditionFromSeeds(Witness, AsWritten, fuel);
    var t := Seed(cols, 2);
    SeededTable(cols, 2, t);
    SeededPositions(t);
    PushConditionAsWritten(t);
  }

  /** Appending the tainted product to the seeds, tagged LEFT. */
  lemma AppendTainted(t: Table)
    requires Seeded(t)
    ensures var t' := Append(t, Tainted, true);
      && Valid(t')
      && t'.exprs == [InputRef(0), InputRef(1), InputRef(2), InputRef(3), Tainted]
      && 4 in t'.leftExprs
  {
    SeededPositions(t);
  }

  /**
    The as-written rule on `Witness`: the pushed table tags an entry LEFT
    that reads a right column, so the table is not tag-sound, and the rule
    rewrites the join with a left projection that reads column 2 of a
    two-column left input.
   */
  lemma AsWrittenLeaksRightColumn(fuel: nat)
    ensures WellFormed(Witness.condition) && Increasing(Witness.projected)
    ensures !TagSound(PushCondition(Witness, AsWritten, fuel).table, 2, 4)
    ensures var r := OnMatch(Witness, AsWritten, fuel);
      && r.Rewritten?
      && exists k :: 0 <= k < |r.join.leftProjects| && !RefsWithin(r.join.leftProjects[k], 0, Witness.leftCount)
  {
    WitnessPushAsWritten(fuel);
    var p := PushCondition(Witness, AsWritten, fuel);
    AppendTainted(Seed(Witness.projected, 2));
    var t' := p.table;
    var k :| 0 <= k < |t'.leftExprs| && t'.leftExprs[k] == 4;
    TaintedReadsRight();
    assert !RefsWithin(t'.exprs[t'.leftExprs[k]], 0, 2);
    AsWrittenRewrites(p, k);
  }

  /** `Assemble` on the as-written push: the tainted entry makes it rewrite, and exposes it as a left projection. */
  lemma AsWrittenRewrites(p: Pushed, k: nat)
    requires Valid(p.table) && 4 <= |p.table.exprs|
    requires p.expr == Call(Greater, [Call(Plus, [InputRef(4), InputRef(3)]), Literal(0)])
    requires k < |p.table.leftExprs| && p.table.leftExprs[k] == 4
    requires p.table.exprs == [InputRef(0), InputRef(1), InputRef(2), InputRef(3), Tainted]
    ensures var r := Assemble(Witness, p);
      && r.Rewritten?
      && k < |r.join.leftProjects| && !RefsWithin(r.join.leftProjects[k], 0, Witness.leftCount)
  {
    assert !p.table.exprs[4].InputRef?;
    var sum := Call(Plus, [InputRef(4), InputRef(3)]);
    assert RefsWithin(p.expr, 0, |p.table.exprs|) by {
      RefsWithinSmallCall(Plus, InputRef(4), InputRef(3), 0, |p.table.exprs|);
      RefsWithinSmallCall(Greater, sum, Literal(0), 0, |p.table.exprs|);
    }
    AssembleDoesNotFail(Witness, p);
    var order := Layout(p.table);
    ConditionRemaps(p.table, p.expr);
    var rs := RemapAll(p.expr.args, order);
    assert rs.Some? && Remap(sum, order) == Some(rs.value[0]);
    var rsum := RemapAll(sum.args, order);
    assert rsum.Some? && Remap(InputRef(4), order) == Some(rsum.value[0]);
    TaintedReadsRight();
  }
}
