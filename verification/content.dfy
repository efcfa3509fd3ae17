/**
  What a pushed condition computes. A BOTH node is read through the table:
  each reference to a position stands for the entry there (`Inline`). The
  pusher must then give back the condition it was handed, except that a
  marker whose operands lie on opposite sides becomes its sum formula and
  any other marker is restored (`Resolve`, judged from the columns alone).
  `PushComputes` proves that `visitCall` does exactly this under the repaired
  merge, so the expansion, the restoring and the hoisting are all pinned.
 */
module Content {
  import opened Exprs
  import opened Sides
  import opened Trig
  import opened Rewriter
  import opened Pusher
  import opened Soundness
  import opened Renumber
  import opened Rule

  /** `e` with each reference to a position `k` of `entries` replaced by entry `k`; other references stay. */
  function Inline(e: Expr, entries: seq<Expr>): Expr {
    match e
    case InputRef(k) => if 0 <= k < |entries| then entries[k] else e
    case Literal(_) => e
    case Call(op, args) => Call(op, seq(|args|, i requires 0 <= i < |args| => Inline(args[i], entries)))
  }

  /**
    The expected result of pushing `e`, from the columns it mentions alone: a
    two-operand marker whose operands' footprints are LEFT and RIGHT (either
    way round) becomes its sum formula, any other two-operand marker is
    restored, and every other node is kept.
   */
  function Resolve(e: Expr, leftCount: nat): Expr {
    match e
    case Call(op, args) =>
      if |args| == 2 && op.IsMarker() then
        var a, b := Resolve(args[0], leftCount), Resolve(args[1], leftCount);
        if DifferentSides(Footprint(args[0], leftCount), Footprint(args[1], leftCount)) then Expand(op, a, b)
        else Restored(op, a, b)
      else Call(op, seq(|args|, i requires 0 <= i < |args| => Resolve(args[i], leftCount)))
    case _ => e
  }

  /** A pushed node computes `e`: read through its table when BOTH, as it stands otherwise. */
  predicate Computes(e: Expr, r: Pushed, leftCount: nat) {
    if r.side == Both then Inline(r.expr, r.table.exprs) == Resolve(e, leftCount)
    else r.expr == Resolve(e, leftCount)
  }

  /** Each pushed operand computes its argument, the BOTH ones read through the final table. */
  predicate ComputesAll(args: seq<Expr>, r: PushedAll, leftCount: nat) {
    && |r.exprs| == |args|
    && |r.sides| == |args|
    && forall k :: 0 <= k < |args| ==>
         if r.sides[k] == Both then Inline(r.exprs[k], r.table.exprs) == Resolve(args[k], leftCount)
         else r.exprs[k] == Resolve(args[k], leftCount)
  }

  /** An expression that mentions no column reads the same through any table. */
  lemma {:induction false} InlineNoRefs(x: Expr, entries: seq<Expr>)
    requires RefsWithin(x, 0, 0)
    ensures Inline(x, entries) == x
  {
    match x
    case InputRef(_) =>
    case Literal(_) =>
    case Call(op, args) =>
      forall k | 0 <= k < |args|
        ensures Inline(args[k], entries) == args[k]
      {
        InlineNoRefs(args[k], entries);
      }
      assert Inline(x, entries).args == args;
  }

  /** Appending entries to a table does not change what an expression over its old positions reads. */
  lemma {:induction false} InlineGrow(x: Expr, entries: seq<Expr>, entries': seq<Expr>)
    requires RefsWithin(x, 0, |entries|) && entries <= entries'
    ensures Inline(x, entries') == Inline(x, entries)
  {
    match x
    case InputRef(k) =>
      assert entries'[k] == entries[k];
    case Literal(_) =>
    case Call(op, args) =>
      forall k | 0 <= k < |args|
        ensures Inline(args[k], entries') == Inline(args[k], entries)
      {
        InlineGrow(args[k], entries, entries');
      }
      assert Inline(x, entries').args == Inline(x, entries).args;
  }

  lemma {:induction false} UnmarkAllAt(args: seq<Expr>)
    ensures forall k :: 0 <= k < |args| ==> UnmarkAll(args)[k] == Unmark(args[k])
  {
    if |args| > 0 {
      UnmarkAllAt(args[1..]);
      assert forall k :: 1 <= k < |args| ==> args[1..][k - 1] == args[k];
    }
  }

  lemma {:induction false} FootprintAllAt(args: seq<Expr>, leftCount: nat)
    ensures forall k :: 0 <= k < |args| ==> FootprintAll(args, leftCount)[k] == Footprint(args[k], leftCount)
  {
    if |args| > 0 {
      FootprintAllAt(args[1..], leftCount);
      assert forall k :: 1 <= k < |args| ==> args[1..][k - 1] == args[k];
    }
  }

  /** A node that is not BOTH has no marker to expand: resolving it is restoring its markers. */
  lemma {:induction false} ResolveOneSided(e: Expr, leftCount: nat)
    requires Footprint(e, leftCount) != Both
    ensures Resolve(e, leftCount) == Unmark(e)
  {
    match e
    case InputRef(_) =>
    case Literal(_) =>
    case Call(op, args) =>
      var sides := FootprintAll(args, leftCount);
      FootprintAllAt(args, leftCount);
      forall k | 0 <= k < |args|
        ensures Resolve(args[k], leftCount) == Unmark(args[k])
      {
        assert sides[k] in sides;
        ResolveOneSided(args[k], leftCount);
      }
      if !(|args| == 2 && op.IsMarker()) {
        UnmarkAllAt(args);
        assert Resolve(e, leftCount).args == UnmarkAll(args);
      }
  }

  lemma ResolveUnary(op: Op, x: Expr, leftCount: nat)
    ensures Resolve(Call(op, [x]), leftCount) == Call(op, [Resolve(x, leftCount)])
  {
    assert Resolve(Call(op, [x]), leftCount).args == [Resolve(x, leftCount)];
  }

  lemma ResolveBinary(op: Op, x: Expr, y: Expr, leftCount: nat)
    requires !op.IsMarker()
    ensures Resolve(Call(op, [x, y]), leftCount) == Call(op, [Resolve(x, leftCount), Resolve(y, leftCount)])
  {
    assert Resolve(Call(op, [x, y]), leftCount).args == [Resolve(x, leftCount), Resolve(y, leftCount)];
  }

  lemma ResolveProduct(f: Op, x: Expr, g: Op, y: Expr, leftCount: nat)
    ensures Resolve(Product(f, x, g, y), leftCount) == Product(f, Resolve(x, leftCount), g, Resolve(y, leftCount))
  {
    ResolveUnary(f, x, leftCount);
    ResolveUnary(g, y, leftCount);
    ResolveBinary(Times, Call(f, [x]), Call(g, [y]), leftCount);
  }

  /** The special forms hold no marker of their own, so resolving them resolves their operands. */
  lemma SpecialResolves(m: Op, a: Expr, b: Expr, leftCount: nat)
    requires m.IsMarker()
    ensures Resolve(Restored(m, a, b), leftCount) == Restored(m, Resolve(a, leftCount), Resolve(b, leftCount))
    ensures Resolve(Expand(m, a, b), leftCount) == Expand(m, Resolve(a, leftCount), Resolve(b, leftCount))
  {
    var f, g := MarkerTrig(m), MarkerSign(m);
    ResolveBinary(g, a, b, leftCount);
    ResolveUnary(f, Call(g, [a, b]), leftCount);
    var sign := if f == Sin then g else Flip(g);
    ResolveProduct(f, a, Cos, b, leftCount);
    ResolveProduct(CoFunction(f), a, Sin, b, leftCount);
    ResolveBinary(sign, Product(f, a, Cos, b), Product(CoFunction(f), a, Sin, b), leftCount);
  }

  /** The marker branch: the special form that is pushed again resolves to what the marker call resolves to. */
  lemma MarkerComputes(m: Op, a: Expr, b: Expr, sides: seq<Side>, leftCount: nat)
    requires m.IsMarker()
    requires sides == FootprintAll([a, b], leftCount)
    ensures Resolve(if DifferentSides(sides[0], sides[1]) then Expand(m, a, b) else Restored(m, a, b), leftCount)
      == Resolve(Call(m, [a, b]), leftCount)
  {
    BinaryCall(m, a, b, leftCount);
    SpecialResolves(m, a, b, leftCount);
  }

  /**
    The push-down branch: a hoisted operand is a reference to the entry that
    holds it, an EMPTY one mentions no position and a BOTH one only positions
    the table already had, so the call reads back as the resolved call.
   */
  lemma PushDownComputes(op: Op, args: seq<Expr>, operands: PushedAll, leftCount: nat, width: int)
    requires !(|args| == 2 && op.IsMarker())
    requires Valid(operands.table)
    requires ComputesAll(args, operands, leftCount)
    requires forall k :: 0 <= k < |args| ==>
      SideSound(operands.exprs[k], operands.sides[k], leftCount, width, |operands.table.exprs|)
    ensures var hoisted := HoistAll(operands.exprs, operands.sides, operands.table);
      Inline(Call(op, hoisted.exprs), hoisted.table.exprs) == Resolve(Call(op, args), leftCount)
  {
    var hoisted := HoistAll(operands.exprs, operands.sides, operands.table);
    var entries := hoisted.table.exprs;
    forall k | 0 <= k < |args|
      ensures Inline(hoisted.exprs[k], entries) == Resolve(args[k], leftCount)
    {
      var x, s := operands.exprs[k], operands.sides[k];
      if s == Empty {
        InlineNoRefs(x, entries);
      } else if s == Both {
        InlineGrow(x, operands.table.exprs, entries);
      }
    }
    assert Inline(Call(op, hoisted.exprs), entries).args == Resolve(Call(op, args), leftCount).args;
  }

  /** The merge branch of a BOTH call: its operands are all BOTH or EMPTY, so it reads back as the resolved call. */
  lemma MergeComputes(op: Op, args: seq<Expr>, operands: PushedAll, leftCount: nat, width: int)
    requires !(|args| == 2 && op.IsMarker())
    requires ComputesAll(args, operands, leftCount)
    requires forall k :: 0 <= k < |args| ==>
      SideSound(operands.exprs[k], operands.sides[k], leftCount, width, |operands.table.exprs|)
    requires !ShouldPushDown(operands.sides) && MergeBothAbsorbs(operands.sides) == Both
    ensures Inline(Call(op, operands.exprs), operands.table.exprs) == Resolve(Call(op, args), leftCount)
  {
    var entries := operands.table.exprs;
    forall k | 0 <= k < |args|
      ensures Inline(operands.exprs[k], entries) == Resolve(args[k], leftCount)
    {
      assert operands.sides[k] in operands.sides;
      if operands.sides[k] == Empty {
        InlineNoRefs(operands.exprs[k], entries);
      }
    }
    assert Inline(Call(op, operands.exprs), entries).args == Resolve(Call(op, args), leftCount).args;
  }

  /** Pushing a list: the head still reads the same through the tail's larger table. */
  lemma ConsComputes(args: seq<Expr>, head: Pushed, tail: PushedAll, r: PushedAll, leftCount: nat)
    requires |args| > 0
    requires Computes(args[0], head, leftCount)
    requires ComputesAll(args[1..], tail, leftCount)
    requires head.side == Both ==> RefsWithin(head.expr, 0, |head.table.exprs|)
    requires head.table.exprs <= tail.table.exprs
    requires r == PushedAll([head.expr] + tail.exprs, [head.side] + tail.sides, tail.table)
    ensures ComputesAll(args, r, leftCount)
  {
    forall k | 0 <= k < |args|
      ensures if r.sides[k] == Both then Inline(r.exprs[k], r.table.exprs) == Resolve(args[k], leftCount)
              else r.exprs[k] == Resolve(args[k], leftCount)
    {
      if k == 0 {
        if head.side == Both {
          InlineGrow(head.expr, head.table.exprs, tail.table.exprs);
        }
      } else {
        assert r.exprs[k] == tail.exprs[k - 1] && r.sides[k] == tail.sides[k - 1];
        assert args[k] == args[1..][k - 1];
      }
    }
  }

  /**
    With the repaired merge, pushing `e` computes `e` with its markers
    resolved: a BOTH result, read through its table, is `Resolve(e)`, and
    any other result is `Resolve(e)` itself. So a cross-side marker is
    expanded, every other marker is restored, and hoisting loses nothing.
   */
  lemma {:induction false} PushComputes(e: Expr, t: Table, cfg: Config, width: int)
    requires cfg.variant == BothAbsorbs
    requires Valid(t) && TagSound(t, cfg.leftCount, width)
    requires RefsWithin(e, 0, width)
    ensures Computes(e, Push(e, t, cfg), cfg.leftCount)
    decreases Weight(e), 1
  {
    PushSound(e, t, cfg, width);
    var r := Push(e, t, cfg);
    if r.side != Both {
      ResolveOneSided(e, cfg.leftCount);
    } else if e.Call? {
      var op, args := e.op, e.args;
      OperandsAreLighter(op, args);
      PushAllSound(args, t, cfg, width);
      PushAllComputes(args, t, cfg, width);
      var operands := PushAll(args, t, cfg);
      if |args| == 2 && op.IsMarker() {
        var a, b := args[0], args[1];
        assert args == [a, b];
        SpecialFormsAreLighter(op, a, b);
        SpecialFormsKeep(op, a, b, 0, width);
        var special :=
          if DifferentSides(operands.sides[0], operands.sides[1]) then Expand(op, a, b)
          else Restored(op, a, b);
        assert RefsWithin(special, 0, width);
        PushComputes(special, operands.table, cfg, width);
        MarkerComputes(op, a, b, operands.sides, cfg.leftCount);
      } else if ShouldPushDown(operands.sides) {
        PushDownComputes(op, args, operands, cfg.leftCount, width);
      } else {
        MergeComputes(op, args, operands, cfg.leftCount, width);
      }
    }
  }

  lemma {:induction false} PushAllComputes(args: seq<Expr>, t: Table, cfg: Config, width: int)
    requires cfg.variant == BothAbsorbs
    requires Valid(t) && TagSound(t, cfg.leftCount, width)
    requires forall k :: 0 <= k < |args| ==> RefsWithin(args[k], 0, width)
    ensures ComputesAll(args, PushAll(args, t, cfg), cfg.leftCount)
    decreases WeightOf(args), 2
  {
    if |args| > 0 {
      var head := Push(args[0], t, cfg);
      PushComputes(args[0], t, cfg, width);
      PushSound(args[0], t, cfg, width);
      assert forall k :: 0 <= k < |args[1..]| ==> args[1..][k] == args[k + 1];
      PushAllComputes(args[1..], head.table, cfg, width);
      var tail := PushAll(args[1..], head.table, cfg);
      ConsComputes(args, head, tail, PushAll(args, t, cfg), cfg.leftCount);
    }
  }

  /**
    A marker whose operands come from opposite sides (LEFT and RIGHT, either
    way round) is pushed as BOTH and computes its sum formula over the
    operands; it is not restored.
   */
  lemma CrossSideMarkerExpands(m: Op, a: Expr, b: Expr, t: Table, cfg: Config, width: int)
    requires cfg.variant == BothAbsorbs
    requires Valid(t) && TagSound(t, cfg.leftCount, width)
    requires m.IsMarker() && RefsWithin(Call(m, [a, b]), 0, width)
    requires DifferentSides(Footprint(a, cfg.leftCount), Footprint(b, cfg.leftCount))
    ensures var r := Push(Call(m, [a, b]), t, cfg);
      && r.side == Both
      && Inline(r.expr, r.table.exprs) == Expand(m, Unmark(a), Unmark(b))
      && Inline(r.expr, r.table.exprs) != Restored(m, Unmark(a), Unmark(b))
  {
    PushComputes(Call(m, [a, b]), t, cfg, width);
    PushSound(Call(m, [a, b]), t, cfg, width);
    SpecialFootprint(m, a, b, cfg.leftCount);
    ResolveOneSided(a, cfg.leftCount);
    ResolveOneSided(b, cfg.leftCount);
  }

  /**
    A marker whose operands do not come from opposite sides is restored: as
    it stands when it is not BOTH, and read through the table when it is.
   */
  lemma SameSideMarkerRestores(m: Op, a: Expr, b: Expr, t: Table, cfg: Config, width: int)
    requires cfg.variant == BothAbsorbs
    requires Valid(t) && TagSound(t, cfg.leftCount, width)
    requires m.IsMarker() && RefsWithin(Call(m, [a, b]), 0, width)
    requires !DifferentSides(Footprint(a, cfg.leftCount), Footprint(b, cfg.leftCount))
    ensures var r := Push(Call(m, [a, b]), t, cfg);
      && (r.side != Both ==> r.expr == Restored(m, Unmark(a), Unmark(b)))
      && (r.side == Both ==> Inline(r.expr, r.table.exprs) == Restored(m, Resolve(a, cfg.leftCount), Resolve(b, cfg.leftCount)))
  {
    PushComputes(Call(m, [a, b]), t, cfg, width);
    PushSound(Call(m, [a, b]), t, cfg, width);
    SpecialFootprint(m, a, b, cfg.leftCount);
    var r := Push(Call(m, [a, b]), t, cfg);
    if r.side != Both {
      assert Footprint(a, cfg.leftCount) != Both && Footprint(b, cfg.leftCount) != Both;
      ResolveOneSided(a, cfg.leftCount);
      ResolveOneSided(b, cfg.leftCount);
    }
  }

  /**
    With the repaired merge, a rewritten join's condition, renumbered back
    through the layout and read through the table (whose entries the new
    projections compute), is the rewritten condition with its markers
    resolved: the rule changes how the condition is computed, not what.
   */
  lemma RewrittenConditionComputes(j: NestedLoopJoin, fuel: nat, width: nat)
    requires WellFormed(j.condition) && Increasing(j.projected)
    requires RefsWithin(j.condition, 0, width)
    requires forall i :: 0 <= i < |j.projected| ==> j.projected[i] < width
    ensures var p := PushCondition(j, BothAbsorbs, fuel);
      var r := OnMatch(j, BothAbsorbs, fuel);
      r.Rewritten? ==>
        && p.side == Both
        && Inline(Rename(r.join.condition, Layout(p.table)), p.table.exprs)
           == Resolve(Normalize(j.condition, fuel).expr, j.leftCount)
  {
    var p := PushCondition(j, BothAbsorbs, fuel);
    var cfg := Config(j.leftCount, BothAbsorbs);
    var seeded := Seed(j.projected, j.leftCount);
    PushConditionSound(j, fuel, width);
    PushConditionFromSeeds(j, BothAbsorbs, fuel);
    NormalizeKeepsRefs(j.condition, fuel, 0, width);
    SeedTagSound(j.projected, j.leftCount, width);
    PushComputes(Normalize(j.condition, fuel).expr, seeded, cfg, width);
  }
}
