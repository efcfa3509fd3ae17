/**
  What the pusher guarantees when BOTH absorbs in the merge: a node's side is
  the join of the sides of the columns it mentions, a node that is not BOTH
  comes back with only its markers restored and leaves the table alone, and
  every table entry tagged LEFT (RIGHT) mentions left (right) columns only.
 */
module Soundness {
  import opened Exprs
  import opened Sides
  import opened Trig
  import opened Pusher

  /**
    The side of a node judged from the columns it mentions alone, with no
    hoisting and no markers involved: the repaired merge (which is the
    lattice join, see `MergeBothAbsorbsIsJoinAll`) of its operands' sides.
   */
  function Footprint(e: Expr, leftCount: nat): Side {
    match e
    case InputRef(i) => if i < leftCount then Left else Right
    case Literal(_) => Empty
    case Call(_, args) => MergeBothAbsorbs(FootprintAll(args, leftCount))
  }

  function FootprintAll(args: seq<Expr>, leftCount: nat): (r: seq<Side>)
    ensures |r| == |args|
  {
    if |args| == 0 then [] else [Footprint(args[0], leftCount)] + FootprintAll(args[1..], leftCount)
  }

  /** `e` with every two-operand marker restored to `sin`/`cos` of `+`/`-`. */
  function Unmark(e: Expr): Expr {
    match e
    case Call(op, args) =>
      if |args| == 2 && op.IsMarker() then Restored(op, Unmark(args[0]), Unmark(args[1]))
      else Call(op, UnmarkAll(args))
    case _ => e
  }

  function UnmarkAll(args: seq<Expr>): (r: seq<Expr>)
    ensures |r| == |args|
  {
    if |args| == 0 then [] else [Unmark(args[0])] + UnmarkAll(args[1..])
  }

  /**
    Where the columns of a pushed node live: a LEFT node mentions columns of
    the left input, a RIGHT node columns of the right input, an EMPTY node
    none, and a BOTH node only positions of the table (of size `n`).
   */
  predicate SideSound(x: Expr, s: Side, leftCount: nat, width: int, n: nat) {
    match s
    case Left => RefsWithin(x, 0, leftCount)
    case Right => RefsWithin(x, leftCount, width)
    case Empty => RefsWithin(x, 0, 0)
    case Both => RefsWithin(x, 0, n)
  }

  /** Every entry tagged LEFT mentions left columns only, every entry tagged RIGHT right columns only. */
  predicate TagSound(t: Table, leftCount: nat, width: int) {
    && (forall k :: 0 <= k < |t.leftExprs| && t.leftExprs[k] < |t.exprs| ==>
          RefsWithin(t.exprs[t.leftExprs[k]], 0, leftCount))
    && (forall k :: 0 <= k < |t.rightExprs| && t.rightExprs[k] < |t.exprs| ==>
          RefsWithin(t.exprs[t.rightExprs[k]], leftCount, width))
  }

  lemma SideSoundGrow(x: Expr, s: Side, leftCount: nat, width: int, n: nat, n': nat)
    requires SideSound(x, s, leftCount, width, n) && n <= n'
    ensures SideSound(x, s, leftCount, width, n')
  {
    if s == Both {
      RefsWithinWiden(x, 0, n, 0, n');
    }
  }

  /** An operand that is LEFT, RIGHT or EMPTY fits in the bounds of the side its call merges to. */
  lemma OperandFits(x: Expr, s: Side, m: Side, leftCount: nat, width: int, n: nat)
    requires SideSound(x, s, leftCount, width, n)
    requires s == m || s == Empty
    ensures SideSound(x, m, leftCount, width, n)
  {
    if s == Empty {
      RefsWithinWiden(x, 0, 0, 0, 0);
      match m
      case Left => RefsWithinWiden(x, 0, 0, 0, leftCount);
      case Right => RefsWithinWiden(x, 0, 0, leftCount, width);
      case Empty =>
      case Both => RefsWithinWiden(x, 0, 0, 0, n);
    }
  }

  /** A table that only grew by appending, with each new entry tagged by its side, stays tag-sound. */
  lemma AppendTagSound(t: Table, x: Expr, s: Side, leftCount: nat, width: int, n: nat)
    requires Valid(t) && TagSound(t, leftCount, width)
    requires s == Left || s == Right
    requires SideSound(x, s, leftCount, width, n)
    requires x !in t.positions
    ensures TagSound(Append(t, x, s == Left), leftCount, width)
  {
    AppendKeepsLeftTags(t, x, s, leftCount, width, n);
    AppendKeepsRightTags(t, x, s, leftCount, width, n);
  }

  /** The LEFT half of `AppendTagSound`: the new entry joins the LEFT list only when it is LEFT-sound. */
  lemma AppendKeepsLeftTags(t: Table, x: Expr, s: Side, leftCount: nat, width: int, n: nat)
    requires Valid(t) && TagSound(t, leftCount, width)
    requires s == Left || s == Right
    requires SideSound(x, s, leftCount, width, n)
    ensures var t' := Append(t, x, s == Left);
      forall k :: 0 <= k < |t'.leftExprs| && t'.leftExprs[k] < |t'.exprs| ==>
        RefsWithin(t'.exprs[t'.leftExprs[k]], 0, leftCount)
  {
    var t' := Append(t, x, s == Left);
    forall k | 0 <= k < |t'.leftExprs| && t'.leftExprs[k] < |t'.exprs|
      ensures RefsWithin(t'.exprs[t'.leftExprs[k]], 0, leftCount)
    {
      if k < |t.leftExprs| {
        assert t'.leftExprs[k] == t.leftExprs[k];
        assert t'.exprs[t.leftExprs[k]] == t.exprs[t.leftExprs[k]];
      } else {
        assert t'.leftExprs[k] == |t.exprs| && s == Left;
      }
    }
  }

  /** The RIGHT half of `AppendTagSound`: the new entry joins the RIGHT list only when it is RIGHT-sound. */
  lemma AppendKeepsRightTags(t: Table, x: Expr, s: Side, leftCount: nat, width: int, n: nat)
    requires Valid(t) && TagSound(t, leftCount, width)
    requires s == Left || s == Right
    requires SideSound(x, s, leftCount, width, n)
    ensures var t' := Append(t, x, s == Left);
      forall k :: 0 <= k < |t'.rightExprs| && t'.rightExprs[k] < |t'.exprs| ==>
        RefsWithin(t'.exprs[t'.rightExprs[k]], leftCount, width)
  {
    var t' := Append(t, x, s == Left);
    forall k | 0 <= k < |t'.rightExprs| && t'.rightExprs[k] < |t'.exprs|
      ensures RefsWithin(t'.exprs[t'.rightExprs[k]], leftCount, width)
    {
      if k < |t.rightExprs| {
        assert t'.rightExprs[k] == t.rightExprs[k];
        assert t'.exprs[t.rightExprs[k]] == t.exprs[t.rightExprs[k]];
      } else {
        assert t'.rightExprs[k] == |t.exprs| && s == Right;
      }
    }
  }

  /** Hoisting sound operands keeps the table tag-sound and leaves a call that only mentions table positions. */
  lemma {:induction false} HoistAllSound(xs: seq<Expr>, ss: seq<Side>, t: Table, leftCount: nat, width: int, n: nat)
    requires |xs| == |ss|
    requires Valid(t) && TagSound(t, leftCount, width)
    requires n <= |t.exprs|
    requires forall k :: 0 <= k < |xs| ==> SideSound(xs[k], ss[k], leftCount, width, n)
    ensures var r := HoistAll(xs, ss, t);
      && TagSound(r.table, leftCount, width)
      && forall k :: 0 <= k < |xs| ==> RefsWithin(r.exprs[k], 0, |r.table.exprs|)
  {
    if |xs| > 0 {
      var head := HoistOperand(xs[0], ss[0], t);
      if (ss[0] == Left || ss[0] == Right) && xs[0] !in t.positions {
        AppendTagSound(t, xs[0], ss[0], leftCount, width, n);
      }
      assert forall k :: 0 <= k < |xs[1..]| ==> xs[1..][k] == xs[k + 1] && ss[1..][k] == ss[k + 1];
      HoistAllSound(xs[1..], ss[1..], head.table, leftCount, width, n);
      var tail := HoistAll(xs[1..], ss[1..], head.table);
      HoistedHeadFits(xs[0], ss[0], t, tail.table, leftCount, width, n);
      HoistedConsFits(head.expr, tail.exprs, tail.table);
    }
  }

  /** The hoisted first operand reads only positions of the final table. */
  lemma HoistedHeadFits(x: Expr, s: Side, t: Table, t': Table, leftCount: nat, width: int, n: nat)
    requires Valid(t) && n <= |t.exprs|
    requires SideSound(x, s, leftCount, width, n)
    requires Extends(HoistOperand(x, s, t).table, t')
    ensures RefsWithin(HoistOperand(x, s, t).expr, 0, |t'.exprs|)
  {
    var head := HoistOperand(x, s, t);
    assert |head.table.exprs| <= |t'.exprs|;
    match s
    case Empty => RefsWithinWiden(x, 0, 0, 0, |t'.exprs|);
    case Both => RefsWithinWiden(x, 0, n, 0, |t'.exprs|);
    case Left =>
    case Right =>
  }

  /** Prepending a bounded operand to bounded operands keeps them all bounded. */
  lemma HoistedConsFits(head: Expr, tail: seq<Expr>, t: Table)
    requires RefsWithin(head, 0, |t.exprs|)
    requires forall k :: 0 <= k < |tail| ==> RefsWithin(tail[k], 0, |t.exprs|)
    ensures forall k :: 0 <= k < |tail| + 1 ==> RefsWithin(([head] + tail)[k], 0, |t.exprs|)
  {
    forall k | 0 <= k < |tail| + 1
      ensures RefsWithin(([head] + tail)[k], 0, |t.exprs|)
    {
      if k > 0 {
        assert ([head] + tail)[k] == tail[k - 1];
      }
    }
  }

  /** A one-operand call has its operand's footprint and unmarks to the call of its unmarked operand. */
  lemma UnaryCall(op: Op, x: Expr, leftCount: nat)
    ensures Footprint(Call(op, [x]), leftCount) == Footprint(x, leftCount)
    ensures !op.IsMarker() ==> Unmark(Call(op, [x])) == Call(op, [Unmark(x)])
  {
    assert [x][1..] == [];
    assert FootprintAll([x], leftCount) == [Footprint(x, leftCount)];
    assert UnmarkAll([x]) == [Unmark(x)];
  }

  /** A two-operand call merges its operands' footprints and, unless a marker, unmarks operand-wise. */
  lemma BinaryCall(op: Op, x: Expr, y: Expr, leftCount: nat)
    ensures FootprintAll([x, y], leftCount) == [Footprint(x, leftCount), Footprint(y, leftCount)]
    ensures Footprint(Call(op, [x, y]), leftCount) == MergeBothAbsorbs([Footprint(x, leftCount), Footprint(y, leftCount)])
    ensures !op.IsMarker() ==> Unmark(Call(op, [x, y])) == Call(op, [Unmark(x), Unmark(y)])
  {
    assert [x, y][1..] == [y];
    assert [y][1..] == [];
    assert FootprintAll([x, y], leftCount) == [Footprint(x, leftCount), Footprint(y, leftCount)];
    assert UnmarkAll([x, y]) == [Unmark(x), Unmark(y)];
  }

  /** The form `handleSpecial` hands back has the marker call's footprint, BOTH when it is the expansion. */
  lemma SpecialFootprint(m: Op, a: Expr, b: Expr, leftCount: nat)
    requires m.IsMarker()
    ensures var fa, fb := Footprint(a, leftCount), Footprint(b, leftCount);
      && Footprint(Call(m, [a, b]), leftCount) == MergeBothAbsorbs([fa, fb])
      && Footprint(Restored(m, a, b), leftCount) == MergeBothAbsorbs([fa, fb])
      && (DifferentSides(fa, fb) ==> Footprint(Expand(m, a, b), leftCount) == Both == MergeBothAbsorbs([fa, fb]))
  {
    var fa, fb := Footprint(a, leftCount), Footprint(b, leftCount);
    var f, g := MarkerTrig(m), MarkerSign(m);
    BinaryCall(m, a, b, leftCount);
    BinaryCall(g, a, b, leftCount);
    UnaryCall(f, Call(g, [a, b]), leftCount);
    if DifferentSides(fa, fb) {
      var p := Product(f, a, Cos, b);
      var q := Product(CoFunction(f), a, Sin, b);
      UnaryCall(f, a, leftCount);
      UnaryCall(Cos, b, leftCount);
      UnaryCall(CoFunction(f), a, leftCount);
      UnaryCall(Sin, b, leftCount);
      BinaryCall(Times, Call(f, [a]), Call(Cos, [b]), leftCount);
      BinaryCall(Times, Call(CoFunction(f), [a]), Call(Sin, [b]), leftCount);
      BinaryCall(if f == Sin then g else Flip(g), p, q, leftCount);
    }
  }

  /** Restoring after unmarking the operands is unmarking the marker call. */
  lemma UnmarkRestored(m: Op, a: Expr, b: Expr)
    requires m.IsMarker()
    ensures Unmark(Restored(m, a, b)) == Unmark(Call(m, [a, b]))
  {
    var g := MarkerSign(m);
    BinaryCall(g, a, b, 0);
    UnaryCall(MarkerTrig(m), Call(g, [a, b]), 0);
  }

  /** What `PushSound` promises about one pushed node. */
  predicate PushedSound(e: Expr, t: Table, r: Pushed, leftCount: nat, width: int) {
    && r.side == Footprint(e, leftCount)
    && (r.side != Both ==> r.table == t && r.expr == Unmark(e))
    && SideSound(r.expr, r.side, leftCount, width, |r.table.exprs|)
    && TagSound(r.table, leftCount, width)
  }

  /** What `PushAllSound` promises about pushed operands. */
  predicate PushedAllSound(args: seq<Expr>, t: Table, r: PushedAll, leftCount: nat, width: int) {
    && |r.exprs| == |args|
    && r.sides == FootprintAll(args, leftCount)
    && ((forall k :: 0 <= k < |args| ==> r.sides[k] != Both) ==> r.table == t && r.exprs == UnmarkAll(args))
    && (forall k :: 0 <= k < |args| ==> SideSound(r.exprs[k], r.sides[k], leftCount, width, |r.table.exprs|))
    && TagSound(r.table, leftCount, width)
  }

  /** The marker branch of `visitCall`: the re-pushed special form answers for the marker call. */
  lemma MarkerStep(m: Op, a: Expr, b: Expr, t: Table, operands: PushedAll, special: Expr, r: Pushed, leftCount: nat, width: int)
    requires m.IsMarker()
    requires PushedAllSound([a, b], t, operands, leftCount, width)
    requires special ==
      if DifferentSides(operands.sides[0], operands.sides[1]) then Expand(m, a, b) else Restored(m, a, b)
    requires PushedSound(special, operands.table, r, leftCount, width)
    ensures PushedSound(Call(m, [a, b]), t, r, leftCount, width)
  {
    BinaryCall(m, a, b, leftCount);
    SpecialFootprint(m, a, b, leftCount);
    var fa, fb := Footprint(a, leftCount), Footprint(b, leftCount);
    assert operands.sides == [fa, fb];
    if r.side != Both {
      assert fa != Both && fb != Both;
      assert operands.table == t;
      UnmarkRestored(m, a, b);
    }
  }

  /** The push-down branch of `visitCall`: the call is BOTH and mentions table positions only. */
  lemma PushDownStep(op: Op, args: seq<Expr>, t: Table, operands: PushedAll, leftCount: nat, width: int)
    requires Valid(operands.table) && |operands.exprs| == |operands.sides|
    ensures var hoisted := HoistAll(operands.exprs, operands.sides, operands.table);
      PushedAllSound(args, t, operands, leftCount, width) && ShouldPushDown(operands.sides) ==>
      PushedSound(Call(op, args), t, Pushed(Call(op, hoisted.exprs), Both, hoisted.table), leftCount, width)
  {
    if PushedAllSound(args, t, operands, leftCount, width) && ShouldPushDown(operands.sides) {
      var hoisted := HoistAll(operands.exprs, operands.sides, operands.table);
      HoistAllSound(operands.exprs, operands.sides, operands.table, leftCount, width, |operands.table.exprs|);
      HoistedCallSound(op, hoisted);
      MixedCallIsBoth(op, args, operands.sides, leftCount);
    }
  }

  /** A call over operands that only mention table positions is BOTH-sound. */
  lemma HoistedCallSound(op: Op, hoisted: HoistedAll)
    requires forall k :: 0 <= k < |hoisted.exprs| ==> RefsWithin(hoisted.exprs[k], 0, |hoisted.table.exprs|)
    ensures RefsWithin(Call(op, hoisted.exprs), 0, |hoisted.table.exprs|)
  {
  }

  /** A call whose operands' footprints mix the two sides has footprint BOTH. */
  lemma MixedCallIsBoth(op: Op, args: seq<Expr>, sides: seq<Side>, leftCount: nat)
    requires sides == FootprintAll(args, leftCount)
    requires ShouldPushDown(sides)
    ensures Footprint(Call(op, args), leftCount) == Both
  {
  }

  /** The merge branch of `visitCall`: the operands' bounds fit the merged side. */
  lemma MergeStep(op: Op, args: seq<Expr>, t: Table, operands: PushedAll, r: Pushed, leftCount: nat, width: int)
    requires !(|args| == 2 && op.IsMarker())
    requires PushedAllSound(args, t, operands, leftCount, width)
    requires !ShouldPushDown(operands.sides)
    requires r == Pushed(Call(op, operands.exprs), MergeBothAbsorbs(operands.sides), operands.table)
    ensures PushedSound(Call(op, args), t, r, leftCount, width)
  {
    var m := r.side;
    forall k | 0 <= k < |args|
      ensures SideSound(operands.exprs[k], m, leftCount, width, |operands.table.exprs|)
    {
      assert operands.sides[k] in operands.sides;
      OperandFits(operands.exprs[k], operands.sides[k], m, leftCount, width, |operands.table.exprs|);
    }
  }

  /** Pushing a list: the head's and the tail's guarantees make the list's. */
  lemma ConsStep(args: seq<Expr>, t: Table, head: Pushed, tail: PushedAll, r: PushedAll, leftCount: nat, width: int)
    requires |args| > 0
    requires PushedSound(args[0], t, head, leftCount, width)
    requires PushedAllSound(args[1..], head.table, tail, leftCount, width)
    requires Extends(head.table, tail.table)
    requires r == PushedAll([head.expr] + tail.exprs, [head.side] + tail.sides, tail.table)
    ensures PushedAllSound(args, t, r, leftCount, width)
  {
    forall k | 0 <= k < |args|
      ensures SideSound(r.exprs[k], r.sides[k], leftCount, width, |r.table.exprs|)
    {
      if k == 0 {
        SideSoundGrow(head.expr, head.side, leftCount, width, |head.table.exprs|, |r.table.exprs|);
      } else {
        assert r.exprs[k] == tail.exprs[k - 1] && r.sides[k] == tail.sides[k - 1];
      }
    }
    if forall k :: 0 <= k < |args| ==> r.sides[k] != Both {
      assert head.side == r.sides[0];
      assert forall k :: 0 <= k < |args[1..]| ==> tail.sides[k] == r.sides[k + 1];
    }
  }

  /**
    With the repaired merge, the pusher classifies every node by its
    footprint; a node that is not BOTH comes back with only its markers
    restored and leaves the table alone; the pushed node mentions only the
    columns its side allows (table positions when BOTH); and every entry the
    table gains is tagged by the side of the columns it mentions.
   */
  lemma {:induction false} PushSound(e: Expr, t: Table, cfg: Config, width: int)
    requires cfg.variant == BothAbsorbs
    requires Valid(t) && TagSound(t, cfg.leftCount, width)
    requires RefsWithin(e, 0, width)
    ensures PushedSound(e, t, Push(e, t, cfg), cfg.leftCount, width)
    decreases Weight(e), 1
  {
    match e
    case InputRef(i) =>
    case Literal(_) =>
    case Call(op, args) =>
      OperandsAreLighter(op, args);
      PushAllSound(args, t, cfg, width);
      var operands := PushAll(args, t, cfg);
      var r := Push(e, t, cfg);
      if |args| == 2 && op.IsMarker() {
        var a, b := args[0], args[1];
        assert args == [a, b];
        SpecialFormsAreLighter(op, a, b);
        SpecialFormsKeep(op, a, b, 0, width);
        var special :=
          if DifferentSides(operands.sides[0], operands.sides[1]) then Expand(op, a, b)
          else Restored(op, a, b);
        assert RefsWithin(special, 0, width);
        PushSound(special, operands.table, cfg, width);
        MarkerStep(op, a, b, t, operands, special, r, cfg.leftCount, width);
      } else if ShouldPushDown(operands.sides) {
        PushDownStep(op, args, t, operands, cfg.leftCount, width);
      } else {
        MergeStep(op, args, t, operands, r, cfg.leftCount, width);
      }
  }

  lemma {:induction false} PushAllSound(args: seq<Expr>, t: Table, cfg: Config, width: int)
    requires cfg.variant == BothAbsorbs
    requires Valid(t) && TagSound(t, cfg.leftCount, width)
    requires forall k :: 0 <= k < |args| ==> RefsWithin(args[k], 0, width)
    ensures PushedAllSound(args, t, PushAll(args, t, cfg), cfg.leftCount, width)
    decreases WeightOf(args), 2
  {
    if |args| > 0 {
      var head := Push(args[0], t, cfg);
      PushSound(args[0], t, cfg, width);
      assert forall k :: 0 <= k < |args[1..]| ==> args[1..][k] == args[k + 1];
      PushAllSound(args[1..], head.table, cfg, width);
      var tail := PushAll(args[1..], head.table, cfg);
      ConsStep(args, t, head, tail, PushAll(args, t, cfg), cfg.leftCount, width);
    }
  }
}
