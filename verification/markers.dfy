/**
  `handleSpecial` always resolves the internal marker functions: whatever the
  merge, a pushed well-formed condition and every table entry the pusher
  creates are free of `SIN_PLUS`, `SIN_MINUS`, `COS_PLUS` and `COS_MINUS`.
 */
module Markers {
  import opened Exprs
  import opened Sides
  import opened Trig
  import opened Pusher

  /** No table entry holds a marker. */
  predicate TableClean(t: Table) {
    forall i :: 0 <= i < |t.exprs| ==> NoMarkers(t.exprs[i])
  }

  /** Hoisting marker-free operands leaves a marker-free call over a marker-free table. */
  lemma {:induction false} HoistAllClean(xs: seq<Expr>, ss: seq<Side>, t: Table)
    requires |xs| == |ss|
    requires TableClean(t)
    requires forall k :: 0 <= k < |xs| ==> NoMarkers(xs[k])
    ensures var r := HoistAll(xs, ss, t);
      TableClean(r.table) && forall k :: 0 <= k < |xs| ==> NoMarkers(r.exprs[k])
  {
    if |xs| > 0 {
      var head := HoistOperand(xs[0], ss[0], t);
      assert TableClean(head.table) by {
        forall i | 0 <= i < |head.table.exprs|
          ensures NoMarkers(head.table.exprs[i])
        {
          if i < |t.exprs| {
            assert head.table.exprs[i] == t.exprs[i];
          }
        }
      }
      assert forall k :: 0 <= k < |xs[1..]| ==> xs[1..][k] == xs[k + 1];
      HoistAllClean(xs[1..], ss[1..], head.table);
      var tail := HoistAll(xs[1..], ss[1..], head.table);
      ConsClean(head.expr, tail.exprs);
    }
  }

  /** A marker-free expression in front of marker-free operands. */
  lemma ConsClean(x: Expr, xs: seq<Expr>)
    requires NoMarkers(x)
    requires forall k :: 0 <= k < |xs| ==> NoMarkers(xs[k])
    ensures forall k :: 0 <= k < |[x] + xs| ==> NoMarkers(([x] + xs)[k])
  {
  }

  /** A call of a non-marker over marker-free operands is marker-free. */
  lemma CleanCall(op: Op, xs: seq<Expr>)
    requires !op.IsMarker()
    requires forall k :: 0 <= k < |xs| ==> NoMarkers(xs[k])
    ensures NoMarkers(Call(op, xs))
  {
  }

  /**
    Under either merge, pushing a well-formed expression over a marker-free
    table leaves no marker in the result or in the table: each two-operand
    marker is replaced by its restored form or its expansion before anything
    is built from it.
   */
  lemma {:induction false} PushResolvesMarkers(e: Expr, t: Table, cfg: Config)
    requires WellFormed(e) && TableClean(t)
    ensures var r := Push(e, t, cfg);
      NoMarkers(r.expr) && TableClean(r.table)
    decreases Weight(e), 1
  {
    match e
    case InputRef(_) =>
    case Literal(_) =>
    case Call(op, args) =>
      WellFormedCall(op, args);
      OperandsAreLighter(op, args);
      PushAllResolvesMarkers(args, t, cfg);
      var operands := PushAll(args, t, cfg);
      if |args| == 2 && op.IsMarker() {
        var a, b := args[0], args[1];
        SpecialFormsAreLighter(op, a, b);
        SpecialFormsKeep(op, a, b, 0, 0);
        var special :=
          if DifferentSides(operands.sides[0], operands.sides[1]) then Expand(op, a, b)
          else Restored(op, a, b);
        PushResolvesMarkers(special, operands.table, cfg);
      } else if ShouldPushDown(operands.sides) {
        HoistAllClean(operands.exprs, operands.sides, operands.table);
        var hoisted := HoistAll(operands.exprs, operands.sides, operands.table);
        CleanCall(op, hoisted.exprs);
      } else {
        CleanCall(op, operands.exprs);
      }
  }

  lemma {:induction false} PushAllResolvesMarkers(args: seq<Expr>, t: Table, cfg: Config)
    requires forall k :: 0 <= k < |args| ==> WellFormed(args[k])
    requires TableClean(t)
    ensures var r := PushAll(args, t, cfg);
      TableClean(r.table) && forall k :: 0 <= k < |args| ==> NoMarkers(r.exprs[k])
    decreases WeightOf(args), 2
  {
    if |args| > 0 {
      var head := Push(args[0], t, cfg);
      PushResolvesMarkers(args[0], t, cfg);
      assert forall k :: 0 <= k < |args[1..]| ==> args[1..][k] == args[k + 1];
      PushAllResolvesMarkers(args[1..], head.table, cfg);
      var tail := PushAll(args[1..], head.table, cfg);
      ConsClean(head.expr, tail.exprs);
    }
  }
}
