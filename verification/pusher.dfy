/**
  `ExpressionPusher`: walks an expression bottom-up, tags every node with the
  join side it depends on, resolves the trig markers, and hoists the
  single-side operands of mixed calls into a deduplicated, append-only table
  whose positions are split between the left and the right input.

  The Java visitor mutates the pusher's lists and reports a node's side
  through a pointer; here the table is threaded through explicitly and every
  push returns the rewritten node, its side and the new table.
 */
module Pusher {
  import opened Exprs
  import opened Sides
  import opened Trig

  /**
    The pusher's state: `exprs`, `leftExprs`, `rightExprs`, and `exprMap`,
    which the source keys by the expression's digest string and which is
    keyed here by the expression itself (structural equality).
   */
  datatype Table = Table(exprs: seq<Expr>, leftExprs: seq<nat>, rightExprs: seq<nat>, positions: map<Expr, nat>)

  /** The pusher's fixed parameters: the left input's column count and which merge it uses. */
  datatype Config = Config(leftCount: nat, variant: Variant)

  predicate Increasing(s: seq<int>) {
    forall i, j :: 0 <= i < j < |s| ==> s[i] < s[j]
  }

  /** `l` and `r` share out the positions `0..n-1` between them, each list in increasing order. */
  predicate Partition(l: seq<nat>, r: seq<nat>, n: nat) {
    && Increasing(l)
    && Increasing(r)
    && |l| + |r| == n
    && (forall k :: 0 <= k < |l| ==> l[k] < n)
    && (forall k :: 0 <= k < |r| ==> r[k] < n)
    && (forall p :: 0 <= p < n ==> (p in l <==> p !in r))
  }

  /**
    The table invariant: the map sends each entry to its own position and
    knows every entry, so no expression is stored twice; and every position is
    tagged LEFT or RIGHT, exactly once.
   */
  predicate Valid(t: Table) {
    && (forall e :: e in t.positions ==> t.positions[e] < |t.exprs| && t.exprs[t.positions[e]] == e)
    && (forall i :: 0 <= i < |t.exprs| ==> t.exprs[i] in t.positions && t.positions[t.exprs[i]] == i)
    && Partition(t.leftExprs, t.rightExprs, |t.exprs|)
  }

  /** `t'` only appends to `t`: entries, tags and map entries already there stay put. */
  predicate Extends(t: Table, t': Table) {
    && t.exprs <= t'.exprs
    && t.leftExprs <= t'.leftExprs
    && t.rightExprs <= t'.rightExprs
    && forall e :: e in t.positions ==> e in t'.positions && t'.positions[e] == t.positions[e]
  }

  /** Appending twice is appending. */
  lemma ExtendsTrans(t: Table, t': Table, t'': Table)
    requires Extends(t, t') && Extends(t', t'')
    ensures Extends(t, t'')
    ensures forall i :: 0 <= i < |t.exprs| ==> t''.exprs[i] == t.exprs[i]
  {
  }

  /** Appends `x` at position `|exprs|`, tagged LEFT or RIGHT, and records it in the map. */
  function Append(t: Table, x: Expr, toLeft: bool): (r: Table)
    ensures |r.exprs| == |t.exprs| + 1 && r.exprs[|t.exprs|] == x
    ensures x !in t.positions ==> Extends(t, r)
    ensures Valid(t) && x !in t.positions ==> Valid(r)
    ensures Valid(t) ==> (|t.exprs| in r.leftExprs <==> toLeft)
  {
    var n := |t.exprs|;
    var r := Table(t.exprs + [x],
                   if toLeft then t.leftExprs + [n] else t.leftExprs,
                   if toLeft then t.rightExprs else t.rightExprs + [n],
                   t.positions[x := n]);
    if Valid(t) then
      AppendPartition(t.leftExprs, t.rightExprs, n, toLeft);
      r
    else r
  }

  lemma AppendPartition(l: seq<nat>, r: seq<nat>, n: nat, toLeft: bool)
    requires Partition(l, r, n)
    ensures toLeft ==> Partition(l + [n], r, n + 1)
    ensures !toLeft ==> Partition(l, r + [n], n + 1)
    ensures n !in l && n !in r
  {
    var l', r' := if toLeft then l + [n] else l, if toLeft then r else r + [n];
    forall p | 0 <= p < n + 1
      ensures p in l' <==> p !in r'
    {
      assert p in l' <==> p in l || (toLeft && p == n);
      assert p in r' <==> p in r || (!toLeft && p == n);
    }
  }

  /**
    The constructor: one seed entry `$c` per projected column `c` (in bitset
    order), tagged LEFT when `c < leftCount`. Columns come from a bitset, so
    they are increasing.
   */
  function Seed(columns: seq<nat>, leftCount: nat): (t: Table)
    requires Increasing(columns)
    ensures Valid(t)
    ensures |t.exprs| == |columns|
    ensures forall i :: 0 <= i < |columns| ==> t.exprs[i] == InputRef(columns[i])
    ensures forall i :: 0 <= i < |columns| ==> (i in t.leftExprs <==> columns[i] < leftCount)
    decreases |columns|
  {
    if |columns| == 0 then Table([], [], [], map[])
    else
      var n := |columns| - 1;
      var t := Seed(columns[..n], leftCount);
      var ref := InputRef(columns[n]);
      assert ref !in t.positions;
      var r := Append(t, ref, columns[n] < leftCount);
      assert forall i :: 0 <= i < n ==> (i in r.leftExprs <==> i in t.leftExprs);
      r
  }

  /** `identityProjects()`: the seeds re-expressed as references to their table positions. */
  function IdentityRefs(n: nat): (refs: seq<Expr>)
    ensures |refs| == n
    ensures forall i :: 0 <= i < n ==> refs[i] == InputRef(i)
  {
    seq(n, i => InputRef(i))
  }

  datatype Hoisted = Hoisted(expr: Expr, table: Table)
  datatype HoistedAll = HoistedAll(exprs: seq<Expr>, table: Table)

  /**
    One operand of a call whose operands are being pushed down: a LEFT or
    RIGHT operand is replaced by a reference to its table position, reusing
    the position of an equal entry or appending it; EMPTY and BOTH operands
    stay in place.
   */
  function HoistOperand(x: Expr, s: Side, t: Table): (r: Hoisted)
    ensures s != Left && s != Right ==> r == Hoisted(x, t)
    ensures (s == Left || s == Right) && x in t.positions ==> r == Hoisted(InputRef(t.positions[x]), t)
    ensures (s == Left || s == Right) && x !in t.positions ==>
      && r.expr == InputRef(|t.exprs|)
      && r.table.exprs == t.exprs + [x]
      && (Valid(t) ==> (|t.exprs| in r.table.leftExprs <==> s == Left))
    ensures Extends(t, r.table)
    ensures Valid(t) ==> Valid(r.table)
    ensures Valid(t) && (s == Left || s == Right) ==>
      r.expr.InputRef? && 0 <= r.expr.index < |r.table.exprs| && r.table.exprs[r.expr.index] == x
  {
    if s == Left || s == Right then
      if x in t.positions then Hoisted(InputRef(t.positions[x]), t)
      else Hoisted(InputRef(|t.exprs|), Append(t, x, s == Left))
    else Hoisted(x, t)
  }

  /** The hoisting loop of `visitCall`, over the zipped operands and sides. */
  function HoistAll(xs: seq<Expr>, ss: seq<Side>, t: Table): (r: HoistedAll)
    requires |xs| == |ss|
    ensures |r.exprs| == |xs|
    ensures Extends(t, r.table)
    ensures Valid(t) ==> Valid(r.table)
    ensures forall k :: 0 <= k < |xs| && ss[k] != Left && ss[k] != Right ==> r.exprs[k] == xs[k]
    ensures Valid(t) ==> forall k :: 0 <= k < |xs| && (ss[k] == Left || ss[k] == Right) ==>
      r.exprs[k].InputRef? && 0 <= r.exprs[k].index < |r.table.exprs| && r.table.exprs[r.exprs[k].index] == xs[k]
  {
    if |xs| == 0 then HoistedAll([], t)
    else
      var head := HoistOperand(xs[0], ss[0], t);
      var tail := HoistAll(xs[1..], ss[1..], head.table);
      HoistedAll([head.expr] + tail.exprs, tail.table)
  }

  datatype Pushed = Pushed(expr: Expr, side: Side, table: Table)
  datatype PushedAll = PushedAll(exprs: seq<Expr>, sides: seq<Side>, table: Table)

  lemma OperandsAreLighter(op: Op, args: seq<Expr>)
    ensures WeightOf(args) < Weight(Call(op, args))
  {
    if |args| == 2 {
      assert args == [args[0], args[1]];
      WeightOfPair(args[0], args[1]);
    }
  }

  /**
    `visitInputRef`, `visitLiteral` and `visitCall` with `handleSpecial`.
    A two-operand marker is expanded by its identity when its operands lie on
    opposite sides and restored otherwise, and the result is pushed again
    (from the original operands, over the table the first push left behind).
   */
  function Push(e: Expr, t: Table, cfg: Config): (r: Pushed)
    ensures Extends(t, r.table)
    ensures Valid(t) ==> Valid(r.table)
    decreases Weight(e), 1
  {
    match e
    case InputRef(i) => Pushed(e, if i < cfg.leftCount then Left else Right, t)
    case Literal(_) => Pushed(e, Empty, t)
    case Call(op, args) =>
      OperandsAreLighter(op, args);
      var operands := PushAll(args, t, cfg);
      if |args| == 2 && op.IsMarker() then
        SpecialFormsAreLighter(op, args[0], args[1]);
        var special :=
          if DifferentSides(operands.sides[0], operands.sides[1]) then Expand(op, args[0], args[1])
          else Restored(op, args[0], args[1]);
        Push(special, operands.table, cfg)
      else if ShouldPushDown(operands.sides) then
        var hoisted := HoistAll(operands.exprs, operands.sides, operands.table);
        Pushed(Call(op, hoisted.exprs), Both, hoisted.table)
      else
        Pushed(Call(op, operands.exprs), MergeBy(cfg.variant, operands.sides), operands.table)
  }

  /** Pushes the operands of a call in order, threading the table. */
  function PushAll(args: seq<Expr>, t: Table, cfg: Config): (r: PushedAll)
    ensures |r.exprs| == |args| && |r.sides| == |args|
    ensures Extends(t, r.table)
    ensures Valid(t) ==> Valid(r.table)
    decreases WeightOf(args), 2
  {
    if |args| == 0 then PushedAll([], [], t)
    else
      var head := Push(args[0], t, cfg);
      var tail := PushAll(args[1..], head.table, cfg);
      PushedAll([head.expr] + tail.exprs, [head.side] + tail.sides, tail.table)
  }
}
