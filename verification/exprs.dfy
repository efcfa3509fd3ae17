/**
  Small helper datatype for partial results: `None` stands for the places where
  the rule answers "no change" (a Java `null`) or where Calcite would throw.
 */
module Wrappers {
  datatype Option<+T> = None | Some(value: T)
}

/**
  The scalar expression trees the nested-loop-join rule works on: column
  references into the join's combined row, constants, and operator calls.
  Operators are a closed enumeration instead of the string names the rule
  switches on.
 */
module Exprs {

  /**
    The operators the rule tells apart; every other operator is `Other`.
    `deterministic` is false for the operators Calcite reports as
    non-deterministic or dynamic (`RAND`, `CURRENT_TIMESTAMP`, ...); the
    named operators are all deterministic.
   */
  datatype Op =
    | Sin | Cos | Tan
    | Plus | Minus | Times | Divide
    | Cast
    | SinPlus | SinMinus | CosPlus | CosMinus
    | Other(name: string, deterministic: bool)
  {
    /** Calls of this operator give the same value on every evaluation. */
    predicate IsDeterministic() {
      !Other? || deterministic
    }

    /** The four internal marker functions `SIN_PLUS`, `SIN_MINUS`, `COS_PLUS`, `COS_MINUS`. */
    predicate IsMarker() {
      SinPlus? || SinMinus? || CosPlus? || CosMinus?
    }

    predicate IsTrig() {
      Sin? || Cos? || Tan?
    }

    predicate IsSinCos() {
      Sin? || Cos?
    }

    predicate IsPlusMinus() {
      Plus? || Minus?
    }
  }

  /**
    `InputRef(i)` is column `i` of the combined row (left columns first). The
    index is an `int` because shifting a reference (see `Shift`) may leave the
    natural numbers. Literal values and all types are abstracted away.
   */
  datatype Expr =
    | InputRef(index: int)
    | Literal(value: int)
    | Call(op: Op, args: seq<Expr>)

  /** The operand counts the operators' signatures allow. */
  predicate ArityOk(op: Op, n: nat) {
    match op
    case Sin | Cos | Tan | Cast => n == 1
    case Plus | Minus | Times | Divide => n == 2
    case SinPlus | SinMinus | CosPlus | CosMinus => n == 2
    case Other(_, _) => true
  }

  /** Every call in the tree has an operand count its operator accepts. */
  predicate WellFormed(e: Expr) {
    match e
    case Call(op, args) =>
      ArityOk(op, |args|) && forall i :: 0 <= i < |args| ==> WellFormed(args[i])
    case _ => true
  }

  /** Unfolds `WellFormed` one level. */
  lemma WellFormedCall(op: Op, args: seq<Expr>)
    requires WellFormed(Call(op, args))
    ensures ArityOk(op, |args|)
    ensures forall i :: 0 <= i < |args| ==> WellFormed(args[i])
  {
  }

  /** Every column reference in `e` lies in `[lo, hi)`. */
  predicate RefsWithin(e: Expr, lo: int, hi: int) {
    match e
    case InputRef(i) => lo <= i < hi
    case Literal(_) => true
    case Call(_, args) => forall i :: 0 <= i < |args| ==> RefsWithin(args[i], lo, hi)
  }

  /** No marker call occurs anywhere in `e`. */
  predicate NoMarkers(e: Expr) {
    match e
    case Call(op, args) =>
      !op.IsMarker() && forall i :: 0 <= i < |args| ==> NoMarkers(args[i])
    case _ => true
  }

  /**
    The constants of Calcite's `RexUtil.isConstant`: literals, and calls of
    deterministic operators over constants.
   */
  predicate IsConstant(e: Expr) {
    match e
    case InputRef(_) => false
    case Literal(_) => true
    case Call(op, args) => op.IsDeterministic() && forall i :: 0 <= i < |args| ==> IsConstant(args[i])
  }

  /** `RefsWithin` of a one- or two-operand call, unfolded. */
  lemma RefsWithinSmallCall(op: Op, a: Expr, b: Expr, lo: int, hi: int)
    ensures RefsWithin(Call(op, [a]), lo, hi) <==> RefsWithin(a, lo, hi)
    ensures RefsWithin(Call(op, [a, b]), lo, hi) <==> RefsWithin(a, lo, hi) && RefsWithin(b, lo, hi)
  {
    assert [a][0] == a;
    assert [a, b][0] == a && [a, b][1] == b;
  }

  /** A constant mentions no column. */
  lemma {:induction false} ConstantHasNoRefs(e: Expr)
    requires IsConstant(e)
    ensures RefsWithin(e, 0, 0)
  {
    match e
    case InputRef(_) =>
    case Literal(_) =>
    case Call(_, args) =>
      forall i | 0 <= i < |args|
        ensures RefsWithin(args[i], 0, 0)
      {
        ConstantHasNoRefs(args[i]);
      }
  }

  /** Widening the interval keeps `RefsWithin`; an empty interval fits anywhere. */
  lemma {:induction false} RefsWithinWiden(e: Expr, lo: int, hi: int, lo': int, hi': int)
    requires RefsWithin(e, lo, hi)
    requires (lo' <= lo && hi <= hi') || lo >= hi
    ensures RefsWithin(e, lo', hi')
  {
    match e
    case InputRef(_) =>
    case Literal(_) =>
    case Call(_, args) =>
      forall i | 0 <= i < |args|
        ensures RefsWithin(args[i], lo', hi')
      {
        RefsWithinWiden(args[i], lo, hi, lo', hi');
      }
  }

  /** `RexUtil.shift`: adds `offset` to every column reference. */
  function Shift(e: Expr, offset: int): (r: Expr)
    ensures r.InputRef? == e.InputRef? && r.Literal? == e.Literal?
  {
    match e
    case InputRef(i) => InputRef(i + offset)
    case Literal(_) => e
    case Call(op, args) =>
      Call(op, seq(|args|, i requires 0 <= i < |args| => Shift(args[i], offset)))
  }

  /** Shifting moves the interval of mentioned columns by the offset, in both directions. */
  lemma {:induction false} ShiftMovesRefs(e: Expr, offset: int, lo: int, hi: int)
    ensures RefsWithin(Shift(e, offset), lo + offset, hi + offset) <==> RefsWithin(e, lo, hi)
  {
    match e
    case InputRef(_) =>
    case Literal(_) =>
    case Call(op, args) =>
      forall i | 0 <= i < |args|
        ensures RefsWithin(Shift(e, offset).args[i], lo + offset, hi + offset) <==> RefsWithin(args[i], lo, hi)
      {
        ShiftMovesRefs(args[i], offset, lo, hi);
      }
  }

  /** Shifting back undoes a shift. */
  lemma {:induction false} ShiftBack(e: Expr, offset: int)
    ensures Shift(Shift(e, offset), -offset) == e
  {
    match e
    case InputRef(_) =>
    case Literal(_) =>
    case Call(op, args) =>
      var shifted := Shift(e, offset).args;
      forall i | 0 <= i < |args|
        ensures Shift(shifted[i], -offset) == args[i]
      {
        ShiftBack(args[i], offset);
      }
      assert Shift(Shift(e, offset), -offset).args == args;
  }

  /**
    The size measure that makes the pusher terminate: a two-operand marker
    weighs more than its restored form and than its angle-sum expansion,
    both of which repeat the marker's original operands.
   */
  function Weight(e: Expr): (w: nat)
    ensures w >= 1
  {
    match e
    case Call(op, args) =>
      if op.IsMarker() && |args| == 2 then 2 * (Weight(args[0]) + Weight(args[1])) + 8
      else 1 + WeightOf(args)
    case _ => 1
  }

  function WeightOf(args: seq<Expr>): (w: nat)
    ensures forall i :: 0 <= i < |args| ==> Weight(args[i]) <= w
  {
    if |args| == 0 then 0 else Weight(args[0]) + WeightOf(args[1..])
  }

  lemma WeightOfPair(a: Expr, b: Expr)
    ensures WeightOf([a, b]) == Weight(a) + Weight(b)
  {
    assert [a, b][1..] == [b];
    WeightOfSingle(b);
  }

  lemma WeightOfSingle(a: Expr)
    ensures WeightOf([a]) == Weight(a)
  {
    assert [a][1..] == [];
  }
}
