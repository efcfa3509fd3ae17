/**
  Renumbering column references through a layout: the new join's column `k`
  is table position `order[k]`. `Remap` is the rule's permutation shuttle over
  the inverse of `Mappings.bijection(order)`; `Rename` is the forward
  direction, used to state what the remapping means.
 */
module Renumber {
  import opened Wrappers
  import opened Exprs

  /** The position of the first occurrence of `x` in `s`. */
  function IndexOf(s: seq<nat>, x: int): (r: Option<nat>)
    ensures r.Some? <==> x in s
    ensures r.Some? ==> r.value < |s| && s[r.value] == x
    ensures r.Some? ==> forall k :: 0 <= k < r.value ==> s[k] != x
  {
    if |s| == 0 then None
    else if s[0] == x then Some(0)
    else
      var rest := IndexOf(s[1..], x);
      assert s == [s[0]] + s[1..];
      if rest.Some? then Some(rest.value + 1) else None
  }

  predicate Distinct(s: seq<nat>) {
    forall i, j :: 0 <= i < j < |s| ==> s[i] != s[j]
  }

  /** `order` lists every position `0..n-1` exactly once. */
  predicate Arrangement(order: seq<nat>, n: nat) {
    && |order| == n
    && Distinct(order)
    && (forall k :: 0 <= k < |order| ==> order[k] < n)
    && (forall p :: 0 <= p < n ==> p in order)
  }

  /**
    Replaces each reference to position `order[k]` by a reference to `k`;
    `None` when `e` mentions a position the layout does not list (where
    Calcite's mapping would throw).
   */
  function Remap(e: Expr, order: seq<nat>): (r: Option<Expr>)
    ensures r.Some? ==> RefsWithin(r.value, 0, |order|)
  {
    match e
    case InputRef(i) =>
      var k := IndexOf(order, i);
      if k.Some? then Some(InputRef(k.value)) else None
    case Literal(_) => Some(e)
    case Call(op, args) =>
      var rs := RemapAll(args, order);
      if rs.Some? then Some(Call(op, rs.value)) else None
  }

  function RemapAll(args: seq<Expr>, order: seq<nat>): (r: Option<seq<Expr>>)
    ensures r.Some? <==> forall k :: 0 <= k < |args| ==> Remap(args[k], order).Some?
    ensures r.Some? ==> |r.value| == |args| && forall k :: 0 <= k < |args| ==> Remap(args[k], order) == Some(r.value[k])
  {
    if |args| == 0 then Some([])
    else
      var head := Remap(args[0], order);
      var tail := RemapAll(args[1..], order);
      if head.Some? && tail.Some? then Some([head.value] + tail.value) else None
  }

  /** Replaces each reference to `k` by a reference to `order[k]`; references outside the layout stay. */
  function Rename(e: Expr, order: seq<nat>): Expr {
    match e
    case InputRef(k) => if 0 <= k < |order| then InputRef(order[k]) else e
    case Literal(_) => e
    case Call(op, args) => Call(op, RenameAll(args, order))
  }

  function RenameAll(args: seq<Expr>, order: seq<nat>): (r: seq<Expr>)
    ensures |r| == |args|
  {
    if |args| == 0 then [] else [Rename(args[0], order)] + RenameAll(args[1..], order)
  }

  /**
    Remapping and then renaming gives back the original expression, and the
    remapped expression only mentions columns of the new layout.
   */
  lemma {:induction false} RemapThenRename(e: Expr, order: seq<nat>)
    requires Remap(e, order).Some?
    ensures Rename(Remap(e, order).value, order) == e
    ensures RefsWithin(Remap(e, order).value, 0, |order|)
    decreases e, 1
  {
    match e
    case InputRef(_) =>
    case Literal(_) =>
    case Call(op, args) =>
      RemapAllThenRename(args, order);
  }

  lemma {:induction false} RemapAllThenRename(args: seq<Expr>, order: seq<nat>)
    requires RemapAll(args, order).Some?
    ensures RenameAll(RemapAll(args, order).value, order) == args
    ensures forall k :: 0 <= k < |args| ==> RefsWithin(RemapAll(args, order).value[k], 0, |order|)
    decreases args, 0
  {
    if |args| > 0 {
      var head := Remap(args[0], order).value;
      var tail := RemapAll(args[1..], order).value;
      RemapThenRename(args[0], order);
      RemapAllThenRename(args[1..], order);
      var rs := RemapAll(args, order).value;
      assert rs == [head] + tail;
      assert rs[1..] == tail;
      assert args == [args[0]] + args[1..];
      forall k | 0 <= k < |args|
        ensures RefsWithin(rs[k], 0, |order|)
      {
        if k > 0 {
          assert rs[k] == tail[k - 1];
        }
      }
    }
  }

  /**
    Over a layout without repeats, renaming an expression that mentions only
    layout columns and remapping it again gives back that expression.
   */
  lemma {:induction false} RenameThenRemap(e: Expr, order: seq<nat>)
    requires Distinct(order)
    requires RefsWithin(e, 0, |order|)
    ensures Remap(Rename(e, order), order) == Some(e)
    decreases e, 1
  {
    match e
    case InputRef(k) =>
      assert IndexOf(order, order[k]).Some?;
    case Literal(_) =>
    case Call(op, args) =>
      RenameAllThenRemap(args, order);
  }

  lemma {:induction false} RenameAllThenRemap(args: seq<Expr>, order: seq<nat>)
    requires Distinct(order)
    requires forall k :: 0 <= k < |args| ==> RefsWithin(args[k], 0, |order|)
    ensures RemapAll(RenameAll(args, order), order) == Some(args)
    decreases args, 0
  {
    if |args| > 0 {
      RenameThenRemap(args[0], order);
      assert forall k :: 0 <= k < |args[1..]| ==> args[1..][k] == args[k + 1];
      RenameAllThenRemap(args[1..], order);
      RenamedConsRemaps(args, order);
    }
  }

  /** One step of `RenameAllThenRemap`: when the first operand and the rest each come back, so does the whole list. */
  lemma RenamedConsRemaps(args: seq<Expr>, order: seq<nat>)
    requires |args| > 0
    requires Remap(Rename(args[0], order), order) == Some(args[0])
    requires RemapAll(RenameAll(args[1..], order), order) == Some(args[1..])
    ensures RemapAll(RenameAll(args, order), order) == Some(args)
  {
    var rs := RenameAll(args, order);
    assert rs == [Rename(args[0], order)] + RenameAll(args[1..], order);
    assert rs[0] == Rename(args[0], order);
    assert rs[1..] == RenameAll(args[1..], order);
    assert args == [args[0]] + args[1..];
  }

  /** Over an arrangement of `0..n-1`, remapping succeeds exactly on expressions that mention positions below `n`. */
  lemma {:induction false} RemapDefined(e: Expr, order: seq<nat>, n: nat)
    requires Arrangement(order, n)
    ensures Remap(e, order).Some? <==> RefsWithin(e, 0, n)
    decreases e, 1
  {
    match e
    case InputRef(i) =>
      if IndexOf(order, i).Some? {
        var k := IndexOf(order, i).value;
        assert order[k] == i;
      }
    case Literal(_) =>
    case Call(op, args) =>
      RemapAllDefined(args, order, n);
  }

  lemma {:induction false} RemapAllDefined(args: seq<Expr>, order: seq<nat>, n: nat)
    requires Arrangement(order, n)
    ensures RemapAll(args, order).Some? <==> forall k :: 0 <= k < |args| ==> RefsWithin(args[k], 0, n)
    decreases args, 0
  {
    if |args| > 0 {
      RemapDefined(args[0], order, n);
      RemapAllDefined(args[1..], order, n);
      assert forall k :: 1 <= k < |args| ==> args[k] == args[1..][k - 1];
    }
  }
}
