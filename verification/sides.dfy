/**
  The side classification of the rule's `Side` enum: which input of the join a
  subexpression depends on.
 */
module Sides {

  datatype Side = Left | Right | Both | Empty

  /**
    Which merge the pusher uses. `AsWritten` is the rule's `Side.merge`, in
    which BOTH operands count for nothing; `BothAbsorbs` is the repaired merge
    in which a BOTH operand makes the result BOTH (see the findings in the
    README).
   */
  datatype Variant = AsWritten | BothAbsorbs

  /** `Side.merge` as written: only LEFT and RIGHT entries are looked at. */
  function Merge(sides: seq<Side>): (r: Side)
    ensures r == Both <==> Left in sides && Right in sides
    ensures r == Left || r == Right ==> r in sides
    ensures r == Empty <==> Left !in sides && Right !in sides
  {
    var hasLeft := Left in sides;
    var hasRight := Right in sides;
    if hasLeft && hasRight then Both
    else if hasLeft then Left
    else if hasRight then Right
    else Empty
  }

  /** The repaired merge: a BOTH entry makes the merge BOTH. */
  function MergeBothAbsorbs(sides: seq<Side>): (r: Side)
    ensures r == Both <==> Both in sides || (Left in sides && Right in sides)
    ensures r == Empty <==> forall i :: 0 <= i < |sides| ==> sides[i] == Empty
  {
    if Both in sides then Both else Merge(sides)
  }

  function MergeBy(v: Variant, sides: seq<Side>): Side {
    match v
    case AsWritten => Merge(sides)
    case BothAbsorbs => MergeBothAbsorbs(sides)
  }

  /**
    The binary merge of two sides: EMPTY is the unit, LEFT and RIGHT meet in
    BOTH, and BOTH absorbs everything.
   */
  function Join(a: Side, b: Side): Side {
    if a == Empty then b
    else if b == Empty || a == b then a
    else Both
  }

  /** Folds `Join` over a list, left to right, starting from EMPTY. */
  function JoinAll(sides: seq<Side>): Side {
    if |sides| == 0 then Empty else Join(JoinAll(sides[..|sides| - 1]), sides[|sides| - 1])
  }

  /** The list with its BOTH entries dropped. */
  function WithoutBoth(sides: seq<Side>): (r: seq<Side>)
    ensures Both !in r
    ensures forall s :: s != Both ==> (s in r <==> s in sides)
  {
    if |sides| == 0 then []
    else if sides[0] == Both then WithoutBoth(sides[1..])
    else [sides[0]] + WithoutBoth(sides[1..])
  }

  /** `Side.shouldPushDown`: a call whose operands genuinely mix the two sides. */
  function ShouldPushDown(sides: seq<Side>): (r: bool)
    ensures r <==> (Left in sides && Right in sides) || (Both in sides && (Left in sides || Right in sides))
    ensures r <==> (Left in sides || Right in sides) && MergeBothAbsorbs(sides) == Both
  {
    && (exists i :: 0 <= i < |sides| && (sides[i] == Left || sides[i] == Right))
    && !(forall i :: 0 <= i < |sides| ==> sides[i] == Left || sides[i] == Empty)
    && !(forall i :: 0 <= i < |sides| ==> sides[i] == Right || sides[i] == Empty)
  }

  /** `ExpressionPusher.differentSides`: one LEFT and one RIGHT. */
  function DifferentSides(side0: Side, side1: Side): (r: bool)
    ensures r <==> {side0, side1} == {Left, Right}
    ensures r ==> ShouldPushDown([side0, side1]) && Merge([side0, side1]) == Both
  {
    (side0 == Left || side0 == Right) && (side1 == Left || side1 == Right) && side0 != side1
  }

  /** The repaired merge is exactly the fold of the binary merge. */
  lemma {:induction false} MergeBothAbsorbsIsJoinAll(sides: seq<Side>)
    ensures MergeBothAbsorbs(sides) == JoinAll(sides)
  {
    if |sides| > 0 {
      var init := sides[..|sides| - 1];
      var last := sides[|sides| - 1];
      assert sides == init + [last];
      MergeBothAbsorbsIsJoinAll(init);
      forall s
        ensures s in sides <==> s in init || s == last
      {
        if s in sides {
          var k :| 0 <= k < |sides| && sides[k] == s;
          if k < |sides| - 1 {
            assert init[k] == s;
          }
        }
      }
    }
  }

  /** The merge as written is the fold of the binary merge over the non-BOTH entries. */
  lemma MergeIsJoinAllWithoutBoth(sides: seq<Side>)
    ensures Merge(sides) == JoinAll(WithoutBoth(sides))
  {
    MergeBothAbsorbsIsJoinAll(WithoutBoth(sides));
  }

  /** Dropping or adding BOTH entries never changes the merge as written. */
  lemma MergeIgnoresBoth(sides: seq<Side>, extra: seq<Side>)
    requires forall i :: 0 <= i < |extra| ==> extra[i] == Both
    ensures Merge(sides + extra) == Merge(sides)
    ensures Merge(WithoutBoth(sides)) == Merge(sides)
  {
    assert forall s :: s != Both ==> (s in sides + extra <==> s in sides);
  }

  /** Operands that are only BOTH or EMPTY merge to EMPTY as written, to BOTH when repaired. */
  lemma MergeOfBothAndEmpty(sides: seq<Side>)
    requires forall i :: 0 <= i < |sides| ==> sides[i] == Both || sides[i] == Empty
    ensures !ShouldPushDown(sides)
    ensures Merge(sides) == Empty
    ensures Both in sides ==> MergeBothAbsorbs(sides) == Both
  {
  }
}
