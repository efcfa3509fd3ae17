/**
  `SimplifyNLJConditionRule.onMatch`: rewrite the join condition with the two
  trig rules, push it over a table seeded with the join's projected columns,
  and, unless nothing was pushed or nothing changed, build the replacement
  join: projections over the left and right inputs that compute the table's
  LEFT and RIGHT entries, the condition renumbered to the new column layout,
  and the new projected column set.
 */
module Rule {
  import opened Wrappers
  import opened Exprs
  import opened Sides
  import opened Rewriter
  import opened Pusher
  import opened Renumber
  import opened Soundness

  /**
    The parts of a `NestedLoopJoinPrel` the rule reads: the left input's
    column count, the condition, and the projected columns of the combined
    row (the members of the projected bitset, in increasing order).
   */
  datatype NestedLoopJoin = NestedLoopJoin(leftCount: nat, condition: Expr, projected: seq<nat>)

  /** The replacement join: the two new input projections, the new condition and the projected bitset. */
  datatype Replacement = Replacement(leftProjects: seq<Expr>, rightProjects: seq<Expr>, condition: Expr, projected: set<int>)

  /** `NoChange` is an early `return`, `Failed` a Calcite exception, `Rewritten` a `transformTo`. */
  datatype Outcome = NoChange | Rewritten(join: Replacement) | Failed

  /** The references to the projected columns that seed the pusher. */
  function ColumnRefs(columns: seq<nat>): (refs: seq<Expr>)
    ensures |refs| == |columns|
    ensures forall i :: 0 <= i < |columns| ==> refs[i] == InputRef(columns[i])
  {
    seq(|columns|, i requires 0 <= i < |columns| => InputRef(columns[i]))
  }

  /** The new join's column layout: its column `k` is table position `order[k]`. */
  function Layout(t: Table): (order: seq<nat>)
    ensures |order| == |t.leftExprs| + |t.rightExprs|
  {
    t.leftExprs + t.rightExprs
  }

  /** The new left input's projection: the LEFT entries, in position order. */
  function LeftProjects(t: Table): (ps: seq<Expr>)
    requires Valid(t)
    ensures |ps| == |t.leftExprs|
  {
    seq(|t.leftExprs|, k requires 0 <= k < |t.leftExprs| => t.exprs[t.leftExprs[k]])
  }

  /** The new right input's projection: the RIGHT entries, renumbered to the right input's own columns. */
  function RightProjects(t: Table, leftCount: nat): (ps: seq<Expr>)
    requires Valid(t)
    ensures |ps| == |t.rightExprs|
  {
    seq(|t.rightExprs|, k requires 0 <= k < |t.rightExprs| => Shift(t.exprs[t.rightExprs[k]], -(leftCount as int)))
  }

  /** The projected bitset built from the remapped identity references. */
  function ProjectedOf(refs: seq<Expr>): set<int> {
    set k | 0 <= k < |refs| && refs[k].InputRef? :: refs[k].index
  }

  /**
    The pusher's run: the seed references are pushed first (which changes
    nothing), then the rewritten condition over the same table.
   */
  function PushCondition(j: NestedLoopJoin, v: Variant, fuel: nat): (p: Pushed)
    requires WellFormed(j.condition) && Increasing(j.projected)
    ensures Valid(p.table) && |j.projected| <= |p.table.exprs|
    ensures Extends(Seed(j.projected, j.leftCount), p.table)
    ensures forall i :: 0 <= i < |j.projected| ==> p.table.exprs[i] == InputRef(j.projected[i])
  {
    var cfg := Config(j.leftCount, v);
    var condition := Normalize(j.condition, fuel).expr;
    var seeded := Seed(j.projected, j.leftCount);
    var afterSeeds := PushAll(ColumnRefs(j.projected), seeded, cfg);
    var p := Push(condition, afterSeeds.table, cfg);
    ExtendsTrans(seeded, afterSeeds.table, p.table);
    p
  }

  /** Some table entry is not a bare column reference: the pusher hoisted a computation. */
  predicate HoistedSome(t: Table) {
    exists i :: 0 <= i < |t.exprs| && !t.exprs[i].InputRef?
  }

  /**
    The second half of `onMatch`, from the pushed condition and its table.
    It fails exactly when something was hoisted but the condition reads a
    position the table lacks, and it rewrites exactly when something was
    hoisted, the condition stays inside the table, and the old condition is
    not already the pushed one read through the new layout.
   */
  function Assemble(j: NestedLoopJoin, p: Pushed): (r: Outcome)
    requires Valid(p.table) && |j.projected| <= |p.table.exprs|
    ensures r == Failed <==> HoistedSome(p.table) && !RefsWithin(p.expr, 0, |p.table.exprs|)
    ensures r.Rewritten? <==>
      && HoistedSome(p.table)
      && RefsWithin(p.expr, 0, |p.table.exprs|)
      && !ConditionFollowsLayout(p, j.condition)
    ensures r.Rewritten? ==> r.join.condition != j.condition
  {
    var t := p.table;
    RemapOutcomes(j, p);
    if forall i :: 0 <= i < |t.exprs| ==> t.exprs[i].InputRef? then NoChange
    else
      var order := Layout(t);
      var condition := Remap(p.expr, order);
      var projected := RemapAll(IdentityRefs(|j.projected|), order);
      if condition.None? || projected.None? then Failed
      else if condition.value == j.condition then NoChange
      else Rewritten(Replacement(LeftProjects(t), RightProjects(t, j.leftCount), condition.value, ProjectedOf(projected.value)))
  }

  /**
    What the two remaps in `Assemble` mean: the condition remaps exactly when
    it mentions table positions only, the seeds always remap, and the
    remapped condition is the old one exactly when the old one, read through
    the layout, is the pushed condition.
   */
  lemma RemapOutcomes(j: NestedLoopJoin, p: Pushed)
    requires Valid(p.table) && |j.projected| <= |p.table.exprs|
    ensures Remap(p.expr, Layout(p.table)).Some? <==> RefsWithin(p.expr, 0, |p.table.exprs|)
    ensures RemapAll(IdentityRefs(|j.projected|), Layout(p.table)).Some?
    ensures Remap(p.expr, Layout(p.table)).Some? ==>
      (Remap(p.expr, Layout(p.table)).value == j.condition <==> ConditionFollowsLayout(p, j.condition))
  {
    var order := Layout(p.table);
    LayoutIsArrangement(p.table);
    RemapDefined(p.expr, order, |p.table.exprs|);
    SeedsRemap(p.table, |j.projected|);
    if Remap(p.expr, order).Some? {
      RemapThenRename(p.expr, order);
      if ConditionFollowsLayout(p, j.condition) {
        RenameThenRemap(j.condition, order);
      }
    }
  }

  /**
    `onMatch`, with `fuel` bounding the rewriting passes and `v` choosing the
    merge. A replacement means what `Means` says about the pushed condition.
   */
  function OnMatch(j: NestedLoopJoin, v: Variant, fuel: nat): (r: Outcome)
    requires WellFormed(j.condition) && Increasing(j.projected)
    ensures r.Rewritten? ==> Means(j, PushCondition(j, v, fuel), r.join)
  {
    var p := PushCondition(j, v, fuel);
    AssembleMeaning(j, p);
    Assemble(j, p)
  }

  /** Every table position is listed exactly once in the layout: `Mappings.bijection` is well defined. */
  lemma LayoutIsArrangement(t: Table)
    requires Valid(t)
    ensures Arrangement(Layout(t), |t.exprs|)
  {
    var l, r, n := t.leftExprs, t.rightExprs, |t.exprs|;
    var order := Layout(t);
    forall i, j | 0 <= i < j < |order|
      ensures order[i] != order[j]
    {
      if j < |l| {
        assert order[i] == l[i] && order[j] == l[j];
      } else if i >= |l| {
        assert order[i] == r[i - |l|] && order[j] == r[j - |l|];
      } else {
        assert order[i] == l[i] && order[j] == r[j - |l|];
        assert order[i] in l && order[j] in r;
      }
    }
    forall p | 0 <= p < n
      ensures p in order
    {
      if p in l {
        var k :| 0 <= k < |l| && l[k] == p;
        assert order[k] == p;
      } else {
        var k :| 0 <= k < |r| && r[k] == p;
        assert order[|l| + k] == p;
      }
    }
  }

  /** Pushing bare column references changes neither them nor the table. */
  lemma {:induction false} PushingRefsChangesNothing(refs: seq<Expr>, t: Table, cfg: Config)
    requires forall k :: 0 <= k < |refs| ==> refs[k].InputRef?
    ensures PushAll(refs, t, cfg).table == t
    ensures PushAll(refs, t, cfg).exprs == refs
  {
    if |refs| > 0 {
      assert forall k :: 0 <= k < |refs[1..]| ==> refs[1..][k] == refs[k + 1];
      PushingRefsChangesNothing(refs[1..], t, cfg);
      assert refs == [refs[0]] + refs[1..];
    }
  }

  /**
    The projected bitset holds exactly the new columns that carry a seed,
    that is the new positions of the old projected columns.
   */
  lemma ProjectedAreSeeds(t: Table, n: nat)
    requires Valid(t) && n <= |t.exprs|
    ensures RemapAll(IdentityRefs(n), Layout(t)).Some?
    ensures var order := Layout(t);
      forall k :: k in ProjectedOf(RemapAll(IdentityRefs(n), order).value) <==> 0 <= k < |order| && order[k] < n
  {
    var order := Layout(t);
    LayoutIsArrangement(t);
    var ids := IdentityRefs(n);
    forall i | 0 <= i < n
      ensures Remap(ids[i], order) == Some(InputRef(IndexOf(order, i).value))
    {
      assert i in order;
    }
    var refs := RemapAll(ids, order).value;
    forall k
      ensures k in ProjectedOf(refs) <==> 0 <= k < |order| && order[k] < n
    {
      if k in ProjectedOf(refs) {
        var i :| 0 <= i < |refs| && refs[i].InputRef? && refs[i].index == k;
        assert refs[i] == InputRef(IndexOf(order, i).value);
      }
      if 0 <= k < |order| && order[k] < n {
        var i := order[k];
        assert IndexOf(order, i).value == k;
        assert refs[i].index == k;
      }
    }
  }

  /** The new condition, read back through the layout, is the pushed condition, and it mentions only new columns. */
  predicate ConditionFollowsLayout(p: Pushed, c: Expr) {
    Rename(c, Layout(p.table)) == p.expr && RefsWithin(c, 0, |Layout(p.table)|)
  }

  /**
    New column `k` computes table entry `Layout(t)[k]`: the left input's
    projections are the LEFT entries, the right input's the RIGHT entries
    renumbered by `-leftCount`.
   */
  predicate ProjectsFollowLayout(t: Table, leftCount: nat, l: seq<Expr>, r: seq<Expr>) {
    var order := Layout(t);
    && |l| + |r| == |order| == |t.exprs|
    && (forall k :: 0 <= k < |l| ==> order[k] < |t.exprs| && l[k] == t.exprs[order[k]])
    && (forall k :: 0 <= k < |r| ==>
          order[|l| + k] < |t.exprs| && r[k] == Shift(t.exprs[order[|l| + k]], -(leftCount as int)))
  }

  /** The projected bitset holds exactly the new columns that carry one of the first `n` table entries (the seeds). */
  ghost predicate ProjectedAreSeedColumns(t: Table, n: nat, projected: set<int>) {
    forall k :: k in projected <==> 0 <= k < |Layout(t)| && Layout(t)[k] < n
  }

  /** What a replacement built from the pushed condition `p` means. */
  ghost predicate Means(j: NestedLoopJoin, p: Pushed, r: Replacement) {
    && ConditionFollowsLayout(p, r.condition)
    && ProjectsFollowLayout(p.table, j.leftCount, r.leftProjects, r.rightProjects)
    && ProjectedAreSeedColumns(p.table, |j.projected|, r.projected)
  }

  lemma ConditionMeans(p: Pushed, c: Expr)
    requires Remap(p.expr, Layout(p.table)) == Some(c)
    ensures ConditionFollowsLayout(p, c)
  {
    RemapThenRename(p.expr, Layout(p.table));
  }

  lemma ProjectsMean(t: Table, leftCount: nat)
    requires Valid(t)
    ensures ProjectsFollowLayout(t, leftCount, LeftProjects(t), RightProjects(t, leftCount))
  {
  }

  /** A replacement assembled from the remapped condition, the projections and the remapped seeds means what `Means` says. */
  lemma ReplacementMeans(j: NestedLoopJoin, p: Pushed, r: Replacement)
    requires Valid(p.table) && |j.projected| <= |p.table.exprs|
    ensures RemapAll(IdentityRefs(|j.projected|), Layout(p.table)).Some?
    ensures
      && Remap(p.expr, Layout(p.table)) == Some(r.condition)
      && r.leftProjects == LeftProjects(p.table) && r.rightProjects == RightProjects(p.table, j.leftCount)
      && r.projected == ProjectedOf(RemapAll(IdentityRefs(|j.projected|), Layout(p.table)).value)
      ==> Means(j, p, r)
  {
    ProjectsMean(p.table, j.leftCount);
    ProjectedAreSeeds(p.table, |j.projected|);
    if Remap(p.expr, Layout(p.table)) == Some(r.condition) {
      ConditionMeans(p, r.condition);
    }
  }

  /** A replacement built from a pushed condition means what `Means` says. */
  lemma AssembleMeaning(j: NestedLoopJoin, p: Pushed)
    requires Valid(p.table) && |j.projected| <= |p.table.exprs|
    ensures Assemble(j, p).Rewritten? ==> Means(j, p, Assemble(j, p).join)
  {
    if Assemble(j, p).Rewritten? {
      ReplacementMeans(j, p, Assemble(j, p).join);
    }
  }

  /** Under either merge, a replacement means what `Means` says about the pushed condition and its table. */
  lemma RewrittenMeaning(j: NestedLoopJoin, v: Variant, fuel: nat)
    requires WellFormed(j.condition) && Increasing(j.projected)
    ensures OnMatch(j, v, fuel).Rewritten? ==> Means(j, PushCondition(j, v, fuel), OnMatch(j, v, fuel).join)
  {
    AssembleMeaning(j, PushCondition(j, v, fuel));
  }

  /** The seed table tags each seed by its column, so it is tag-sound for columns below `width`. */
  lemma SeedTagSound(columns: seq<nat>, leftCount: nat, width: int)
    requires Increasing(columns)
    requires forall i :: 0 <= i < |columns| ==> columns[i] < width
    ensures TagSound(Seed(columns, leftCount), leftCount, width)
  {
    var seeded := Seed(columns, leftCount);
    forall k | 0 <= k < |seeded.leftExprs|
      ensures RefsWithin(seeded.exprs[seeded.leftExprs[k]], 0, leftCount)
    {
      assert seeded.leftExprs[k] in seeded.leftExprs;
    }
    forall k | 0 <= k < |seeded.rightExprs|
      ensures RefsWithin(seeded.exprs[seeded.rightExprs[k]], leftCount, width)
    {
      var i := seeded.rightExprs[k];
      assert i !in seeded.leftExprs;
    }
  }

  /**
    With the repaired merge, the pushed condition meets what `AssembleSound`
    needs: the table is tag-sound; a condition that is not BOTH leaves the
    seed table, whose entries are bare references; and a BOTH condition
    mentions only table positions.
   */
  lemma PushConditionSound(j: NestedLoopJoin, fuel: nat, width: nat)
    requires WellFormed(j.condition) && Increasing(j.projected)
    requires RefsWithin(j.condition, 0, width)
    requires forall i :: 0 <= i < |j.projected| ==> j.projected[i] < width
    ensures var p := PushCondition(j, BothAbsorbs, fuel);
      && TagSound(p.table, j.leftCount, width)
      && (p.side != Both ==> forall i :: 0 <= i < |p.table.exprs| ==> p.table.exprs[i].InputRef?)
      && (p.side == Both ==> RefsWithin(p.expr, 0, |p.table.exprs|))
  {
    PushedConditionIsSound(j, fuel, width);
    SoundPushIsReady(Normalize(j.condition, fuel).expr, Seed(j.projected, j.leftCount),
                     PushCondition(j, BothAbsorbs, fuel), j.leftCount, width);
  }

  lemma PushedConditionIsSound(j: NestedLoopJoin, fuel: nat, width: nat)
    requires WellFormed(j.condition) && Increasing(j.projected)
    requires RefsWithin(j.condition, 0, width)
    requires forall i :: 0 <= i < |j.projected| ==> j.projected[i] < width
    ensures var seeded := Seed(j.projected, j.leftCount);
      && (forall i :: 0 <= i < |seeded.exprs| ==> seeded.exprs[i].InputRef?)
      && PushedSound(Normalize(j.condition, fuel).expr, seeded, PushCondition(j, BothAbsorbs, fuel), j.leftCount, width)
  {
    NormalizeKeepsRefs(j.condition, fuel, 0, width);
    SeedTagSound(j.projected, j.leftCount, width);
    PushSound(Normalize(j.condition, fuel).expr, Seed(j.projected, j.leftCount), Config(j.leftCount, BothAbsorbs), width);
    PushConditionFromSeeds(j, BothAbsorbs, fuel);
  }

  /** The seeds' own push changes nothing, so the condition is pushed over the seed table. */
  lemma PushConditionFromSeeds(j: NestedLoopJoin, v: Variant, fuel: nat)
    requires WellFormed(j.condition) && Increasing(j.projected)
    ensures PushCondition(j, v, fuel) ==
      Push(Normalize(j.condition, fuel).expr, Seed(j.projected, j.leftCount), Config(j.leftCount, v))
  {
    PushingRefsChangesNothing(ColumnRefs(j.projected), Seed(j.projected, j.leftCount), Config(j.leftCount, v));
  }

  lemma SoundPushIsReady(e: Expr, seeded: Table, p: Pushed, leftCount: nat, width: int)
    requires forall i :: 0 <= i < |seeded.exprs| ==> seeded.exprs[i].InputRef?
    requires PushedSound(e, seeded, p, leftCount, width)
    ensures TagSound(p.table, leftCount, width)
    ensures p.side != Both ==> forall i :: 0 <= i < |p.table.exprs| ==> p.table.exprs[i].InputRef?
    ensures p.side == Both ==> RefsWithin(p.expr, 0, |p.table.exprs|)
  {
  }

  /** The projections of a tag-sound table mention only their own input's columns, renumbered from 0. */
  lemma ProjectionsStayInside(t: Table, leftCount: nat, width: int)
    requires Valid(t) && TagSound(t, leftCount, width)
    ensures forall k :: 0 <= k < |t.leftExprs| ==> RefsWithin(LeftProjects(t)[k], 0, leftCount)
    ensures forall k :: 0 <= k < |t.rightExprs| ==> RefsWithin(RightProjects(t, leftCount)[k], 0, width - leftCount)
  {
    forall k | 0 <= k < |t.rightExprs|
      ensures RefsWithin(RightProjects(t, leftCount)[k], 0, width - leftCount)
    {
      ShiftMovesRefs(t.exprs[t.rightExprs[k]], -(leftCount as int), leftCount, width);
    }
  }

  lemma ConditionRemaps(t: Table, e: Expr)
    requires Valid(t) && RefsWithin(e, 0, |t.exprs|)
    ensures Remap(e, Layout(t)).Some?
  {
    LayoutIsArrangement(t);
    RemapDefined(e, Layout(t), |t.exprs|);
  }

  lemma SeedsRemap(t: Table, n: nat)
    requires Valid(t) && n <= |t.exprs|
    ensures RemapAll(IdentityRefs(n), Layout(t)).Some?
  {
    ProjectedAreSeeds(t, n);
  }

  /** A pushed condition that mentions only table positions is remapped without failure, and so are the seeds. */
  lemma AssembleDoesNotFail(j: NestedLoopJoin, p: Pushed)
    requires Valid(p.table) && |j.projected| <= |p.table.exprs|
    requires RefsWithin(p.expr, 0, |p.table.exprs|)
    ensures Assemble(j, p) != Failed
  {
    ConditionRemaps(p.table, p.expr);
    SeedsRemap(p.table, |j.projected|);
    RemapsMeanNoFailure(j, p);
  }

  lemma RemapsMeanNoFailure(j: NestedLoopJoin, p: Pushed)
    requires Valid(p.table) && |j.projected| <= |p.table.exprs|
    ensures Remap(p.expr, Layout(p.table)).Some? && RemapAll(IdentityRefs(|j.projected|), Layout(p.table)).Some?
      ==> Assemble(j, p) != Failed
  {
  }

  /** `Assemble` over a pushed condition with the repaired merge's guarantees; see `RepairedRuleIsSound`. */
  lemma AssembleSound(j: NestedLoopJoin, p: Pushed, width: nat)
    requires Valid(p.table) && |j.projected| <= |p.table.exprs|
    requires TagSound(p.table, j.leftCount, width)
    requires p.side != Both ==> forall i :: 0 <= i < |p.table.exprs| ==> p.table.exprs[i].InputRef?
    requires p.side == Both ==> RefsWithin(p.expr, 0, |p.table.exprs|)
    ensures Assemble(j, p) != Failed
    ensures p.side != Both ==> Assemble(j, p) == NoChange
    ensures var r := Assemble(j, p);
      r.Rewritten? ==> ProjectsStayInside(r.join, j.leftCount, width)
  {
    if p.side == Both {
      AssembleDoesNotFail(j, p);
    } else {
      NothingHoistedNoChange(j, p);
    }
    if Assemble(j, p).Rewritten? {
      RewrittenProjections(j, p);
      ReplacementStaysInside(p.table, j.leftCount, width, Assemble(j, p).join);
    }
  }

  /**
    The new left input's projections read only columns of the old left input,
    and the new right input's only columns of the old right input, renumbered
    from 0.
   */
  predicate ProjectsStayInside(r: Replacement, leftCount: nat, width: int) {
    && (forall k :: 0 <= k < |r.leftProjects| ==> RefsWithin(r.leftProjects[k], 0, leftCount))
    && (forall k :: 0 <= k < |r.rightProjects| ==> RefsWithin(r.rightProjects[k], 0, width - leftCount))
  }

  /** Projections taken from a table with truthful tags read only their own input's columns. */
  lemma ReplacementStaysInside(t: Table, leftCount: nat, width: nat, r: Replacement)
    requires Valid(t) && TagSound(t, leftCount, width)
    requires r.leftProjects == LeftProjects(t) && r.rightProjects == RightProjects(t, leftCount)
    ensures ProjectsStayInside(r, leftCount, width)
  {
    ProjectionsStayInside(t, leftCount, width);
  }

  /** A table of plain references means nothing was hoisted: `onMatch` returns early. */
  lemma NothingHoistedNoChange(j: NestedLoopJoin, p: Pushed)
    requires Valid(p.table) && |j.projected| <= |p.table.exprs|
    requires forall i :: 0 <= i < |p.table.exprs| ==> p.table.exprs[i].InputRef?
    ensures Assemble(j, p) == NoChange
  {
  }

  /** A rewrite's projections are the table's LEFT entries and its shifted RIGHT entries. */
  lemma RewrittenProjections(j: NestedLoopJoin, p: Pushed)
    requires Valid(p.table) && |j.projected| <= |p.table.exprs|
    ensures Assemble(j, p).Rewritten? ==>
      && Assemble(j, p).join.leftProjects == LeftProjects(p.table)
      && Assemble(j, p).join.rightProjects == RightProjects(p.table, j.leftCount)
  {
  }

  /**
    With the repaired merge, on a condition that mentions only columns of the
    combined row of width `width`: the rule never fails; a condition the
    pusher does not classify BOTH leaves the join alone; and in a replacement
    the new left input's projections mention only left columns and the new
    right input's only right columns, renumbered from 0.
   */
  lemma RepairedRuleIsSound(j: NestedLoopJoin, fuel: nat, width: nat)
    requires WellFormed(j.condition) && Increasing(j.projected)
    requires RefsWithin(j.condition, 0, width)
    requires forall i :: 0 <= i < |j.projected| ==> j.projected[i] < width
    ensures OnMatch(j, BothAbsorbs, fuel) != Failed
    ensures PushCondition(j, BothAbsorbs, fuel).side != Both ==> OnMatch(j, BothAbsorbs, fuel) == NoChange
    ensures var r := OnMatch(j, BothAbsorbs, fuel);
      r.Rewritten? ==>
        && (forall k :: 0 <= k < |r.join.leftProjects| ==> RefsWithin(r.join.leftProjects[k], 0, j.leftCount))
        && (forall k :: 0 <= k < |r.join.rightProjects| ==> RefsWithin(r.join.rightProjects[k], 0, width - j.leftCount))
  {
    PushConditionSound(j, fuel, width);
    AssembleSound(j, PushCondition(j, BothAbsorbs, fuel), width);
  }
}
