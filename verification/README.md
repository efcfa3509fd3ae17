# SimplifyNLJConditionRule, modelled in Dafny

Dremio's planner rule `SimplifyNLJConditionRule` takes a nested-loop join and
simplifies its join condition. It pushes every sub-expression that reads only
one side of the join into a projection on that side. The condition is left
reading only the pushed-down results:

1. First, two local rewrites are applied until nothing changes.
   - `sin`/`cos`/`tan` of `(x ± y) / c`, where `c` is constant, becomes
     `trig(x/c ± y/c)`.
   - `sin`/`cos` of a sum or a difference becomes one of the marker calls
     `SIN_PLUS`, `SIN_MINUS`, `COS_PLUS` or `COS_MINUS`.
2. Then the `ExpressionPusher` walks the condition bottom-up and tags every
   node LEFT, RIGHT, BOTH or EMPTY.
   - A marker whose operands lie on opposite sides is expanded by the
     angle-sum identity. Any other marker is restored to `sin`/`cos` of `+`/`-`.
   - A call whose operands mix the sides is pushed down. Its LEFT and RIGHT
     operands are hoisted into a deduplicated table and replaced by
     references to their table position.
3. Last, the rule builds the result.
   - The new left input projects the table entries tagged LEFT.
   - The new right input projects the entries tagged RIGHT, shifted by the
     left input's column count.
   - The condition is renumbered through the bijection that lists the LEFT
     positions before the RIGHT ones.
   - The rule gives up when nothing was hoisted, or when the renumbered
     condition equals the original one.

The model has these modules:

| module | contents |
|---|---|
| `Exprs` | Row expressions (`RexNode`): column references, literals, calls. |
| `Sides` | The `Side` lattice, the merge as written, and a repaired merge. |
| `Trig` | The markers, `restoreTrig`, the expansion in `handleSpecial`, and the two rewrite rules. |
| `Rewriter` | The rewriting driver. |
| `Pusher` | `ExpressionPusher`, with its table threaded through explicitly. |
| `Soundness` | Proves that, under the repaired merge, every table entry reads only the columns of the side it is tagged with. |
| `Markers` | Proves that no marker survives the pusher. |
| `Content` | Proves what a pushed condition computes: read through the table, it is the condition with cross-side markers expanded and all other markers restored. |
| `Renumber` | The bijection's inverse (`RexPermuteInputsShuttle`) and its round trips. |
| `Rule` | `onMatch` itself, and the properties of the join it builds. |
| `Findings` | A concrete condition on which the merge as written goes wrong, and on which the repaired merge does not. |
| `Rewrites` | A concrete join that the repaired rule rewrites, and a second run on its replacement that changes nothing. |

The source file throughout is
`sabot/kernel/src/main/java/com/dremio/exec/planner/physical/SimplifyNLJConditionRule.java`.

The rule's own errors become explicit results. `restoreTrig` throws on a
non-marker, and remapping a reference that is not a table position throws in
Calcite. Both become an explicit `None` or `Failed`, not a precondition. The
one precondition the model keeps is `WellFormed`: every call has an operand
count its operator accepts. Calcite's typed calls guarantee this, and the two
rewrite rules read `get(0)` and `get(1)` without checking. The members that
require it are listed under Left out.

Two behaviours of the code are modelled as written:

- In `SinCosPlusMinusRewriteRule`, the SIN case falls through to the COS case
  when the child is a call of another kind. That case answers "no change"
  too, so the model states the observable behaviour.
- `Side.merge` is modelled twice. `Variant.AsWritten` is the code. `Variant.BothAbsorbs` is the repair described under Findings.

## Model

| member | source | states |
|---|---|---|
| Sides.Merge | sabot/kernel/src/main/java/com/dremio/exec/planner/physical/SimplifyNLJConditionRule.java:143-156 | The merge as written is BOTH exactly when the list holds both a LEFT and a RIGHT, and EMPTY exactly when it holds neither. A LEFT or RIGHT result occurs in the list. |
| Sides.MergeBothAbsorbs | sabot/kernel/src/main/java/com/dremio/exec/planner/physical/SimplifyNLJConditionRule.java:143-156 | The repaired merge is BOTH exactly when some entry is BOTH or the list mixes LEFT and RIGHT. It is EMPTY exactly when every entry is EMPTY. |
| Sides.MergeBothAbsorbsIsJoinAll | sabot/kernel/src/main/java/com/dremio/exec/planner/physical/SimplifyNLJConditionRule.java:143-156 | The repaired merge equals the fold of the binary lattice join over all entries. |
| Sides.MergeIsJoinAllWithoutBoth | sabot/kernel/src/main/java/com/dremio/exec/planner/physical/SimplifyNLJConditionRule.java:143-156 | The merge as written equals the same fold over the list with its BOTH entries dropped. |
| Sides.MergeIgnoresBoth | sabot/kernel/src/main/java/com/dremio/exec/planner/physical/SimplifyNLJConditionRule.java:144-145 | Adding or dropping BOTH entries never changes the merge as written. |
| Sides.MergeOfBothAndEmpty | sabot/kernel/src/main/java/com/dremio/exec/planner/physical/SimplifyNLJConditionRule.java:143-163 | Operands that are only BOTH or EMPTY are not pushed down. They merge to EMPTY as written, and to BOTH when repaired if one of them is BOTH. |
| Sides.ShouldPushDown | sabot/kernel/src/main/java/com/dremio/exec/planner/physical/SimplifyNLJConditionRule.java:158-163 | A call is pushed down exactly when its operands hold LEFT and RIGHT, or hold BOTH together with LEFT or RIGHT. Equivalently: some operand is one-sided and the repaired merge is BOTH. |
| Sides.DifferentSides | sabot/kernel/src/main/java/com/dremio/exec/planner/physical/SimplifyNLJConditionRule.java:256-263 | True exactly when the two sides are one LEFT and one RIGHT. Such a pair is pushed down and merges to BOTH. |
| Trig.MarkerFor | sabot/kernel/src/main/java/com/dremio/exec/planner/physical/SimplifyNLJConditionRule.java:481-516 | The marker chosen for `f(a g b)` stands for trig function `f` and sign `g`. |
| Trig.MarkerForTrigSign | sabot/kernel/src/main/java/com/dremio/exec/planner/physical/SimplifyNLJConditionRule.java:371-408 | Every marker is the one chosen for its own trig function and sign. |
| Trig.RestoreTrig | sabot/kernel/src/main/java/com/dremio/exec/planner/physical/SimplifyNLJConditionRule.java:371-412 | Restoring succeeds exactly on a marker with at least two operands and fails (the thrown error) otherwise. The result is a one-operand non-marker call. |
| Trig.Expand | sabot/kernel/src/main/java/com/dremio/exec/planner/physical/SimplifyNLJConditionRule.java:284-363 | The four expansions are one identity: `f(a±b) = f(a)cos(b) ± cof(a)sin(b)` for sin, with the sign flipped for cos. |
| Trig.SpecialFormsKeep | sabot/kernel/src/main/java/com/dremio/exec/planner/physical/SimplifyNLJConditionRule.java:274-367 | Both the restored and the expanded form mention only the operands' columns. Each is marker-free and well formed when the operands are. |
| Trig.SpecialFormsAreLighter | sabot/kernel/src/main/java/com/dremio/exec/planner/physical/SimplifyNLJConditionRule.java:221-224 | Both forms weigh less than the marker call, so re-pushing the special form terminates. |
| Trig.TrigFractionRewrite | sabot/kernel/src/main/java/com/dremio/exec/planner/physical/SimplifyNLJConditionRule.java:421-467 | The rule fires exactly on sin/cos/tan of a division whose divisor is constant and whose dividend is a two-operand `+`/`-` call. Its result is a well-formed call of the same trig function. |
| Trig.FractionSplitsDivision | sabot/kernel/src/main/java/com/dremio/exec/planner/physical/SimplifyNLJConditionRule.java:420-455 | For every trig function, sign, operands `x`, `y` and constant `c`, the rule turns `trig((x ± y) / c)` into `trig(x/c ± y/c)`. The divisor is copied onto both terms. |
| Trig.SinCosPlusMinusRewrite | sabot/kernel/src/main/java/com/dremio/exec/planner/physical/SimplifyNLJConditionRule.java:481-516 | The rule fires exactly on sin/cos of a `+`/`-` call. It yields a well-formed marker call. |
| Trig.SplitThenRestore | sabot/kernel/src/main/java/com/dremio/exec/planner/physical/SimplifyNLJConditionRule.java:481-516 | Round trip: restoring the marker the split rule built gives back the original call. |
| Trig.RestoreThenSplit | sabot/kernel/src/main/java/com/dremio/exec/planner/physical/SimplifyNLJConditionRule.java:371-412 | Round trip: splitting a restored marker call gives back the marker call. |
| Trig.FractionThenSplit | sabot/kernel/src/main/java/com/dremio/exec/planner/physical/SimplifyNLJConditionRule.java:421-457 | The fraction rule does not fire twice in a row. On sin/cos its result is exactly what the split rule turns into the marker over `x/c` and `y/c`. |
| Trig.FractionKeepsRefs | sabot/kernel/src/main/java/com/dremio/exec/planner/physical/SimplifyNLJConditionRule.java:442-457 | The fraction rule's result reads the columns in any range exactly when its input does. |
| Trig.SplitKeepsRefs | sabot/kernel/src/main/java/com/dremio/exec/planner/physical/SimplifyNLJConditionRule.java:483-511 | The split rule's result reads the columns in any range exactly when its input does. |
| Rewriter.ApplyRules | sabot/kernel/src/main/java/com/dremio/exec/planner/physical/SimplifyNLJConditionRule.java:82 | No rule fires exactly when both rules decline. Any result is well formed. |
| Rewriter.QuietPassIsFixedPoint | sabot/kernel/src/main/java/com/dremio/exec/planner/physical/SimplifyNLJConditionRule.java:82 | A rewriting pass changes nothing exactly when no node of the expression is a redex of either rule. |
| Rewriter.Normalize | sabot/kernel/src/main/java/com/dremio/exec/planner/physical/SimplifyNLJConditionRule.java:82 | Rewriting keeps the condition well formed. A converged result has no redex. A condition without redex is returned unchanged. |
| Rewriter.NormalizeKeepsRefs | sabot/kernel/src/main/java/com/dremio/exec/planner/physical/SimplifyNLJConditionRule.java:82 | The rewritten condition reads the columns in any range exactly when the original does. |
| Exprs.ConstantHasNoRefs | sabot/kernel/src/main/java/com/dremio/exec/planner/physical/SimplifyNLJConditionRule.java:432 | A constant divisor mentions no column. |
| Exprs.ShiftMovesRefs | sabot/kernel/src/main/java/com/dremio/exec/planner/physical/SimplifyNLJConditionRule.java:109 | `RexUtil.shift` by an offset moves the range of referenced columns by the same offset, in both directions. |
| Exprs.ShiftBack | sabot/kernel/src/main/java/com/dremio/exec/planner/physical/SimplifyNLJConditionRule.java:109 | Shifting back by the same offset undoes a shift. |
| Pusher.Append | sabot/kernel/src/main/java/com/dremio/exec/planner/physical/SimplifyNLJConditionRule.java:231-240 | A new entry goes at the end of the table and only extends it. It keeps the table invariant and is tagged LEFT exactly when asked. |
| Pusher.Seed | sabot/kernel/src/main/java/com/dremio/exec/planner/physical/SimplifyNLJConditionRule.java:180-195 | The constructor builds a valid table. Entry `i` is the reference to the `i`-th projected column, tagged LEFT exactly when that column is a left column. |
| Pusher.HoistOperand | sabot/kernel/src/main/java/com/dremio/exec/planner/physical/SimplifyNLJConditionRule.java:228-244 | BOTH and EMPTY operands stay in place. A LEFT or RIGHT operand becomes a reference to a table position holding exactly that operand, reused when present and appended with its tag otherwise. The table only grows and stays valid. |
| Pusher.HoistAll | sabot/kernel/src/main/java/com/dremio/exec/planner/physical/SimplifyNLJConditionRule.java:226-245 | The same, operand by operand over the whole call. |
| Pusher.Push | sabot/kernel/src/main/java/com/dremio/exec/planner/physical/SimplifyNLJConditionRule.java:202-254 | Pushing only appends to the table and keeps it valid: deduplicated, and every position tagged exactly once. What the pushed node computes is stated by Content.PushComputes. |
| Pusher.PushAll | sabot/kernel/src/main/java/com/dremio/exec/planner/physical/SimplifyNLJConditionRule.java:215-220 | One result and one side per operand. The table only grows and stays valid. |
| Soundness.AppendTagSound | sabot/kernel/src/main/java/com/dremio/exec/planner/physical/SimplifyNLJConditionRule.java:231-240 | Appending an entry that reads only its side's columns keeps every tag truthful. |
| Soundness.AppendKeepsLeftTags | sabot/kernel/src/main/java/com/dremio/exec/planner/physical/SimplifyNLJConditionRule.java:231-240 | The LEFT half: after the append every LEFT-tagged entry, old or new, reads only left columns. |
| Soundness.AppendKeepsRightTags | sabot/kernel/src/main/java/com/dremio/exec/planner/physical/SimplifyNLJConditionRule.java:231-240 | The RIGHT half: after the append every RIGHT-tagged entry, old or new, reads only right columns. |
| Soundness.HoistAllSound | sabot/kernel/src/main/java/com/dremio/exec/planner/physical/SimplifyNLJConditionRule.java:226-245 | Hoisting sound operands keeps every tag truthful. The hoisted call reads table positions only. |
| Soundness.SpecialFootprint | sabot/kernel/src/main/java/com/dremio/exec/planner/physical/SimplifyNLJConditionRule.java:284-363 | The marker call, its restored form and (for operands on opposite sides) its expansion have the same footprint: the repaired merge of the operands' footprints. |
| Soundness.UnmarkRestored | sabot/kernel/src/main/java/com/dremio/exec/planner/physical/SimplifyNLJConditionRule.java:371-408 | Restoring commutes with resolving the markers inside the operands. |
| Soundness.MarkerStep | sabot/kernel/src/main/java/com/dremio/exec/planner/physical/SimplifyNLJConditionRule.java:221-224 | Re-pushing the special form of a marker call is sound for the marker call itself. |
| Soundness.PushDownStep | sabot/kernel/src/main/java/com/dremio/exec/planner/physical/SimplifyNLJConditionRule.java:225-247 | A pushed-down call is BOTH by its footprint, reads only table positions, and leaves every tag truthful. |
| Soundness.MergeStep | sabot/kernel/src/main/java/com/dremio/exec/planner/physical/SimplifyNLJConditionRule.java:249-253 | Under the repaired merge, a call that is not pushed down reads only the columns of its merged side. |
| Soundness.PushSound | sabot/kernel/src/main/java/com/dremio/exec/planner/physical/SimplifyNLJConditionRule.java:202-254 | Under the repaired merge, a node's side is the footprint of the columns it reads. A one-sided node is left untouched, apart from resolving its markers. The table's tags stay truthful: a LEFT entry reads left columns only, a RIGHT entry right columns only. |
| Soundness.PushAllSound | sabot/kernel/src/main/java/com/dremio/exec/planner/physical/SimplifyNLJConditionRule.java:215-220 | The same, for the operand list. |
| Markers.HoistAllClean | sabot/kernel/src/main/java/com/dremio/exec/planner/physical/SimplifyNLJConditionRule.java:226-245 | Hoisting marker-free operands keeps the call and the table marker-free. |
| Markers.PushResolvesMarkers | sabot/kernel/src/main/java/com/dremio/exec/planner/physical/SimplifyNLJConditionRule.java:274-367 | Under either merge, no SIN_PLUS/SIN_MINUS/COS_PLUS/COS_MINUS survives in a pushed well-formed expression or in the table. |
| Markers.PushAllResolvesMarkers | sabot/kernel/src/main/java/com/dremio/exec/planner/physical/SimplifyNLJConditionRule.java:215-220 | The same, for the operand list. |
| Content.InlineGrow | sabot/kernel/src/main/java/com/dremio/exec/planner/physical/SimplifyNLJConditionRule.java:231-240 | Appending entries to the table never changes what an expression over the old positions reads through it. |
| Content.ResolveOneSided | sabot/kernel/src/main/java/com/dremio/exec/planner/physical/SimplifyNLJConditionRule.java:202-254 | A node whose footprint is not BOTH has no marker to expand: resolving it only restores its markers. |
| Content.SpecialResolves | sabot/kernel/src/main/java/com/dremio/exec/planner/physical/SimplifyNLJConditionRule.java:274-367 | The restored and the expanded forms hold no marker of their own, so resolving them resolves their operands. |
| Content.MarkerComputes | sabot/kernel/src/main/java/com/dremio/exec/planner/physical/SimplifyNLJConditionRule.java:221-224 | The special form that `visitCall` pushes again resolves to what the marker call itself resolves to. |
| Content.PushDownComputes | sabot/kernel/src/main/java/com/dremio/exec/planner/physical/SimplifyNLJConditionRule.java:225-248 | A pushed-down call, read through the grown table, is the resolved call: each hoisted operand is a reference to the entry holding it, and no other operand moves. |
| Content.MergeComputes | sabot/kernel/src/main/java/com/dremio/exec/planner/physical/SimplifyNLJConditionRule.java:249-253 | A BOTH call that is not pushed down has only BOTH and EMPTY operands, and reads back as the resolved call. |
| Content.PushComputes | sabot/kernel/src/main/java/com/dremio/exec/planner/physical/SimplifyNLJConditionRule.java:202-254 | Under the repaired merge, a BOTH result read through its table is the input with cross-side markers expanded and all other markers restored. Any other result is that expression itself. |
| Content.PushAllComputes | sabot/kernel/src/main/java/com/dremio/exec/planner/physical/SimplifyNLJConditionRule.java:215-220 | The same, for the operand list, each operand read through the final table. |
| Content.CrossSideMarkerExpands | sabot/kernel/src/main/java/com/dremio/exec/planner/physical/SimplifyNLJConditionRule.java:274-363 | A marker whose operands lie one LEFT and one RIGHT is pushed as BOTH. Read through the table, it is the angle-sum expansion over the operands, not the restored call. |
| Content.SameSideMarkerRestores | sabot/kernel/src/main/java/com/dremio/exec/planner/physical/SimplifyNLJConditionRule.java:274-367 | Any other marker is restored: as it stands when it is one-sided, and read through the table when it is BOTH. |
| Content.RewrittenConditionComputes | sabot/kernel/src/main/java/com/dremio/exec/planner/physical/SimplifyNLJConditionRule.java:76-134 | Under the repaired merge, a rewritten condition, mapped back through the layout and read through the table, is the rewritten input condition with its markers resolved. |
| Renumber.IndexOf | sabot/kernel/src/main/java/com/dremio/exec/planner/physical/SimplifyNLJConditionRule.java:116-118 | The inverse lookup finds a position exactly when the value is listed, and returns its first occurrence. |
| Renumber.Remap | sabot/kernel/src/main/java/com/dremio/exec/planner/physical/SimplifyNLJConditionRule.java:116-119 | A remapped expression reads only columns of the new layout. Its partners are the round trips Renumber.RemapThenRename and Renumber.RenameThenRemap, and Renumber.RemapDefined says exactly when it succeeds. |
| Renumber.RemapAll | sabot/kernel/src/main/java/com/dremio/exec/planner/physical/SimplifyNLJConditionRule.java:118-119 | A list remaps exactly when each operand does, operand by operand. |
| Renumber.RemapThenRename | sabot/kernel/src/main/java/com/dremio/exec/planner/physical/SimplifyNLJConditionRule.java:116-119 | Round trip: a remapped condition reads positions within the layout, and mapping them forward again gives back the original. |
| Renumber.RemapAllThenRename | sabot/kernel/src/main/java/com/dremio/exec/planner/physical/SimplifyNLJConditionRule.java:116-119 | The same round trip, for an operand list. |
| Renumber.RenameThenRemap | sabot/kernel/src/main/java/com/dremio/exec/planner/physical/SimplifyNLJConditionRule.java:116-119 | Round trip the other way: over a duplicate-free layout, mapping forward and then inverting gives back the expression. |
| Renumber.RenameAllThenRemap | sabot/kernel/src/main/java/com/dremio/exec/planner/physical/SimplifyNLJConditionRule.java:116-119 | The same, for an operand list. |
| Renumber.RemapDefined | sabot/kernel/src/main/java/com/dremio/exec/planner/physical/SimplifyNLJConditionRule.java:116-119 | Over an arrangement of the table positions, the inverse permutation is defined exactly when the expression reads only table positions. |
| Renumber.RemapAllDefined | sabot/kernel/src/main/java/com/dremio/exec/planner/physical/SimplifyNLJConditionRule.java:116-125 | The same, for an operand list. |
| Rule.PushCondition | sabot/kernel/src/main/java/com/dremio/exec/planner/physical/SimplifyNLJConditionRule.java:82-93 | After rewriting, seeding and pushing, the table is valid and only extends the seed table. Position `i` still holds the seed `InputRef(projected[i])` for every projected column. |
| Rule.Assemble | sabot/kernel/src/main/java/com/dremio/exec/planner/physical/SimplifyNLJConditionRule.java:95-133 | Assembling fails exactly when something was hoisted and the pushed condition reads a position the table lacks. It rewrites exactly when something was hoisted, the condition reads only table positions, and the old condition, mapped through the new layout, is not already the pushed one. A rewrite always changes the condition. |
| Rule.RemapOutcomes | sabot/kernel/src/main/java/com/dremio/exec/planner/physical/SimplifyNLJConditionRule.java:116-125 | The condition remaps exactly when it reads only table positions. The identity projections always remap. The remapped condition equals the old one exactly when the old one, mapped forward through the layout, is the pushed condition. |
| Rule.OnMatch | sabot/kernel/src/main/java/com/dremio/exec/planner/physical/SimplifyNLJConditionRule.java:76-134 | Every replacement `onMatch` builds means what `Means` says about the pusher's run: the condition, the two projections and the projected set all follow the new layout. Safety is Rule.RepairedRuleIsSound, what the condition computes is Content.RewrittenConditionComputes, and a join it does rewrite is Rewrites.RepairedRewritesJoin. |
| Rule.LayoutIsArrangement | sabot/kernel/src/main/java/com/dremio/exec/planner/physical/SimplifyNLJConditionRule.java:116 | The LEFT positions followed by the RIGHT positions list every table position exactly once, so `Mappings.bijection` is well defined. |
| Rule.PushingRefsChangesNothing | sabot/kernel/src/main/java/com/dremio/exec/planner/physical/SimplifyNLJConditionRule.java:90 | Pushing the identity projections changes neither them nor the table. |
| Rule.ProjectedAreSeeds | sabot/kernel/src/main/java/com/dremio/exec/planner/physical/SimplifyNLJConditionRule.java:121-125 | The identity projections always remap. Column `k` of the new projected set is set exactly when layout slot `k` holds a seed. |
| Rule.ConditionMeans | sabot/kernel/src/main/java/com/dremio/exec/planner/physical/SimplifyNLJConditionRule.java:116-119 | The new condition is the pushed condition with every table position replaced by its slot in the new join's row. |
| Rule.ProjectsMean | sabot/kernel/src/main/java/com/dremio/exec/planner/physical/SimplifyNLJConditionRule.java:100-109 | Left projection `k` is the `k`-th LEFT entry. Right projection `k` is the `k`-th RIGHT entry shifted by minus the left column count. |
| Rule.ReplacementMeans | sabot/kernel/src/main/java/com/dremio/exec/planner/physical/SimplifyNLJConditionRule.java:100-131 | A replacement assembled from its parts has all three meanings above. |
| Rule.AssembleMeaning | sabot/kernel/src/main/java/com/dremio/exec/planner/physical/SimplifyNLJConditionRule.java:95-133 | Every replacement `Assemble` produces has all three meanings above. |
| Rule.RewrittenMeaning | sabot/kernel/src/main/java/com/dremio/exec/planner/physical/SimplifyNLJConditionRule.java:76-134 | Every join `onMatch` produces has all three meanings above, relative to the pusher's run. |
| Rule.SeedTagSound | sabot/kernel/src/main/java/com/dremio/exec/planner/physical/SimplifyNLJConditionRule.java:184-192 | The constructor's tags are truthful: a seed tagged LEFT is a left column, a seed tagged RIGHT a right column. |
| Rule.PushConditionSound | sabot/kernel/src/main/java/com/dremio/exec/planner/physical/SimplifyNLJConditionRule.java:82-93 | Under the repaired merge, the pusher's run leaves truthful tags. A one-sided condition leaves the table holding seed references only. A BOTH condition reads only table positions. |
| Rule.ProjectionsStayInside | sabot/kernel/src/main/java/com/dremio/exec/planner/physical/SimplifyNLJConditionRule.java:100-109 | Over truthful tags, each left projection reads columns of the left input and each shifted right projection reads columns of the right input. |
| Rule.ConditionRemaps | sabot/kernel/src/main/java/com/dremio/exec/planner/physical/SimplifyNLJConditionRule.java:116-119 | A condition that reads only table positions remaps without error. |
| Rule.AssembleDoesNotFail | sabot/kernel/src/main/java/com/dremio/exec/planner/physical/SimplifyNLJConditionRule.java:116-125 | Such a condition, and the identity projections, remap, so assembling never fails. |
| Rule.NothingHoistedNoChange | sabot/kernel/src/main/java/com/dremio/exec/planner/physical/SimplifyNLJConditionRule.java:95-97 | When every table entry is a plain column reference, nothing was pushed down and the join is left unchanged. |
| Rule.AssembleSound | sabot/kernel/src/main/java/com/dremio/exec/planner/physical/SimplifyNLJConditionRule.java:95-133 | Over the guarantees of the repaired pusher, assembling never fails, and a one-sided condition changes nothing. New projections read only their own input's columns. |
| Rule.RepairedRuleIsSound | sabot/kernel/src/main/java/com/dremio/exec/planner/physical/SimplifyNLJConditionRule.java:76-134 | With the repaired merge, on a condition over the join's row, `onMatch` never fails, and leaves the join alone unless the condition mixes sides. In a replacement, the new left input projects only left columns and the new right input only right columns, renumbered from 0. |
| Findings.ScaledSides | sabot/kernel/src/main/java/com/dremio/exec/planner/physical/SimplifyNLJConditionRule.java:143-156 | On the operand sides [BOTH, EMPTY], the merge as written gives EMPTY and the repaired merge BOTH. |
| Findings.PushConditionAsWritten | sabot/kernel/src/main/java/com/dremio/exec/planner/physical/SimplifyNLJConditionRule.java:225-249 | As written, the sum `((($0 + $2) * 2) * $1) + $3` in the condition `… > 0` is pushed down. The product reading `$2` is appended as a new entry tagged LEFT. The comparison merges [BOTH, EMPTY] to EMPTY and stays in the condition as `$4 + $3 > 0`. |
| Findings.AsWrittenLeaksRightColumn | sabot/kernel/src/main/java/com/dremio/exec/planner/physical/SimplifyNLJConditionRule.java:143-156 | As written, on a 2+2-column join with that condition, the table's tags are untruthful. `onMatch` rewrites the join with a left projection that reads column 2 of a two-column left input. |
| Findings.PushConditionRepaired | sabot/kernel/src/main/java/com/dremio/exec/planner/physical/SimplifyNLJConditionRule.java:225-247 | Repaired, the same condition is kept whole as BOTH, and the table keeps only the seeds. |
| Findings.RepairedLeavesWitnessAlone | sabot/kernel/src/main/java/com/dremio/exec/planner/physical/SimplifyNLJConditionRule.java:95-97 | Repaired, the table on that join keeps truthful tags and `onMatch` leaves the join alone. |
| Rewrites.PushSpread | sabot/kernel/src/main/java/com/dremio/exec/planner/physical/SimplifyNLJConditionRule.java:225-248 | In `$0 * 2 + $2`, the LEFT operand `$0 * 2` is appended as a LEFT entry and the sum reads it by position; the RIGHT operand `$2` reuses its seed. |
| Rewrites.JoinPush | sabot/kernel/src/main/java/com/dremio/exec/planner/physical/SimplifyNLJConditionRule.java:82-93 | The repaired run on `$0 * 2 + $2 > 0` over a 2+2-column join ends with the condition `$4 + $2 > 0`, BOTH, over the seeds plus `$0 * 2`. |
| Rewrites.RepairedRewritesJoin | sabot/kernel/src/main/java/com/dremio/exec/planner/physical/SimplifyNLJConditionRule.java:76-134 | Repaired, `onMatch` rewrites that join. The left input gains `$0 * 2`, the right input keeps its two columns, the condition becomes `$2 + $3 > 0`, and the projected set is {0, 1, 3, 4}. |
| Rewrites.RewriteIsStable | sabot/kernel/src/main/java/com/dremio/exec/planner/physical/SimplifyNLJConditionRule.java:95-97 | Running the repaired rule again on that replacement changes nothing: the only operands it hoists are plain column references. |

## Left out

- Calcite plumbing is not modelled: `matches` (lines 69-73), `ProjectPrel.create`, `RexUtil.createStructType`, row types, `NestedLoopJoinPrel.create` and `call.transformTo`. The outcome datatype `Rewritten` carries the new left and right projections, the new condition and the projected bitset instead.
- Data types are not modelled. `makeCast` is treated as an ordinary one-operand call, and the operand-type argument of `new RexInputRef` is dropped.
- `exprMap` is keyed by the expression's digest string in the source. Here it is keyed by the expression itself (structural equality). The same holds for the `toString()` comparison of the two conditions.
- Values are not modelled. Literals are integers, and the trig identities are stated as syntax, not as equalities of real numbers: floating-point evaluation is out of scope.
- The `RexRewriter` driver is not part of this model. Its `rewrite` is modelled as bottom-up passes, with the first firing rule winning at each node, repeated up to `fuel` times. A condition that still has a redex after `fuel` passes is handed on as it is.
- `identityProjects` from `MoreRelOptUtil` is not part of this model. It is taken to yield one reference per projected column of the join's row, in increasing column order.
- Rewriter.Normalize: requires a well-formed condition (fixed operand counts for the known operators), because the two rewrite rules index operands without checking.
- Trig.TrigFractionRewrite: requires a well-formed call, for the same reason. The source would fail with an index error on a call with too few operands.
- Trig.SinCosPlusMinusRewrite: requires a well-formed call, for the same reason.
- Rewriter.ApplyRules: requires a well-formed call, because it applies the two rules above.
- Rule.OnMatch: requires a well-formed condition, because it runs the rewriter. It also requires the projected columns in increasing order, as `identityProjects` yields them.
- Exprs.IsConstant: covers literals and calls of deterministic operators over constants. Calcite's `RexUtil.isConstant` also handles kinds of expression this model does not have, such as dynamic parameters and correlation variables.
- Rule.OnMatch: idempotence (a second run on a replacement changes nothing) is not proved for all joins, only for the join in Rewrites.RewriteIsStable. A general proof would have to follow the rewriter's passes over the renumbered condition (bounded by `fuel`) and relate every footprint under the new numbering to the old tags. The model does not build that theory.
- Rule.RepairedRuleIsSound: is proved for the repaired merge only. For the merge as written the property is false; see Findings.
- The two UI JavaScript files and `TestAutoRefreshConfiguration.java` belong to other parts of the repository and are not modelled.

## Findings

| source | as written | input that shows it | evidently intended | confidence | as-written member | corrected member |
|---|---|---|---|---|---|---|
| sabot/kernel/src/main/java/com/dremio/exec/planner/physical/SimplifyNLJConditionRule.java:143-156 | `Side.merge` looks only for LEFT and RIGHT, so a call over a BOTH operand and otherwise EMPTY or one-sided operands is merged to EMPTY or to that one side. | Left input of 2 columns, right input of 2, all 4 projected, condition `((($0 + $2) * 2) * $1) + $3 > 0`. `($0 + $2) * 2` merges [BOTH, EMPTY] to EMPTY, and the product with `$1` merges to LEFT. That product is hoisted as table entry 4, tagged LEFT, so the new left input projects an expression reading column 2, which a two-column left input does not have. | A BOTH operand makes the merge BOTH (the lattice join), so that the expression stays in the condition. On this input the rule then changes nothing. | not executed | Findings.AsWrittenLeaksRightColumn | Rule.RepairedRuleIsSound |
