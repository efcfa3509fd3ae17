/**
  The driver that applies the two trig rules to the join condition before the
  pusher runs. The driver itself (`RexRewriter`) is not part of this model's
  sources; it is modelled as passes that rewrite every call bottom-up
  (operands first, then the call is offered to the rules in order, and the
  first rule that fires replaces it), repeated until a pass fires no rule.
 */
module Rewriter {
  import opened Wrappers
  import opened Exprs
  import opened Trig

  /** The rule list of `onMatch`, tried in order: the fraction rule, then the split rule. */
  function ApplyRules(op: Op, args: seq<Expr>): (r: Option<Expr>)
    requires WellFormed(Call(op, args))
    ensures r.Some? ==> WellFormed(r.value)
    ensures r.None? <==> TrigFractionRewrite(op, args).None? && SinCosPlusMinusRewrite(op, args).None?
  {
    var f := TrigFractionRewrite(op, args);
    if f.Some? then f else SinCosPlusMinusRewrite(op, args)
  }

  /** No call anywhere in `e` is rewritten by a rule: a fixed point of the rewriting. */
  predicate NoRedex(e: Expr)
    requires WellFormed(e)
  {
    match e
    case Call(op, args) =>
      WellFormedCall(op, args);
      ApplyRules(op, args).None? && forall i :: 0 <= i < |args| ==> NoRedex(args[i])
    case _ => true
  }

  datatype Pass = Pass(expr: Expr, fired: bool)
  datatype PassAll = PassAll(exprs: seq<Expr>, fired: bool)

  /** One bottom-up pass; `fired` records whether any rule fired. */
  function RewritePass(e: Expr): (r: Pass)
    requires WellFormed(e)
    ensures WellFormed(r.expr)
    ensures !r.fired ==> r.expr == e
  {
    match e
    case Call(op, args) =>
      WellFormedCall(op, args);
      var kids := RewriteAll(args);
      assert WellFormed(Call(op, kids.exprs));
      var fired := ApplyRules(op, kids.exprs);
      if fired.Some? then Pass(fired.value, true) else Pass(Call(op, kids.exprs), kids.fired)
    case _ => Pass(e, false)
  }

  function RewriteAll(args: seq<Expr>): (r: PassAll)
    requires forall i :: 0 <= i < |args| ==> WellFormed(args[i])
    ensures |r.exprs| == |args|
    ensures forall i :: 0 <= i < |args| ==> WellFormed(r.exprs[i])
    ensures !r.fired ==> r.exprs == args
  {
    if |args| == 0 then PassAll([], false)
    else
      var head := RewritePass(args[0]);
      var tail := RewriteAll(args[1..]);
      assert args == [args[0]] + args[1..];
      PassAll([head.expr] + tail.exprs, head.fired || tail.fired)
  }

  /** A pass fires no rule exactly when the expression is already a fixed point. */
  lemma {:induction false} QuietPassIsFixedPoint(e: Expr)
    requires WellFormed(e)
    ensures !RewritePass(e).fired <==> NoRedex(e)
    decreases e, 1
  {
    match e
    case Call(op, args) =>
      WellFormedCall(op, args);
      QuietPassesAreFixedPoints(args);
      var kids := RewriteAll(args);
      if !kids.fired {
        assert kids.exprs == args;
      }
    case _ =>
  }

  lemma {:induction false} QuietPassesAreFixedPoints(args: seq<Expr>)
    requires forall i :: 0 <= i < |args| ==> WellFormed(args[i])
    ensures !RewriteAll(args).fired <==> forall i :: 0 <= i < |args| ==> NoRedex(args[i])
    decreases args, 0
  {
    if |args| > 0 {
      QuietPassIsFixedPoint(args[0]);
      QuietPassesAreFixedPoints(args[1..]);
      assert forall i :: 1 <= i < |args| ==> args[i] == args[1..][i - 1];
    }
  }

  datatype Normal = Normal(expr: Expr, converged: bool)

  /**
    Repeats passes until one fires nothing, for at most `fuel` further passes;
    `converged` is false when the fuel ran out first.
   */
  function Normalize(e: Expr, fuel: nat): (r: Normal)
    requires WellFormed(e)
    ensures WellFormed(r.expr)
    ensures r.converged ==> NoRedex(r.expr)
    ensures NoRedex(e) ==> r == Normal(e, true)
    decreases fuel
  {
    var p := RewritePass(e);
    QuietPassIsFixedPoint(e);
    if !p.fired then Normal(e, true)
    else if fuel == 0 then Normal(p.expr, false)
    else Normalize(p.expr, fuel - 1)
  }

  /** A rule that fires keeps exactly the columns the call mentions. */
  lemma RulesKeepRefs(op: Op, args: seq<Expr>, lo: int, hi: int)
    requires WellFormed(Call(op, args))
    requires ApplyRules(op, args).Some?
    ensures RefsWithin(ApplyRules(op, args).value, lo, hi) <==> RefsWithin(Call(op, args), lo, hi)
  {
    if TrigFractionRewrite(op, args).Some? {
      FractionKeepsRefs(op, args, lo, hi);
    } else {
      SplitKeepsRefs(op, args, lo, hi);
    }
  }

  /** A pass keeps exactly the columns the expression mentions. */
  lemma {:induction false} PassKeepsRefs(e: Expr, lo: int, hi: int)
    requires WellFormed(e)
    ensures RefsWithin(RewritePass(e).expr, lo, hi) <==> RefsWithin(e, lo, hi)
    decreases e, 1
  {
    match e
    case Call(op, args) =>
      WellFormedCall(op, args);
      PassesKeepRefs(args, lo, hi);
      var kids := RewriteAll(args);
      assert RefsWithin(Call(op, kids.exprs), lo, hi) <==> RefsWithin(e, lo, hi);
      if ApplyRules(op, kids.exprs).Some? {
        RulesKeepRefs(op, kids.exprs, lo, hi);
      }
    case _ =>
  }

  lemma {:induction false} PassesKeepRefs(args: seq<Expr>, lo: int, hi: int)
    requires forall i :: 0 <= i < |args| ==> WellFormed(args[i])
    ensures var r := RewriteAll(args).exprs;
      forall i :: 0 <= i < |args| ==> (RefsWithin(r[i], lo, hi) <==> RefsWithin(args[i], lo, hi))
    decreases args, 0
  {
    if |args| > 0 {
      PassKeepsRefs(args[0], lo, hi);
      PassesKeepRefs(args[1..], lo, hi);
      var r := RewriteAll(args).exprs;
      assert r == [RewritePass(args[0]).expr] + RewriteAll(args[1..]).exprs;
      assert forall i :: 1 <= i < |args| ==> args[i] == args[1..][i - 1] && r[i] == RewriteAll(args[1..]).exprs[i - 1];
    }
  }

  /** Normalising keeps exactly the columns the condition mentions. */
  lemma {:induction false} NormalizeKeepsRefs(e: Expr, fuel: nat, lo: int, hi: int)
    requires WellFormed(e)
    ensures RefsWithin(Normalize(e, fuel).expr, lo, hi) <==> RefsWithin(e, lo, hi)
    decreases fuel
  {
    PassKeepsRefs(e, lo, hi);
    QuietPassIsFixedPoint(e);
    if RewritePass(e).fired && fuel > 0 {
      NormalizeKeepsRefs(RewritePass(e).expr, fuel - 1, lo, hi);
    }
  }
}
