/**
  The trigonometric rewriting of the rule: the marker calls that group
  `sin`/`cos` of a sum or difference, their restoration (`restoreTrig`), their
  angle-sum/difference expansion (the body of `handleSpecial`), and the two
  local rewrite rules `TrigFractionRewriteRule` and `SinCosPlusMinusRewriteRule`.
  Only the syntactic shape of the identities is modelled, not their value.
 */
module Trig {
  import opened Wrappers
  import opened Exprs

  /** The trig function a marker stands for: `sin` for SIN_PLUS/SIN_MINUS, `cos` otherwise. */
  function MarkerTrig(m: Op): (f: Op)
    requires m.IsMarker()
    ensures f.IsSinCos()
  {
    if m.SinPlus? || m.SinMinus? then Sin else Cos
  }

  /** The sign a marker stands for: `+` for SIN_PLUS/COS_PLUS, `-` otherwise. */
  function MarkerSign(m: Op): (g: Op)
    requires m.IsMarker()
    ensures g.IsPlusMinus()
  {
    if m.SinPlus? || m.CosPlus? then Plus else Minus
  }

  /** The marker that groups `f(a g b)`, for `f` in {sin, cos} and `g` in {+, -}. */
  function MarkerFor(f: Op, g: Op): (m: Op)
    requires f.IsSinCos() && g.IsPlusMinus()
    ensures m.IsMarker() && MarkerTrig(m) == f && MarkerSign(m) == g
  {
    match f
    case Sin => if g == Plus then SinPlus else SinMinus
    case Cos => if g == Plus then CosPlus else CosMinus
  }

  /** Every marker is named by its trig function and sign. */
  lemma MarkerForTrigSign(m: Op)
    requires m.IsMarker()
    ensures MarkerFor(MarkerTrig(m), MarkerSign(m)) == m
  {
  }

  /** `f(a g b)` for the marker's `f` and `g`. */
  function Restored(m: Op, a: Expr, b: Expr): Expr
    requires m.IsMarker()
  {
    Call(MarkerTrig(m), [Call(MarkerSign(m), [a, b])])
  }

  /**
    `restoreTrig`: turns a marker call back into `sin`/`cos` of `+`/`-` over
    its first two operands. `None` where the rule throws: an operator that is
    not a marker (the "Unknown special function" error), or a missing operand.
   */
  function RestoreTrig(op: Op, args: seq<Expr>): (r: Option<Expr>)
    ensures r.Some? <==> op.IsMarker() && |args| >= 2
    ensures r.Some? ==> r.value.Call? && !r.value.op.IsMarker() && |r.value.args| == 1
  {
    if op.IsMarker() && |args| >= 2 then Some(Restored(op, args[0], args[1])) else None
  }

  /** `a(x) * b(y)`. */
  function Product(f: Op, x: Expr, g: Op, y: Expr): Expr {
    Call(Times, [Call(f, [x]), Call(g, [y])])
  }

  /** The other one of `sin` and `cos`. */
  function CoFunction(f: Op): (r: Op)
    requires f.IsSinCos()
    ensures r.IsSinCos() && r != f
  {
    if f == Sin then Cos else Sin
  }

  /** The other one of `+` and `-`. */
  function Flip(g: Op): (r: Op)
    requires g.IsPlusMinus()
    ensures r.IsPlusMinus() && r != g
  {
    if g == Plus then Minus else Plus
  }

  /**
    The expansion `handleSpecial` builds for a marker whose operands come from
    opposite sides. The closed form in the ensures is the textbook identity
    `f(a ± b) = f(a)·cos(b) ± cof(a)·sin(b)` for `sin`, with the sign flipped
    for `cos`: sin(a+b) = sin a cos b + cos a sin b, cos(a+b) = cos a cos b -
    sin a sin b, and likewise for the differences.
   */
  function Expand(m: Op, a: Expr, b: Expr): (r: Expr)
    requires m.IsMarker()
    ensures var f := MarkerTrig(m);
            var sign := if f == Sin then MarkerSign(m) else Flip(MarkerSign(m));
            r == Call(sign, [Product(f, a, Cos, b), Product(CoFunction(f), a, Sin, b)])
  {
    match m
    case SinPlus => Call(Plus, [Product(Sin, a, Cos, b), Product(Cos, a, Sin, b)])
    case SinMinus => Call(Minus, [Product(Sin, a, Cos, b), Product(Cos, a, Sin, b)])
    case CosPlus => Call(Minus, [Product(Cos, a, Cos, b), Product(Sin, a, Sin, b)])
    case CosMinus => Call(Plus, [Product(Cos, a, Cos, b), Product(Sin, a, Sin, b)])
  }

  /** `f(x) * g(y)` inherits the column bounds, well-formedness and marker-freedom of `x` and `y`. */
  lemma ProductKeeps(f: Op, x: Expr, g: Op, y: Expr, lo: int, hi: int)
    requires !f.IsMarker() && !g.IsMarker() && ArityOk(f, 1) && ArityOk(g, 1)
    ensures RefsWithin(x, lo, hi) && RefsWithin(y, lo, hi) ==> RefsWithin(Product(f, x, g, y), lo, hi)
    ensures NoMarkers(x) && NoMarkers(y) ==> NoMarkers(Product(f, x, g, y))
    ensures WellFormed(x) && WellFormed(y) ==> WellFormed(Product(f, x, g, y))
  {
    var fx := Call(f, [x]);
    var gy := Call(g, [y]);
    assert RefsWithin(x, lo, hi) ==> RefsWithin(fx, lo, hi);
    assert RefsWithin(y, lo, hi) ==> RefsWithin(gy, lo, hi);
    assert NoMarkers(x) ==> NoMarkers(fx);
    assert NoMarkers(y) ==> NoMarkers(gy);
    assert WellFormed(x) ==> WellFormed(fx);
    assert WellFormed(y) ==> WellFormed(gy);
  }

  /**
    Both forms `handleSpecial` may hand back for re-pushing mention only the
    columns of the marker's operands, are free of markers when the operands
    are, and are well formed when the operands are.
   */
  lemma SpecialFormsKeep(m: Op, a: Expr, b: Expr, lo: int, hi: int)
    requires m.IsMarker()
    ensures RefsWithin(a, lo, hi) && RefsWithin(b, lo, hi) ==>
      RefsWithin(Restored(m, a, b), lo, hi) && RefsWithin(Expand(m, a, b), lo, hi)
    ensures NoMarkers(a) && NoMarkers(b) ==> NoMarkers(Restored(m, a, b)) && NoMarkers(Expand(m, a, b))
    ensures WellFormed(a) && WellFormed(b) ==> WellFormed(Restored(m, a, b)) && WellFormed(Expand(m, a, b))
  {
    if RefsWithin(a, lo, hi) && RefsWithin(b, lo, hi) {
      SpecialFormsKeepRefs(m, a, b, lo, hi);
    }
    if NoMarkers(a) && NoMarkers(b) {
      SpecialFormsKeepNoMarkers(m, a, b);
    }
    if WellFormed(a) && WellFormed(b) {
      SpecialFormsKeepWellFormed(m, a, b);
    }
  }

  lemma SpecialFormsKeepRefs(m: Op, a: Expr, b: Expr, lo: int, hi: int)
    requires m.IsMarker()
    requires RefsWithin(a, lo, hi) && RefsWithin(b, lo, hi)
    ensures RefsWithin(Restored(m, a, b), lo, hi) && RefsWithin(Expand(m, a, b), lo, hi)
  {
    var f := MarkerTrig(m);
    ProductKeeps(f, a, Cos, b, lo, hi);
    ProductKeeps(CoFunction(f), a, Sin, b, lo, hi);
    var inner := Call(MarkerSign(m), [a, b]);
    assert RefsWithin(inner, lo, hi);
  }

  lemma SpecialFormsKeepNoMarkers(m: Op, a: Expr, b: Expr)
    requires m.IsMarker()
    requires NoMarkers(a) && NoMarkers(b)
    ensures NoMarkers(Restored(m, a, b)) && NoMarkers(Expand(m, a, b))
  {
    var f := MarkerTrig(m);
    ProductKeeps(f, a, Cos, b, 0, 0);
    ProductKeeps(CoFunction(f), a, Sin, b, 0, 0);
    var inner := Call(MarkerSign(m), [a, b]);
    assert NoMarkers(inner);
  }

  lemma SpecialFormsKeepWellFormed(m: Op, a: Expr, b: Expr)
    requires m.IsMarker()
    requires WellFormed(a) && WellFormed(b)
    ensures WellFormed(Restored(m, a, b)) && WellFormed(Expand(m, a, b))
  {
    var f := MarkerTrig(m);
    ProductKeeps(f, a, Cos, b, 0, 0);
    ProductKeeps(CoFunction(f), a, Sin, b, 0, 0);
    var inner := Call(MarkerSign(m), [a, b]);
    assert WellFormed(inner);
  }

  /**
    Both forms `handleSpecial` may hand back for re-pushing weigh less than the
    marker call itself, although each repeats the marker's original operands.
   */
  lemma SpecialFormsAreLighter(m: Op, a: Expr, b: Expr)
    requires m.IsMarker()
    ensures Weight(Restored(m, a, b)) < Weight(Call(m, [a, b]))
    ensures Weight(Expand(m, a, b)) < Weight(Call(m, [a, b]))
  {
    RestoredIsLighter(m, a, b);
    ExpansionIsLighter(m, a, b);
  }

  lemma RestoredIsLighter(m: Op, a: Expr, b: Expr)
    requires m.IsMarker()
    ensures Weight(Restored(m, a, b)) < Weight(Call(m, [a, b]))
  {
    WeightOfPair(a, b);
    WeightOfSingle(Call(MarkerSign(m), [a, b]));
  }

  lemma ExpansionIsLighter(m: Op, a: Expr, b: Expr)
    requires m.IsMarker()
    ensures Weight(Expand(m, a, b)) < Weight(Call(m, [a, b]))
  {
    WeightOfSingle(a);
    WeightOfSingle(b);
    var f := MarkerTrig(m);
    WeightOfPair(Call(f, [a]), Call(Cos, [b]));
    WeightOfPair(Call(CoFunction(f), [a]), Call(Sin, [b]));
    WeightOfPair(Product(f, a, Cos, b), Product(CoFunction(f), a, Sin, b));
  }

  /**
    `TrigFractionRewriteRule.rewrite`: `trig((x ± y) / c)` becomes
    `trig(x/c ± y/c)` when `trig` is sin, cos or tan, `c` is constant and the
    dividend is a two-operand `+`/`-` call; any other shape gives `None` (the
    rule's `null`, "no change").
   */
  function TrigFractionRewrite(op: Op, args: seq<Expr>): (r: Option<Expr>)
    requires WellFormed(Call(op, args))
    ensures r.Some? <==>
      && op.IsTrig()
      && args[0].Call? && args[0].op == Divide && |args[0].args| == 2
      && IsConstant(args[0].args[1])
      && args[0].args[0].Call? && args[0].args[0].op.IsPlusMinus()
      && |args[0].args[0].args| == 2
    ensures r.Some? ==> WellFormed(r.value) && r.value.Call? && r.value.op == op
  {
    WellFormedCall(op, args);
    if !op.IsTrig() then None
    else
      match args[0]
      case Call(Divide, dargs) =>
        WellFormedCall(Divide, dargs);
        if !(IsConstant(dargs[1]) && dargs[0].Call?) then None
        else
          var gchild := dargs[0];
          if |gchild.args| != 2 then None
          else if gchild.op.IsPlusMinus() then
            WellFormedCall(gchild.op, gchild.args);
            var c := dargs[1];
            var xc := Call(Divide, [gchild.args[0], c]);
            var yc := Call(Divide, [gchild.args[1], c]);
            assert WellFormed(xc) && WellFormed(yc);
            var sum := Call(gchild.op, [xc, yc]);
            assert WellFormed(sum);
            Some(Call(op, [sum]))
          else None
      case _ => None
  }

  /**
    What the fraction rule builds: for every trig function, sign, dividend
    operands `x`, `y` and constant `c`, `trig((x ± y) / c)` becomes
    `trig(x/c ± y/c)`, the division copied onto both terms.
   */
  lemma FractionSplitsDivision(f: Op, g: Op, x: Expr, y: Expr, c: Expr)
    requires f.IsTrig() && g.IsPlusMinus() && IsConstant(c)
    requires WellFormed(x) && WellFormed(y) && WellFormed(c)
    ensures WellFormed(Call(f, [Call(Divide, [Call(g, [x, y]), c])]))
    ensures TrigFractionRewrite(f, [Call(Divide, [Call(g, [x, y]), c])])
      == Some(Call(f, [Call(g, [Call(Divide, [x, c]), Call(Divide, [y, c])])]))
  {
    var sum := Call(g, [x, y]);
    assert WellFormed(sum);
    var d := Call(Divide, [sum, c]);
    assert WellFormed(d);
    assert WellFormed(Call(f, [d]));
  }

  /**
    `SinCosPlusMinusRewriteRule.rewrite`: `sin`/`cos` over a `+`/`-` call
    becomes the matching marker over the child's first two operands; any other
    shape gives `None`. (In the source the SIN case falls through to the COS
    case when the child is a call of another kind; that case also answers
    `null`, so the fall-through changes nothing.)
   */
  function SinCosPlusMinusRewrite(op: Op, args: seq<Expr>): (r: Option<Expr>)
    requires WellFormed(Call(op, args))
    ensures r.Some? <==> op.IsSinCos() && args[0].Call? && args[0].op.IsPlusMinus()
    ensures r.Some? ==> r.value.Call? && r.value.op.IsMarker() && WellFormed(r.value)
  {
    WellFormedCall(op, args);
    match op
    case Sin | Cos =>
      var child := args[0];
      if child.Call? && child.op.IsPlusMinus() then
        WellFormedCall(child.op, child.args);
        Some(Call(MarkerFor(op, child.op), [child.args[0], child.args[1]]))
      else None
    case _ => None
  }

  /** Splitting into a marker and restoring it gives back the original call. */
  lemma SplitThenRestore(op: Op, args: seq<Expr>)
    requires WellFormed(Call(op, args))
    requires SinCosPlusMinusRewrite(op, args).Some?
    ensures var m := SinCosPlusMinusRewrite(op, args).value;
            RestoreTrig(m.op, m.args) == Some(Call(op, args))
  {
    assert args == [args[0]];
    assert args[0] == Call(args[0].op, [args[0].args[0], args[0].args[1]]);
  }

  /** Restoring a well-formed marker call and splitting it again gives back the marker call. */
  lemma RestoreThenSplit(m: Op, args: seq<Expr>)
    requires WellFormed(Call(m, args)) && m.IsMarker()
    ensures RestoreTrig(m, args).Some?
    ensures var e := RestoreTrig(m, args).value;
            WellFormed(e) && SinCosPlusMinusRewrite(e.op, e.args) == Some(Call(m, args))
  {
    assert args == [args[0], args[1]];
    MarkerForTrigSign(m);
    var e := RestoreTrig(m, args).value;
    assert e.args[0].args == args;
  }

  /**
    The fraction rule fires at most once at a node, and on `sin`/`cos` its
    result is exactly what the split rule then turns into a marker: `cos((a +
    b) / c)` ends up as COS_PLUS(a/c, b/c).
   */
  lemma FractionThenSplit(op: Op, args: seq<Expr>)
    requires WellFormed(Call(op, args))
    requires TrigFractionRewrite(op, args).Some?
    ensures var e := TrigFractionRewrite(op, args).value;
            && TrigFractionRewrite(e.op, e.args).None?
            && (op.IsSinCos() ==>
                  var d := args[0];
                  var g := d.args[0];
                  |d.args| == 2 && |g.args| == 2 &&
                  SinCosPlusMinusRewrite(e.op, e.args)
                    == Some(Call(MarkerFor(op, g.op), [Call(Divide, [g.args[0], d.args[1]]),
                                                       Call(Divide, [g.args[1], d.args[1]])])))
  {
    WellFormedCall(op, args);
    WellFormedCall(args[0].op, args[0].args);
  }

  /** The fraction rule keeps exactly the columns its input mentions. */
  lemma FractionKeepsRefs(op: Op, args: seq<Expr>, lo: int, hi: int)
    requires WellFormed(Call(op, args))
    requires TrigFractionRewrite(op, args).Some?
    ensures RefsWithin(TrigFractionRewrite(op, args).value, lo, hi) <==> RefsWithin(Call(op, args), lo, hi)
  {
    WellFormedCall(op, args);
    var d := args[0];
    WellFormedCall(d.op, d.args);
    var g := d.args[0];
    WellFormedCall(g.op, g.args);
    var c := d.args[1];
    var x, y := g.args[0], g.args[1];
    ConstantHasNoRefs(c);
    RefsWithinWiden(c, 0, 0, lo, hi);
    var xc := Call(Divide, [x, c]);
    var yc := Call(Divide, [y, c]);
    var sum := Call(g.op, [xc, yc]);
    assert TrigFractionRewrite(op, args).value == Call(op, [sum]);
    RefsWithinSmallCall(op, sum, sum, lo, hi);
    RefsWithinSmallCall(g.op, xc, yc, lo, hi);
    RefsWithinSmallCall(Divide, x, c, lo, hi);
    RefsWithinSmallCall(Divide, y, c, lo, hi);
    assert g == Call(g.op, [x, y]);
    RefsWithinSmallCall(g.op, x, y, lo, hi);
    assert d == Call(Divide, [g, c]);
    RefsWithinSmallCall(Divide, g, c, lo, hi);
    assert args == [d];
    RefsWithinSmallCall(op, d, d, lo, hi);
  }

  /** The split rule keeps exactly the columns its input mentions. */
  lemma SplitKeepsRefs(op: Op, args: seq<Expr>, lo: int, hi: int)
    requires WellFormed(Call(op, args))
    requires SinCosPlusMinusRewrite(op, args).Some?
    ensures RefsWithin(SinCosPlusMinusRewrite(op, args).value, lo, hi) <==> RefsWithin(Call(op, args), lo, hi)
  {
    WellFormedCall(op, args);
    var child := args[0];
    WellFormedCall(child.op, child.args);
    var x, y := child.args[0], child.args[1];
    assert child == Call(child.op, [x, y]);
    assert args == [child];
    RefsWithinSmallCall(op, child, child, lo, hi);
    RefsWithinSmallCall(child.op, x, y, lo, hi);
    RefsWithinSmallCall(MarkerFor(op, child.op), x, y, lo, hi);
  }
}
