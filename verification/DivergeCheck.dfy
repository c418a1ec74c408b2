/** The barrier-divergence analysis of internal/lower/diverge.go: which variables may differ between
    two threads of a block, which loops threads may leave at different times, and the walk that
    refuses a collective operation not every thread arrives at. */
module DivergeCheck {
  import opened DivergeLang

  /** barrierUse, with whether a diagnostic was appended anywhere on the way. */
  datatype Use = Use(barrier: bool, warp: bool, leaves: bool, reported: bool)

  const NOTHING := Use(false, false, false, false)

  // Varying expressions and early exits

  predicate Varies(e: Expr, V: set<string>) {
    match e
    case Lit(_) => false
    case Var(x) => x in V
    case Uniform(_) => false
    case PerThread(_) => true
    case Un(_, a) => Varies(a, V)
    case Bin(_, a, b) => Varies(a, V) || Varies(b, V)
    case AndAlso(a, b) => Varies(a, V) || Varies(b, V)
    case OrElse(a, b) => Varies(a, V) || Varies(b, V)
    case Load(_, i) => Varies(i, V)
    case Warp(_, _) => true
    case Call(_, _) => true
  }

  /** The walk of exitsVarying: may some threads leave through s and not others?  A nested for is
      entered with its condition's verdict alone and a nested range with none. */
  predicate Exits(s: Stmt, div: bool, nested: bool, V: set<string>) {
    match s
    case Break(l) => div && (l != "" || !nested)
    case Continue(l) => div && (l != "" || !nested)
    case Return(_) => div
    case Seq(a, b) => Exits(a, div, nested, V) || Exits(b, div, nested, V)
    case If(_, c, a, b) => Exits(a, div || Varies(c, V), nested, V) || Exits(b, div || Varies(c, V), nested, V)
    case For(_, _, c, _, b) => Exits(b, div || Varies(c, V), true, V)
    case Range(_, _, _, b) => Exits(b, div, true, V)
    case _ => false
  }

  predicate ForVaries(c: Expr, body: Stmt, V: set<string>) {
    Varies(c, V) || Exits(body, false, false, V)
  }

  /** mark: the variables s may leave holding different values, added to V in source order. */
  function Mark(s: Stmt, div: bool, V: set<string>): (r: set<string>)
    ensures V <= r
  {
    match s
    case Assign(x, e) => if div || Varies(e, V) then V + {x} else V
    case IncDec(x, _) => if div then V + {x} else V
    case Seq(a, b) => Mark(b, div, Mark(a, div, V))
    case If(i, c, a, b) =>
      var V1 := Mark(i, div, V);
      var inner := div || Varies(c, V1);
      Mark(b, inner, Mark(a, inner, V1))
    case For(_, i, c, p, b) =>
      var V1 := Mark(i, div, V);
      var inner := div || ForVaries(c, b, V1);
      Mark(b, inner, Mark(p, inner, V1))
    case Range(_, k, e, b) =>
      var inner := div || ForVaries(e, b, V);
      Mark(b, inner, if inner then V + {k} else V)
    case _ => V
  }

  function Assigned(s: Stmt): set<string> {
    match s
    case Assign(x, _) => {x}
    case IncDec(x, _) => {x}
    case Seq(a, b) => Assigned(a) + Assigned(b)
    case If(i, _, a, b) => Assigned(i) + Assigned(a) + Assigned(b)
    case For(_, i, _, p, b) => Assigned(i) + Assigned(p) + Assigned(b)
    case Range(_, k, _, b) => {k} + Assigned(b)
    case _ => {}
  }

  lemma {:induction false} MarksOnlyAssigned(s: Stmt, div: bool, V: set<string>)
    ensures Mark(s, div, V) <= V + Assigned(s)
  {
    match s
    case Seq(a, b) => MarksOnlyAssigned(a, div, V); MarksOnlyAssigned(b, div, Mark(a, div, V));
    case If(i, c, a, b) =>
      var V1 := Mark(i, div, V);
      var inner := div || Varies(c, V1);
      MarksOnlyAssigned(i, div, V); MarksOnlyAssigned(a, inner, V1); MarksOnlyAssigned(b, inner, Mark(a, inner, V1));
    case For(_, i, c, p, b) =>
      var V1 := Mark(i, div, V);
      var inner := div || ForVaries(c, b, V1);
      MarksOnlyAssigned(i, div, V); MarksOnlyAssigned(p, inner, V1); MarksOnlyAssigned(b, inner, Mark(p, inner, V1));
    case Range(_, k, e, b) =>
      var inner := div || ForVaries(e, b, V);
      MarksOnlyAssigned(b, inner, if inner then V + {k} else V);
    case _ =>
  }

  /** varyingObjects: marking until a pass adds nothing. */
  function Fixpoint(s: Stmt, V: set<string>): (r: set<string>)
    ensures V <= r && Mark(s, false, r) == r
    decreases Assigned(s) - V
  {
    var V1 := Mark(s, false, V);
    MarksOnlyAssigned(s, false, V);
    if V1 == V then V else
      assert exists x :: x in V1 && x !in V && x in Assigned(s);
      Fixpoint(s, V1)
  }

  // Monotonicity, and leastness of the fixpoint

  lemma {:induction false} VariesMore(e: Expr, V: set<string>, W: set<string>)
    requires V <= W && Varies(e, V)
    ensures Varies(e, W)
  {
    match e
    case Un(_, a) => VariesMore(a, V, W);
    case Bin(_, a, b) => if Varies(a, V) { VariesMore(a, V, W); } else { VariesMore(b, V, W); }
    case AndAlso(a, b) => if Varies(a, V) { VariesMore(a, V, W); } else { VariesMore(b, V, W); }
    case OrElse(a, b) => if Varies(a, V) { VariesMore(a, V, W); } else { VariesMore(b, V, W); }
    case Load(_, i) => VariesMore(i, V, W);
    case _ =>
  }

  lemma {:induction false} ExitsMore(s: Stmt, d: bool, e: bool, nested: bool, V: set<string>, W: set<string>)
    requires V <= W && (d ==> e) && Exits(s, d, nested, V)
    ensures Exits(s, e, nested, W)
  {
    match s
    case Seq(a, b) =>
      if Exits(a, d, nested, V) { ExitsMore(a, d, e, nested, V, W); } else { ExitsMore(b, d, e, nested, V, W); }
    case If(_, c, a, b) =>
      if Varies(c, V) { VariesMore(c, V, W); }
      var d1, e1 := d || Varies(c, V), e || Varies(c, W);
      if Exits(a, d1, nested, V) { ExitsMore(a, d1, e1, nested, V, W); } else { ExitsMore(b, d1, e1, nested, V, W); }
    case For(_, _, c, _, b) =>
      if Varies(c, V) { VariesMore(c, V, W); }
      ExitsMore(b, d || Varies(c, V), e || Varies(c, W), true, V, W);
    case Range(_, _, _, b) => ExitsMore(b, d, e, true, V, W);
    case _ =>
  }

  lemma ForVariesMore(c: Expr, b: Stmt, V: set<string>, W: set<string>)
    requires V <= W && ForVaries(c, b, V)
    ensures ForVaries(c, b, W)
  {
    if Varies(c, V) { VariesMore(c, V, W); } else { ExitsMore(b, false, false, false, V, W); }
  }

  /** One pass is monotone in what is already known to vary. */
  lemma {:induction false} MarkMonotone(s: Stmt, d: bool, e: bool, V: set<string>, W: set<string>)
    requires V <= W && (d ==> e)
    ensures Mark(s, d, V) <= Mark(s, e, W)
  {
    match s
    case Assign(_, x) => if Varies(x, V) { VariesMore(x, V, W); }
    case Seq(a, b) => MarkMonotone(a, d, e, V, W); MarkMonotone(b, d, e, Mark(a, d, V), Mark(a, e, W));
    case If(i, c, a, b) =>
      MarkMonotone(i, d, e, V, W);
      var V1, W1 := Mark(i, d, V), Mark(i, e, W);
      if Varies(c, V1) { VariesMore(c, V1, W1); }
      var d1, e1 := d || Varies(c, V1), e || Varies(c, W1);
      MarkMonotone(a, d1, e1, V1, W1);
      MarkMonotone(b, d1, e1, Mark(a, d1, V1), Mark(a, e1, W1));
    case For(_, i, c, p, b) =>
      MarkMonotone(i, d, e, V, W);
      var V1, W1 := Mark(i, d, V), Mark(i, e, W);
      if ForVaries(c, b, V1) { ForVariesMore(c, b, V1, W1); }
      var d1, e1 := d || ForVaries(c, b, V1), e || ForVaries(c, b, W1);
      MarkMonotone(p, d1, e1, V1, W1);
      MarkMonotone(b, d1, e1, Mark(p, d1, V1), Mark(p, e1, W1));
    case Range(_, k, x, b) =>
      if ForVaries(x, b, V) { ForVariesMore(x, b, V, W); }
      var d1, e1 := d || ForVaries(x, b, V), e || ForVaries(x, b, W);
      MarkMonotone(b, d1, e1, if d1 then V + {k} else V, if e1 then W + {k} else W);
    case _ =>
  }

  /** The set the analysis computes is the least one that holds V and is closed under marking. */
  lemma {:induction false} FixpointIsLeast(s: Stmt, V: set<string>, W: set<string>)
    requires V <= W && Mark(s, false, W) == W
    ensures Fixpoint(s, V) <= W
    decreases Assigned(s) - V
  {
    var V1 := Mark(s, false, V);
    MarkMonotone(s, false, false, V, W);
    if V1 != V {
      MarksOnlyAssigned(s, false, V);
      assert exists x :: x in V1 && x !in V && x in Assigned(s);
      FixpointIsLeast(s, V1, W);
    }
  }

  // The checking walk

  /** report: something the whole block has to reach stands where `at` says not all of it does. */
  function Report(at: bool, u: Use): Use { u.(reported := u.reported || at || u.leaves) }

  function CheckExpr(S: seq<Use>, e: Expr, at: bool, u: Use): Use
    decreases e, 0
  {
    match e
    case Un(_, a) => CheckExpr(S, a, at, u)
    case Bin(_, a, b) => CheckExpr(S, b, at, CheckExpr(S, a, at, u))
    case AndAlso(a, b) => CheckExpr(S, b, at, CheckExpr(S, a, at, u))
    case OrElse(a, b) => CheckExpr(S, b, at, CheckExpr(S, a, at, u))
    case Load(_, i) => CheckExpr(S, i, at, u)
    case Warp(_, a) => CheckExpr(S, a, at, Report(at, u.(warp := true)))
    case Call(f, args) => CheckExprs(S, args, at, if f < |S| then CheckCall(S[f], at, u) else u)
    case _ => u
  }

  function CheckExprs(S: seq<Use>, es: seq<Expr>, at: bool, u: Use): Use
    decreases es, 0
  {
    if es == [] then u else CheckExprs(S, es[1..], at, CheckExpr(S, es[0], at, u))
  }

  /** checkCall on a device function whose summary is c; its own diagnostics were appended too. */
  function CheckCall(c: Use, at: bool, u: Use): Use {
    var u1 := u.(reported := u.reported || c.reported);
    if c.barrier then Report(at, u1.(barrier := true))
    else if c.warp then Report(at, u1.(warp := true))
    else u1
  }

  function Check(S: seq<Use>, V: set<string>, s: Stmt, at: bool, u: Use): Use {
    match s
    case Skip => u
    case Barrier => Report(at, u.(barrier := true))
    case ExprStmt(e) => CheckExpr(S, e, at, u)
    case Assign(_, e) => CheckExpr(S, e, at, u)
    case IncDec(_, _) => u
    case Seq(a, b) => Check(S, V, b, at, Check(S, V, a, at, u))
    case If(i, c, a, b) =>
      var u1 := CheckExpr(S, c, at, Check(S, V, i, at, u));
      var inner := at || Varies(c, V);
      Check(S, V, b, inner, Check(S, V, a, inner, u1))
    case For(_, i, c, p, b) =>
      var u1 := Check(S, V, i, at, u);
      var inner := at || ForVaries(c, b, V);
      Check(S, V, b, inner, Check(S, V, p, inner, CheckExpr(S, c, inner, u1)))
    case Range(_, _, e, b) =>
      Check(S, V, b, at || ForVaries(e, b, V), CheckExpr(S, e, at, u))
    case Break(_) => u
    case Continue(_) => u
    case Return(e) =>
      var u1 := CheckExpr(S, e, at, u);
      if at then u1.(leaves := true) else u1
  }

  function SetOf(xs: seq<string>): set<string> { set x | x in xs }

  /** The summary of a device function, whose scalar parameters are assumed to vary. */
  function Summary(S: seq<Use>, f: Func): Use {
    Check(S, Fixpoint(f.body, SetOf(f.params)), f.body, false, NOTHING)
  }

  /** The memo table after every device function has been summarised, callees first. */
  function Table(P: seq<Func>): (S: seq<Use>)
    ensures |S| == |P|
  {
    if P == [] then [] else
      var S := Table(P[..|P| - 1]);
      S + [Summary(S, P[|P| - 1])]
  }

  /** checkDivergence: the kernel's own scalar parameters are the launch's, so none varies. */
  function CheckKernel(P: seq<Func>, body: Stmt): Use {
    Check(Table(P), Fixpoint(body, {}), body, false, NOTHING)
  }

  // The walk in the form the emitter runs it: one object whose varying set, record of what has been
  // found and memo table are updated in place.

  class DivergeWalk {
    var vary: set<string>
    var use: Use
    var uses: map<nat, Use>

    constructor ()
      ensures vary == {} && use == NOTHING && uses == map[]
    {
      vary, use, uses := {}, NOTHING, map[];
    }

    method MarkStmt(s: Stmt, div: bool)
      modifies this`vary
      ensures vary == Mark(s, div, old(vary))
    {
      match s {
        case Assign(x, e) => if div || Varies(e, vary) { vary := vary + {x}; }
        case IncDec(x, _) => if div { vary := vary + {x}; }
        case Seq(a, b) =>
          MarkStmt(a, div);
          MarkStmt(b, div);
        case If(i, c, a, b) =>
          MarkStmt(i, div);
          var inner := div || Varies(c, vary);
          MarkStmt(a, inner);
          MarkStmt(b, inner);
        case For(_, i, c, p, b) =>
          MarkStmt(i, div);
          var inner := div || ForVaries(c, b, vary);
          MarkStmt(p, inner);
          MarkStmt(b, inner);
        case Range(_, k, e, b) =>
          var inner := div || ForVaries(e, b, vary);
          if inner { vary := vary + {k}; }
          MarkStmt(b, inner);
        case _ =>
      }
    }

    /** varyingObjects: pass after pass until the set stops growing. */
    method VaryingObjects(body: Stmt, params: seq<string>, entry: bool)
      modifies this`vary
      ensures vary == Fixpoint(body, if entry then {} else SetOf(params))
    {
      vary := if entry then {} else SetOf(params);
      ghost var start := vary;
      var n := -1;
      while n != |vary|
        invariant Fixpoint(body, vary) == Fixpoint(body, start)
        invariant n == |vary| ==> Mark(body, false, vary) == vary
        decreases Assigned(body) - vary, n != |vary|
      {
        n := |vary|;
        ghost var before := vary;
        MarkStmt(body, false);
        MarksOnlyAssigned(body, false, before);
        if |vary| == |before| {
          SameSize(before, vary);
        } else {
          assert exists x :: x in vary && x !in before && x in Assigned(body);
        }
      }
    }

    /** The memo holds only what a fresh analysis of the function would find. */
    ghost predicate Memo(P: seq<Func>)
      reads this
    {
      forall f :: f in uses ==> f < |P| && uses[f] == Table(P)[f]
    }

    method WalkExpr(P: seq<Func>, k: nat, e: Expr, at: bool)
      requires k <= |P| && Program(P) && FormedE(P, k, e) && Memo(P)
      modifies this
      ensures Memo(P) && vary == old(vary) && use == CheckExpr(Table(P), e, at, old(use))
      decreases k, e, 0
    {
      match e {
        case Un(_, a) => WalkExpr(P, k, a, at);
        case Bin(_, a, b) => WalkExpr(P, k, a, at); WalkExpr(P, k, b, at);
        case AndAlso(a, b) => WalkExpr(P, k, a, at); WalkExpr(P, k, b, at);
        case OrElse(a, b) => WalkExpr(P, k, a, at); WalkExpr(P, k, b, at);
        case Load(_, i) => WalkExpr(P, k, i, at);
        case Warp(_, a) =>
          use := use.(warp := true);
          Found(at);
          WalkExpr(P, k, a, at);
        case Call(f, args) =>
          var c := BarrierUse(P, f);
          use := use.(reported := use.reported || c.reported);
          if c.barrier {
            use := use.(barrier := true);
            Found(at);
          } else if c.warp {
            use := use.(warp := true);
            Found(at);
          }
          WalkExprs(P, k, args, at);
        case _ =>
      }
    }

    method WalkExprs(P: seq<Func>, k: nat, es: seq<Expr>, at: bool)
      requires k <= |P| && Program(P) && FormedEs(P, k, es) && Memo(P)
      modifies this
      ensures Memo(P) && vary == old(vary) && use == CheckExprs(Table(P), es, at, old(use))
      decreases k, es, 0
    {
      if es != [] {
        WalkExpr(P, k, es[0], at);
        WalkExprs(P, k, es[1..], at);
      }
    }

    method Found(at: bool)
      modifies this`use
      ensures use == Report(at, old(use))
    {
      if at || use.leaves { use := use.(reported := true); }
    }

    method Walk(P: seq<Func>, k: nat, s: Stmt, at: bool)
      requires k <= |P| && Program(P) && Formed(P, k, s) && Memo(P)
      modifies this
      ensures Memo(P) && vary == old(vary) && use == Check(Table(P), vary, s, at, old(use))
      decreases k, s, 1
    {
      match s {
        case Barrier =>
          use := use.(barrier := true);
          Found(at);
        case ExprStmt(e) => WalkExpr(P, k, e, at);
        case Assign(_, e) => WalkExpr(P, k, e, at);
        case Seq(a, b) =>
          Walk(P, k, a, at);
          Walk(P, k, b, at);
        case If(i, c, a, b) =>
          Walk(P, k, i, at);
          WalkExpr(P, k, c, at);
          var inner := at || Varies(c, vary);
          Walk(P, k, a, inner);
          Walk(P, k, b, inner);
        case For(_, i, c, p, b) =>
          Walk(P, k, i, at);
          var inner := at || ForVaries(c, b, vary);
          WalkExpr(P, k, c, inner);
          Walk(P, k, p, inner);
          Walk(P, k, b, inner);
        case Range(_, _, e, b) =>
          WalkExpr(P, k, e, at);
          Walk(P, k, b, at || ForVaries(e, b, vary));
        case Return(e) =>
          WalkExpr(P, k, e, at);
          if at { use := use.(leaves := true); }
        case _ =>
      }
    }

    /** barrierUse of a device function: the memo, or a walk of its own. */
    method BarrierUse(P: seq<Func>, f: nat) returns (u: Use)
      requires f < |P| && Program(P) && Memo(P)
      modifies this
      ensures Memo(P) && vary == old(vary) && use == old(use) && u == Table(P)[f]
      decreases f
    {
      if f in uses { return uses[f]; }
      var savedVary, savedUse := vary, use;
      VaryingObjects(P[f].body, P[f].params, false);
      use := NOTHING;
      Walk(P, f, P[f].body, false);
      u := use;
      TableIsSummary(P, f);
      vary, use := savedVary, savedUse;
      uses := uses[f := u];
    }

    /** checkDivergence */
    method CheckDivergence(P: seq<Func>, params: seq<string>, body: Stmt) returns (refused: bool)
      requires Program(P) && Formed(P, |P|, body) && Memo(P)
      modifies this
      ensures Memo(P) && refused == CheckKernel(P, body).reported
    {
      VaryingObjects(body, params, true);
      use := NOTHING;
      Walk(P, |P|, body, false);
      refused := use.reported;
    }
  }

  lemma SameSize(A: set<string>, B: set<string>)
    requires A <= B && |A| == |B|
    ensures A == B
  {
    assert |B - A| == |B| - |A|;
  }

  // A summary is the same whichever of the tables that hold its callees it is computed from.

  lemma {:induction false} CheckExprCut(P: seq<Func>, k: nat, S: seq<Use>, e: Expr, at: bool, u: Use)
    requires k <= |S| && FormedE(P, k, e)
    ensures CheckExpr(S[..k], e, at, u) == CheckExpr(S, e, at, u)
    decreases e, 0
  {
    match e
    case Un(_, a) => CheckExprCut(P, k, S, a, at, u);
    case Bin(_, a, b) => CheckExprCut(P, k, S, a, at, u); CheckExprCut(P, k, S, b, at, CheckExpr(S, a, at, u));
    case AndAlso(a, b) => CheckExprCut(P, k, S, a, at, u); CheckExprCut(P, k, S, b, at, CheckExpr(S, a, at, u));
    case OrElse(a, b) => CheckExprCut(P, k, S, a, at, u); CheckExprCut(P, k, S, b, at, CheckExpr(S, a, at, u));
    case Load(_, i) => CheckExprCut(P, k, S, i, at, u);
    case Warp(_, a) => CheckExprCut(P, k, S, a, at, Report(at, u.(warp := true)));
    case Call(f, args) => CheckExprsCut(P, k, S, args, at, CheckCall(S[f], at, u));
    case _ =>
  }

  lemma {:induction false} CheckExprsCut(P: seq<Func>, k: nat, S: seq<Use>, es: seq<Expr>, at: bool, u: Use)
    requires k <= |S| && FormedEs(P, k, es)
    ensures CheckExprs(S[..k], es, at, u) == CheckExprs(S, es, at, u)
    decreases es, 0
  {
    if es != [] {
      CheckExprCut(P, k, S, es[0], at, u);
      CheckExprsCut(P, k, S, es[1..], at, CheckExpr(S, es[0], at, u));
    }
  }

  lemma {:induction false} CheckCut(P: seq<Func>, k: nat, S: seq<Use>, V: set<string>, s: Stmt, at: bool, u: Use)
    requires k <= |S| && Formed(P, k, s)
    ensures Check(S[..k], V, s, at, u) == Check(S, V, s, at, u)
  {
    match s
    case ExprStmt(e) => CheckExprCut(P, k, S, e, at, u);
    case Assign(_, e) => CheckExprCut(P, k, S, e, at, u);
    case Seq(a, b) => CheckCut(P, k, S, V, a, at, u); CheckCut(P, k, S, V, b, at, Check(S, V, a, at, u));
    case If(i, c, a, b) =>
      CheckCut(P, k, S, V, i, at, u);
      CheckExprCut(P, k, S, c, at, Check(S, V, i, at, u));
      var u1 := CheckExpr(S, c, at, Check(S, V, i, at, u));
      var inner := at || Varies(c, V);
      CheckCut(P, k, S, V, a, inner, u1);
      CheckCut(P, k, S, V, b, inner, Check(S, V, a, inner, u1));
    case For(_, i, c, p, b) =>
      CheckCut(P, k, S, V, i, at, u);
      var u1 := Check(S, V, i, at, u);
      var inner := at || ForVaries(c, b, V);
      CheckExprCut(P, k, S, c, inner, u1);
      CheckCut(P, k, S, V, p, inner, CheckExpr(S, c, inner, u1));
      CheckCut(P, k, S, V, b, inner, Check(S, V, p, inner, CheckExpr(S, c, inner, u1)));
    case Range(_, _, e, b) =>
      CheckExprCut(P, k, S, e, at, u);
      CheckCut(P, k, S, V, b, at || ForVaries(e, b, V), CheckExpr(S, e, at, u));
    case Return(e) => CheckExprCut(P, k, S, e, at, u);
    case _ =>
  }

  lemma {:induction false} TablePrefix(P: seq<Func>, k: nat)
    requires k <= |P|
    ensures Table(P)[..k] == Table(P[..k])
    decreases |P|
  {
    if k < |P| {
      var P1 := P[..|P| - 1];
      TablePrefix(P1, k);
      assert P1[..k] == P[..k];
      assert Table(P)[..k] == Table(P1)[..k];
    } else {
      assert P[..k] == P && Table(P)[..k] == Table(P);
    }
  }

  /** The finished table holds, for every function, its summary against the finished table. */
  lemma TableIsSummary(P: seq<Func>, k: nat)
    requires Program(P) && k < |P|
    ensures Table(P)[k] == Summary(Table(P), P[k])
  {
    var S, f := Table(P), P[k];
    TablePrefix(P, k + 1);
    TablePrefix(P, k);
    assert P[..k + 1][..k] == P[..k];
    assert S[k] == Table(P[..k + 1])[k];
    CheckCut(P, k, S, Fixpoint(f.body, SetOf(f.params)), f.body, false, NOTHING);
  }
}
