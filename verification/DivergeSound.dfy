/** Soundness of the barrier-divergence check: what it accepts, two threads of a block execute with
    the same sequence of barriers and warp operations. */
module DivergeSound {
  import opened DivergeLang
  import opened DivergeCheck

  // Statements that reach nothing collective

  predicate SilentE(S: seq<Use>, e: Expr)
    decreases e, 0
  {
    match e
    case Un(_, a) => SilentE(S, a)
    case Bin(_, a, b) => SilentE(S, a) && SilentE(S, b)
    case AndAlso(a, b) => SilentE(S, a) && SilentE(S, b)
    case OrElse(a, b) => SilentE(S, a) && SilentE(S, b)
    case Load(_, i) => SilentE(S, i)
    case Warp(_, _) => false
    case Call(f, args) => (f < |S| ==> !S[f].barrier && !S[f].warp) && SilentEs(S, args)
    case _ => true
  }

  predicate SilentEs(S: seq<Use>, es: seq<Expr>)
    decreases es, 0
  {
    es == [] || (SilentE(S, es[0]) && SilentEs(S, es[1..]))
  }

  predicate Silent(S: seq<Use>, s: Stmt) {
    match s
    case Barrier => false
    case ExprStmt(e) => SilentE(S, e)
    case Assign(_, e) => SilentE(S, e)
    case Seq(a, b) => Silent(S, a) && Silent(S, b)
    case If(i, c, a, b) => Silent(S, i) && SilentE(S, c) && Silent(S, a) && Silent(S, b)
    case For(_, i, c, p, b) => Silent(S, i) && SilentE(S, c) && Silent(S, p) && Silent(S, b)
    case Range(_, _, e, b) => SilentE(S, e) && Silent(S, b)
    case Return(e) => SilentE(S, e)
    case _ => true
  }

  /** Nothing the walk has recorded is taken back. */
  predicate Grows(u: Use, v: Use) {
    (u.barrier ==> v.barrier) && (u.warp ==> v.warp) && (u.leaves ==> v.leaves) && (u.reported ==> v.reported)
  }

  lemma {:induction false} CheckExprGrows(S: seq<Use>, e: Expr, at: bool, u: Use)
    ensures Grows(u, CheckExpr(S, e, at, u)) && CheckExpr(S, e, at, u).leaves == u.leaves
    decreases e, 0
  {
    match e
    case Un(_, a) => CheckExprGrows(S, a, at, u);
    case Bin(_, a, b) => CheckExprGrows(S, a, at, u); CheckExprGrows(S, b, at, CheckExpr(S, a, at, u));
    case AndAlso(a, b) => CheckExprGrows(S, a, at, u); CheckExprGrows(S, b, at, CheckExpr(S, a, at, u));
    case OrElse(a, b) => CheckExprGrows(S, a, at, u); CheckExprGrows(S, b, at, CheckExpr(S, a, at, u));
    case Load(_, i) => CheckExprGrows(S, i, at, u);
    case Warp(_, a) => CheckExprGrows(S, a, at, Report(at, u.(warp := true)));
    case Call(f, args) =>
      if f < |S| { CallGrows(S[f], at, u); }
      CheckExprsGrows(S, args, at, if f < |S| then CheckCall(S[f], at, u) else u);
    case _ =>
  }

  lemma CallGrows(c: Use, at: bool, u: Use)
    ensures Grows(u, CheckCall(c, at, u)) && CheckCall(c, at, u).leaves == u.leaves
  {
  }

  lemma {:induction false} CheckExprsGrows(S: seq<Use>, es: seq<Expr>, at: bool, u: Use)
    ensures Grows(u, CheckExprs(S, es, at, u)) && CheckExprs(S, es, at, u).leaves == u.leaves
    decreases es, 0
  {
    if es != [] {
      CheckExprGrows(S, es[0], at, u);
      CheckExprsGrows(S, es[1..], at, CheckExpr(S, es[0], at, u));
    }
  }

  lemma {:induction false} CheckGrows(S: seq<Use>, V: set<string>, s: Stmt, at: bool, u: Use)
    ensures Grows(u, Check(S, V, s, at, u))
  {
    match s
    case ExprStmt(e) => CheckExprGrows(S, e, at, u);
    case Assign(_, e) => CheckExprGrows(S, e, at, u);
    case Return(e) => CheckExprGrows(S, e, at, u);
    case Seq(a, b) => CheckGrows(S, V, a, at, u); CheckGrows(S, V, b, at, Check(S, V, a, at, u));
    case If(i, c, a, b) =>
      var u0 := Check(S, V, i, at, u);
      var u1 := CheckExpr(S, c, at, u0);
      var inner := at || Varies(c, V);
      CheckGrows(S, V, i, at, u); CheckExprGrows(S, c, at, u0);
      CheckGrows(S, V, a, inner, u1); CheckGrows(S, V, b, inner, Check(S, V, a, inner, u1));
    case For(_, i, c, p, b) =>
      var u0 := Check(S, V, i, at, u);
      var inner := at || ForVaries(c, b, V);
      var u1 := CheckExpr(S, c, inner, u0);
      CheckGrows(S, V, i, at, u); CheckExprGrows(S, c, inner, u0);
      CheckGrows(S, V, p, inner, u1); CheckGrows(S, V, b, inner, Check(S, V, p, inner, u1));
    case Range(_, _, e, b) =>
      CheckExprGrows(S, e, at, u);
      CheckGrows(S, V, b, at || ForVaries(e, b, V), CheckExpr(S, e, at, u));
    case _ =>
  }

  /** Why a walk that found nothing to report proves silence: either it stands where not every thread
      arrives, or it recorded no use of the block. */
  predicate Quiet(at: bool, u: Use, v: Use) {
    ((at || u.leaves) && !v.reported) || (!v.barrier && !v.warp)
  }

  lemma {:induction false} QuietExpr(S: seq<Use>, e: Expr, at: bool, u: Use)
    requires Quiet(at, u, CheckExpr(S, e, at, u))
    ensures SilentE(S, e)
    decreases e, 0
  {
    match e
    case Un(_, a) => QuietExpr(S, a, at, u);
    case Bin(_, a, b) =>
      var u1 := CheckExpr(S, a, at, u);
      CheckExprGrows(S, a, at, u); CheckExprGrows(S, b, at, u1);
      QuietExpr(S, a, at, u); QuietExpr(S, b, at, u1);
    case AndAlso(a, b) =>
      var u1 := CheckExpr(S, a, at, u);
      CheckExprGrows(S, a, at, u); CheckExprGrows(S, b, at, u1);
      QuietExpr(S, a, at, u); QuietExpr(S, b, at, u1);
    case OrElse(a, b) =>
      var u1 := CheckExpr(S, a, at, u);
      CheckExprGrows(S, a, at, u); CheckExprGrows(S, b, at, u1);
      QuietExpr(S, a, at, u); QuietExpr(S, b, at, u1);
    case Load(_, i) => QuietExpr(S, i, at, u);
    case Warp(_, a) => CheckExprGrows(S, a, at, Report(at, u.(warp := true)));
    case Call(f, args) =>
      var u1 := if f < |S| then CheckCall(S[f], at, u) else u;
      CheckExprsGrows(S, args, at, u1);
      QuietExprs(S, args, at, u1);
    case _ =>
  }

  lemma {:induction false} QuietExprs(S: seq<Use>, es: seq<Expr>, at: bool, u: Use)
    requires Quiet(at, u, CheckExprs(S, es, at, u))
    ensures SilentEs(S, es)
    decreases es, 0
  {
    if es != [] {
      var u1 := CheckExpr(S, es[0], at, u);
      CheckExprGrows(S, es[0], at, u);
      CheckExprsGrows(S, es[1..], at, u1);
      QuietExpr(S, es[0], at, u);
      QuietExprs(S, es[1..], at, u1);
    }
  }

  lemma {:induction false} QuietStmt(S: seq<Use>, V: set<string>, s: Stmt, at: bool, u: Use)
    requires Quiet(at, u, Check(S, V, s, at, u))
    ensures Silent(S, s)
  {
    match s
    case ExprStmt(e) => QuietExpr(S, e, at, u);
    case Assign(_, e) => QuietExpr(S, e, at, u);
    case Return(e) => CheckExprGrows(S, e, at, u); QuietExpr(S, e, at, u);
    case Seq(a, b) =>
      var u1 := Check(S, V, a, at, u);
      CheckGrows(S, V, a, at, u); CheckGrows(S, V, b, at, u1);
      QuietStmt(S, V, a, at, u); QuietStmt(S, V, b, at, u1);
    case If(i, c, a, b) =>
      var u0 := Check(S, V, i, at, u);
      var u1 := CheckExpr(S, c, at, u0);
      var inner := at || Varies(c, V);
      var u2 := Check(S, V, a, inner, u1);
      CheckGrows(S, V, i, at, u); CheckExprGrows(S, c, at, u0); CheckGrows(S, V, a, inner, u1); CheckGrows(S, V, b, inner, u2);
      QuietStmt(S, V, i, at, u); QuietExpr(S, c, at, u0); QuietStmt(S, V, a, inner, u1); QuietStmt(S, V, b, inner, u2);
    case For(_, i, c, p, b) =>
      var u0 := Check(S, V, i, at, u);
      var inner := at || ForVaries(c, b, V);
      var u1 := CheckExpr(S, c, inner, u0);
      var u2 := Check(S, V, p, inner, u1);
      CheckGrows(S, V, i, at, u); CheckExprGrows(S, c, inner, u0); CheckGrows(S, V, p, inner, u1); CheckGrows(S, V, b, inner, u2);
      QuietStmt(S, V, i, at, u); QuietExpr(S, c, inner, u0); QuietStmt(S, V, p, inner, u1); QuietStmt(S, V, b, inner, u2);
    case Range(_, _, e, b) =>
      var u1 := CheckExpr(S, e, at, u);
      var inner := at || ForVaries(e, b, V);
      CheckExprGrows(S, e, at, u); CheckGrows(S, V, b, inner, u1);
      QuietExpr(S, e, at, u); QuietStmt(S, V, b, inner, u1);
    case _ =>
  }

  /** The memo table: every entry is its function's summary against the table itself. */
  ghost predicate IsTable(P: seq<Func>, S: seq<Use>) {
    |S| == |P| && forall k :: 0 <= k < |P| ==> S[k] == Summary(S, P[k])
  }

  // Silent code leaves the trace alone.

  lemma {:induction false} SilentValue(P: seq<Func>, S: seq<Use>, m: Machine, e: Expr, env: map<string, int>, tr: Trace, n: nat)
    requires IsTable(P, S) && SilentE(S, e) && ValueOf(P, m, e, env, tr, n).Value?
    ensures ValueOf(P, m, e, env, tr, n).trace.events == tr.events
    decreases n, e, 0
  {
    match e
    case Un(_, a) => SilentValue(P, S, m, a, env, tr, n);
    case Bin(_, a, b) => SilentValue(P, S, m, a, env, tr, n); SilentValue(P, S, m, b, env, ValueOf(P, m, a, env, tr, n).trace, n);
    case AndAlso(a, b) =>
      SilentValue(P, S, m, a, env, tr, n);
      if ValueOf(P, m, a, env, tr, n).v != 0 { SilentValue(P, S, m, b, env, ValueOf(P, m, a, env, tr, n).trace, n); }
    case OrElse(a, b) =>
      SilentValue(P, S, m, a, env, tr, n);
      if ValueOf(P, m, a, env, tr, n).v == 0 { SilentValue(P, S, m, b, env, ValueOf(P, m, a, env, tr, n).trace, n); }
    case Load(_, i) => SilentValue(P, S, m, i, env, tr, n);
    case Call(f, args) =>
      SilentValues(P, S, m, args, env, tr, n);
      if f < |P| {
        var q := Values(P, m, args, env, tr, n);
        assert S[f] == Summary(S, P[f]);
        QuietStmt(S, Fixpoint(P[f].body, SetOf(P[f].params)), P[f].body, false, NOTHING);
        SilentRun(P, S, m, P[f].body, State(Bind(P[f].params, q.vs), q.trace), n - 1);
      }
    case _ =>
  }

  lemma {:induction false} SilentValues(P: seq<Func>, S: seq<Use>, m: Machine, es: seq<Expr>, env: map<string, int>, tr: Trace, n: nat)
    requires IsTable(P, S) && SilentEs(S, es) && Values(P, m, es, env, tr, n).Args?
    ensures Values(P, m, es, env, tr, n).trace.events == tr.events
    decreases n, es, 0
  {
    if es != [] {
      SilentValue(P, S, m, es[0], env, tr, n);
      SilentValues(P, S, m, es[1..], env, ValueOf(P, m, es[0], env, tr, n).trace, n);
    }
  }

  lemma {:induction false} SilentRun(P: seq<Func>, S: seq<Use>, m: Machine, s: Stmt, st: State, n: nat)
    requires IsTable(P, S) && Silent(S, s) && Run(P, m, s, st, n).Done?
    ensures Run(P, m, s, st, n).st.trace.events == st.trace.events
    decreases n, s, 1
  {
    match s
    case ExprStmt(e) => SilentValue(P, S, m, e, st.env, st.trace, n);
    case Assign(_, e) => SilentValue(P, S, m, e, st.env, st.trace, n);
    case Return(e) => SilentValue(P, S, m, e, st.env, st.trace, n);
    case Seq(a, b) =>
      SilentRun(P, S, m, a, st, n);
      var r := Run(P, m, a, st, n);
      if r.o == Next { SilentRun(P, S, m, b, r.st, n); }
    case If(i, c, a, b) =>
      SilentRun(P, S, m, i, st, n);
      var st1 := Run(P, m, i, st, n).st;
      SilentValue(P, S, m, c, st1.env, st1.trace, n);
      var r := ValueOf(P, m, c, st1.env, st1.trace, n);
      SilentRun(P, S, m, if r.v != 0 then a else b, st1.(trace := r.trace), n);
    case For(_, i, _, _, _) =>
      SilentRun(P, S, m, i, st, n);
      SilentLoop(P, S, m, s, Run(P, m, i, st, n).st, n);
    case Range(_, _, e, _) =>
      SilentValue(P, S, m, e, st.env, st.trace, n);
      var r := ValueOf(P, m, e, st.env, st.trace, n);
      SilentCount(P, S, m, s, 0, r.v, st.(trace := r.trace), n);
    case _ =>
  }

  lemma {:induction false} SilentLoop(P: seq<Func>, S: seq<Use>, m: Machine, s: Stmt, st: State, n: nat)
    requires IsTable(P, S) && s.For? && SilentE(S, s.cond) && Silent(S, s.post) && Silent(S, s.body)
    requires Loop(P, m, s, st, n).Done?
    ensures Loop(P, m, s, st, n).st.trace.events == st.trace.events
    decreases n, s, 0
  {
    var c := ValueOf(P, m, s.cond, st.env, st.trace, n);
    SilentValue(P, S, m, s.cond, st.env, st.trace, n);
    if c.v != 0 {
      var b := Run(P, m, s.body, st.(trace := c.trace), n);
      SilentRun(P, S, m, s.body, st.(trace := c.trace), n);
      if LoopCtrl(b.o, s.lbl).0 {
        SilentRun(P, S, m, s.post, b.st, n);
        SilentLoop(P, S, m, s, Run(P, m, s.post, b.st, n).st, n - 1);
      }
    }
  }

  lemma {:induction false} SilentCount(P: seq<Func>, S: seq<Use>, m: Machine, s: Stmt, i: int, limit: int, st: State, n: nat)
    requires IsTable(P, S) && s.Range? && Silent(S, s.body) && Count(P, m, s, i, limit, st, n).Done?
    ensures Count(P, m, s, i, limit, st, n).st.trace.events == st.trace.events
    decreases n, s, 0
  {
    if i < limit {
      var st1 := st.(env := st.env[s.key := i]);
      var b := Run(P, m, s.body, st1, n);
      SilentRun(P, S, m, s.body, st1, n);
      if LoopCtrl(b.o, s.lbl).0 { SilentCount(P, S, m, s, i + 1, limit, b.st, n - 1); }
    }
  }

  // Code run by some threads only changes variables that vary.

  /** A set one pass of marking adds nothing to is one that none of its steps adds to. */
  lemma MarkParts(s: Stmt, d: bool, V: set<string>)
    requires Mark(s, d, V) == V
    ensures s.Seq? ==> Mark(s.s1, d, V) == V && Mark(s.s2, d, V) == V
    ensures s.If? ==>
      var inner := d || Varies(s.cond, V);
      Mark(s.init, d, V) == V && Mark(s.thn, inner, V) == V && Mark(s.els, inner, V) == V
    ensures s.For? ==>
      var inner := d || ForVaries(s.cond, s.body, V);
      Mark(s.init, d, V) == V && Mark(s.post, inner, V) == V && Mark(s.body, inner, V) == V
    ensures s.Range? ==>
      var inner := d || ForVaries(s.limit, s.body, V);
      (inner ==> s.key in V) && Mark(s.body, inner, V) == V
  {
    match s
    case Seq(a, b) => assert Mark(a, d, V) == V;
    case If(i, c, a, b) =>
      assert Mark(i, d, V) == V;
      assert Mark(a, d || Varies(c, V), V) == V;
    case For(_, i, c, p, b) =>
      assert Mark(i, d, V) == V;
      assert Mark(p, d || ForVaries(c, b, V), V) == V;
    case Range(_, k, e, b) =>
      var inner := d || ForVaries(e, b, V);
      assert (if inner then V + {k} else V) == V;
    case _ =>
  }

  /** Two environments agree on everything outside V. */
  ghost predicate LowEq(V: set<string>, a: map<string, int>, b: map<string, int>) {
    forall x :: x !in V ==> Get(a, x) == Get(b, x)
  }

  lemma {:induction false} DivergedRun(P: seq<Func>, V: set<string>, m: Machine, s: Stmt, st: State, n: nat)
    requires Mark(s, true, V) == V && Run(P, m, s, st, n).Done?
    ensures LowEq(V, st.env, Run(P, m, s, st, n).st.env)
    decreases n, s, 1
  {
    MarkParts(s, true, V);
    match s
    case Seq(a, b) =>
      DivergedRun(P, V, m, a, st, n);
      var r := Run(P, m, a, st, n);
      if r.o == Next { DivergedRun(P, V, m, b, r.st, n); }
    case If(i, c, a, b) =>
      DivergedRun(P, V, m, i, st, n);
      var st1 := Run(P, m, i, st, n).st;
      var r := ValueOf(P, m, c, st1.env, st1.trace, n);
      DivergedRun(P, V, m, if r.v != 0 then a else b, st1.(trace := r.trace), n);
    case For(_, i, _, _, _) =>
      DivergedRun(P, V, m, i, st, n);
      DivergedLoop(P, V, m, s, Run(P, m, i, st, n).st, n);
    case Range(_, k, e, _) =>
      var r := ValueOf(P, m, e, st.env, st.trace, n);
      DivergedCount(P, V, m, s, 0, r.v, st.(trace := r.trace), n);
    case _ =>
  }

  lemma {:induction false} DivergedLoop(P: seq<Func>, V: set<string>, m: Machine, s: Stmt, st: State, n: nat)
    requires s.For? && Mark(s.post, true, V) == V && Mark(s.body, true, V) == V && Loop(P, m, s, st, n).Done?
    ensures LowEq(V, st.env, Loop(P, m, s, st, n).st.env)
    decreases n, s, 0
  {
    var c := ValueOf(P, m, s.cond, st.env, st.trace, n);
    if c.v != 0 {
      var b := Run(P, m, s.body, st.(trace := c.trace), n);
      DivergedRun(P, V, m, s.body, st.(trace := c.trace), n);
      if LoopCtrl(b.o, s.lbl).0 {
        DivergedRun(P, V, m, s.post, b.st, n);
        DivergedLoop(P, V, m, s, Run(P, m, s.post, b.st, n).st, n - 1);
      }
    }
  }

  lemma {:induction false} DivergedCount(P: seq<Func>, V: set<string>, m: Machine, s: Stmt, i: int, limit: int, st: State, n: nat)
    requires s.Range? && s.key in V && Mark(s.body, true, V) == V && Count(P, m, s, i, limit, st, n).Done?
    ensures LowEq(V, st.env, Count(P, m, s, i, limit, st, n).st.env)
    decreases n, s, 0
  {
    if i < limit {
      var st1 := st.(env := st.env[s.key := i]);
      var b := Run(P, m, s.body, st1, n);
      DivergedRun(P, V, m, s.body, st1, n);
      if LoopCtrl(b.o, s.lbl).0 { DivergedCount(P, V, m, s, i + 1, limit, b.st, n - 1); }
    }
  }

  // The shapes the theorem is about

  /** exitsVarying with a nested loop given the verdict forVaries and rangeVaries would give it. */
  predicate Strict(s: Stmt, div: bool, nested: bool, V: set<string>) {
    match s
    case Break(l) => div && (l != "" || !nested)
    case Continue(l) => div && (l != "" || !nested)
    case Return(_) => div
    case Seq(a, b) => Strict(a, div, nested, V) || Strict(b, div, nested, V)
    case If(_, c, a, b) => Strict(a, div || Varies(c, V), nested, V) || Strict(b, div || Varies(c, V), nested, V)
    case For(_, _, c, _, b) => Strict(b, div || ForVaries(c, b, V), true, V)
    case Range(_, _, e, b) => Strict(b, div || ForVaries(e, b, V), true, V)
    case _ => false
  }

  /** The condition under which the check is sound: no loop has an exit that only the strict walk
      sees, and what stands right of && or || reaches nothing collective unless every thread
      decides alike whether to evaluate it. */
  predicate Covered(S: seq<Use>, V: set<string>, s: Stmt) {
    match s
    case ExprStmt(e) => CoveredE(S, V, e)
    case Assign(_, e) => CoveredE(S, V, e)
    case Return(e) => CoveredE(S, V, e)
    case Seq(a, b) => Covered(S, V, a) && Covered(S, V, b)
    case If(i, c, a, b) => Covered(S, V, i) && CoveredE(S, V, c) && Covered(S, V, a) && Covered(S, V, b)
    case For(_, i, c, p, b) =>
      && (Strict(b, false, false, V) ==> Exits(b, false, false, V))
      && Covered(S, V, i) && CoveredE(S, V, c) && Covered(S, V, p) && Covered(S, V, b)
    case Range(_, _, e, b) =>
      && (Strict(b, false, false, V) ==> Exits(b, false, false, V))
      && CoveredE(S, V, e) && Covered(S, V, b)
    case _ => true
  }

  predicate CoveredE(S: seq<Use>, V: set<string>, e: Expr)
    decreases e, 0
  {
    match e
    case Un(_, a) => CoveredE(S, V, a)
    case Bin(_, a, b) => CoveredE(S, V, a) && CoveredE(S, V, b)
    case AndAlso(a, b) => (SilentE(S, b) || !Varies(a, V)) && CoveredE(S, V, a) && CoveredE(S, V, b)
    case OrElse(a, b) => (SilentE(S, b) || !Varies(a, V)) && CoveredE(S, V, a) && CoveredE(S, V, b)
    case Load(_, i) => CoveredE(S, V, i)
    case Warp(_, a) => CoveredE(S, V, a)
    case Call(_, args) => CoveredEs(S, V, args)
    case _ => true
  }

  predicate CoveredEs(S: seq<Use>, V: set<string>, es: seq<Expr>)
    decreases es, 0
  {
    es == [] || (CoveredE(S, V, es[0]) && CoveredEs(S, V, es[1..]))
  }

  function FuncVary(f: Func): set<string> { Fixpoint(f.body, SetOf(f.params)) }

  ghost predicate CoveredProgram(P: seq<Func>, S: seq<Use>) {
    forall k :: 0 <= k < |P| ==> Covered(S, FuncVary(P[k]), P[k].body)
  }

  // What the strict walk and the returns flag say about a run

  /** Where only some threads go and no exit is seen, nothing leaves. */
  lemma {:induction false} NoExitNoBranch(s: Stmt, nested: bool, V: set<string>)
    requires !Strict(s, true, nested, V)
    ensures !HasReturn(s) && Targets(s) <= (if nested then {""} else {})
  {
    match s
    case Seq(a, b) => NoExitNoBranch(a, nested, V); NoExitNoBranch(b, nested, V);
    case If(_, _, a, b) => NoExitNoBranch(a, nested, V); NoExitNoBranch(b, nested, V);
    case For(_, _, _, _, b) => NoExitNoBranch(b, true, V);
    case Range(_, _, _, b) => NoExitNoBranch(b, true, V);
    case _ =>
  }

  /** A return where only some threads go is what sets the flag. */
  lemma {:induction false} NoExitNoReturn(P: seq<Func>, k: nat, S: seq<Use>, V: set<string>, s: Stmt, at: bool, nested: bool, u: Use)
    requires !Strict(s, at, nested, V) && Formed(P, k, s)
    ensures Check(S, V, s, at, u).leaves == u.leaves
  {
    match s
    case ExprStmt(e) => CheckExprGrows(S, e, at, u);
    case Assign(_, e) => CheckExprGrows(S, e, at, u);
    case Return(e) => CheckExprGrows(S, e, at, u);
    case Seq(a, b) =>
      NoExitNoReturn(P, k, S, V, a, at, nested, u); NoExitNoReturn(P, k, S, V, b, at, nested, Check(S, V, a, at, u));
    case If(i, c, a, b) =>
      var u0 := Check(S, V, i, at, u);
      var u1 := CheckExpr(S, c, at, u0);
      var inner := at || Varies(c, V);
      NoExitNoReturn(P, k, S, V, i, at, nested, u); CheckExprGrows(S, c, at, u0);
      NoExitNoReturn(P, k, S, V, a, inner, nested, u1); NoExitNoReturn(P, k, S, V, b, inner, nested, Check(S, V, a, inner, u1));
    case For(_, i, c, p, b) =>
      var u0 := Check(S, V, i, at, u);
      var inner := at || ForVaries(c, b, V);
      var u1 := CheckExpr(S, c, inner, u0);
      NoExitNoReturn(P, k, S, V, i, at, nested, u); CheckExprGrows(S, c, inner, u0);
      NoExitNoReturn(P, k, S, V, p, inner, nested, u1); NoExitNoReturn(P, k, S, V, b, inner, true, Check(S, V, p, inner, u1));
    case Range(_, _, e, b) =>
      CheckExprGrows(S, e, at, u);
      NoExitNoReturn(P, k, S, V, b, at || ForVaries(e, b, V), true, CheckExpr(S, e, at, u));
    case _ =>
  }

  /** So for exitsVarying itself, of a loop it is trusted on: with no exit it sees, no return in the loop
      is one that only some threads take. */
  lemma CoveredNoReturn(P: seq<Func>, k: nat, S: seq<Use>, V: set<string>, s: Stmt, u: Use)
    requires (s.For? || s.Range?) && Formed(P, k, s) && Covered(S, V, s) && !Exits(s.body, false, false, V)
    ensures Check(S, V, s.body, false, u).leaves == u.leaves
  {
    NoExitNoReturn(P, k, S, V, s.body, false, false, u);
  }

  /** And without a return nothing does. */
  lemma {:induction false} NoReturnNoFlag(P: seq<Func>, k: nat, S: seq<Use>, V: set<string>, s: Stmt, at: bool, u: Use)
    requires !HasReturn(s) && Formed(P, k, s)
    ensures Check(S, V, s, at, u).leaves == u.leaves
  {
    match s
    case ExprStmt(e) => CheckExprGrows(S, e, at, u);
    case Assign(_, e) => CheckExprGrows(S, e, at, u);
    case Seq(a, b) => NoReturnNoFlag(P, k, S, V, a, at, u); NoReturnNoFlag(P, k, S, V, b, at, Check(S, V, a, at, u));
    case If(i, c, a, b) =>
      var u0 := Check(S, V, i, at, u);
      var u1 := CheckExpr(S, c, at, u0);
      var inner := at || Varies(c, V);
      if i.Assign? { CheckExprGrows(S, i.e, at, u); } CheckExprGrows(S, c, at, u0);
      NoReturnNoFlag(P, k, S, V, a, inner, u1); NoReturnNoFlag(P, k, S, V, b, inner, Check(S, V, a, inner, u1));
    case For(_, i, c, p, b) =>
      var u0 := Check(S, V, i, at, u);
      var inner := at || ForVaries(c, b, V);
      var u1 := CheckExpr(S, c, inner, u0);
      if i.Assign? { CheckExprGrows(S, i.e, at, u); } CheckExprGrows(S, c, inner, u0);
      if p.Assign? { CheckExprGrows(S, p.e, inner, u1); } NoReturnNoFlag(P, k, S, V, b, inner, Check(S, V, p, inner, u1));
    case Range(_, _, e, b) =>
      CheckExprGrows(S, e, at, u);
      NoReturnNoFlag(P, k, S, V, b, at || ForVaries(e, b, V), CheckExpr(S, e, at, u));
    case _ =>
  }

  /** Where the site itself is diverged, every return sets it. */
  lemma {:induction false} ReturnSetsFlag(S: seq<Use>, V: set<string>, s: Stmt, u: Use)
    requires HasReturn(s)
    ensures Check(S, V, s, true, u).leaves
  {
    match s
    case Seq(a, b) =>
      var u1 := Check(S, V, a, true, u);
      if HasReturn(a) { ReturnSetsFlag(S, V, a, u); CheckGrows(S, V, b, true, u1); } else { ReturnSetsFlag(S, V, b, u1); }
    case If(i, c, a, b) =>
      var u1 := CheckExpr(S, c, true, Check(S, V, i, true, u));
      var u2 := Check(S, V, a, true, u1);
      if HasReturn(a) { ReturnSetsFlag(S, V, a, u1); CheckGrows(S, V, b, true, u2); } else { ReturnSetsFlag(S, V, b, u2); }
    case For(_, i, c, p, b) =>
      ReturnSetsFlag(S, V, b, Check(S, V, p, true, CheckExpr(S, c, true, Check(S, V, i, true, u))));
    case Range(_, _, e, b) => ReturnSetsFlag(S, V, b, CheckExpr(S, e, true, u));
    case _ =>
  }

  // Two threads of one block

  predicate SameKind(a: Outcome, b: Outcome) { a == b || (a.Ret? && b.Ret?) }

  /** Two runs of s from states that agree outside V: they execute the same collective operations,
      and unless some thread may have returned early they end alike. */
  ghost predicate Alike(V: set<string>, r1: RunResult, r2: RunResult, left: bool)
    requires r1.Done? && r2.Done?
  {
    && r1.st.trace.events == r2.st.trace.events
    && (!left ==> SameKind(r1.o, r2.o) && (!r1.o.Ret? ==> LowEq(V, r1.st.env, r2.st.env)))
  }

  /** What the two-run lemmas are given. */
  ghost predicate Setting(P: seq<Func>, S: seq<Use>, m1: Machine, m2: Machine) {
    Program(P) && IsTable(P, S) && CoveredProgram(P, S) && m1.block == m2.block
  }

  lemma {:induction false} AlikeValue(P: seq<Func>, S: seq<Use>, m1: Machine, m2: Machine, V: set<string>,
      e: Expr, u: Use, a1: map<string, int>, a2: map<string, int>, t1: Trace, t2: Trace, n: nat)
    requires Setting(P, S, m1, m2) && FormedE(P, |P|, e) && CoveredE(S, V, e) && LowEq(V, a1, a2) && t1.events == t2.events
    requires !CheckExpr(S, e, false, u).reported
    requires ValueOf(P, m1, e, a1, t1, n).Value? && ValueOf(P, m2, e, a2, t2, n).Value?
    ensures ValueOf(P, m1, e, a1, t1, n).trace.events == ValueOf(P, m2, e, a2, t2, n).trace.events
    ensures !Varies(e, V) ==> ValueOf(P, m1, e, a1, t1, n).v == ValueOf(P, m2, e, a2, t2, n).v
    decreases n, e, 1
  {
    match e
    case Un(_, a) => AlikeValue(P, S, m1, m2, V, a, u, a1, a2, t1, t2, n);
    case Bin(_, a, b) =>
      var u1 := CheckExpr(S, a, false, u);
      CheckExprGrows(S, b, false, u1);
      AlikeValue(P, S, m1, m2, V, a, u, a1, a2, t1, t2, n);
      AlikeValue(P, S, m1, m2, V, b, u1, a1, a2, ValueOf(P, m1, a, a1, t1, n).trace, ValueOf(P, m2, a, a2, t2, n).trace, n);
    case AndAlso(a, b) => AlikeShort(P, S, m1, m2, V, e, u, a1, a2, t1, t2, n);
    case OrElse(a, b) => AlikeShort(P, S, m1, m2, V, e, u, a1, a2, t1, t2, n);
    case Load(_, i) => AlikeValue(P, S, m1, m2, V, i, u, a1, a2, t1, t2, n);
    case Warp(op, a) => AlikeValue(P, S, m1, m2, V, a, Report(false, u.(warp := true)), a1, a2, t1, t2, n);
    case Call(_, _) => AlikeCall(P, S, m1, m2, V, e, u, a1, a2, t1, t2, n);
    case _ =>
  }

  /** A device function runs from its parameters, with all of them taken to vary. */
  lemma {:induction false} AlikeCall(P: seq<Func>, S: seq<Use>, m1: Machine, m2: Machine, V: set<string>,
      e: Expr, u: Use, a1: map<string, int>, a2: map<string, int>, t1: Trace, t2: Trace, n: nat)
    requires e.Call?
    requires Setting(P, S, m1, m2) && FormedE(P, |P|, e) && CoveredE(S, V, e) && LowEq(V, a1, a2) && t1.events == t2.events
    requires !CheckExpr(S, e, false, u).reported
    requires ValueOf(P, m1, e, a1, t1, n).Value? && ValueOf(P, m2, e, a2, t2, n).Value?
    ensures ValueOf(P, m1, e, a1, t1, n).trace.events == ValueOf(P, m2, e, a2, t2, n).trace.events
    decreases n, e, 0
  {
    var f := e.f;
    var u1 := CheckCall(S[f], false, u);
    CheckExprsGrows(S, e.args, false, u1);
    AlikeValues(P, S, m1, m2, V, e.args, u1, a1, a2, t1, t2, n);
    var q1, q2 := Values(P, m1, e.args, a1, t1, n), Values(P, m2, e.args, a2, t2, n);
    AlikeBody(P, S, m1, m2, f, q1.vs, q2.vs, q1.trace, q2.trace, n - 1);
  }

  lemma {:induction false} AlikeBody(P: seq<Func>, S: seq<Use>, m1: Machine, m2: Machine,
      f: nat, v1: seq<int>, v2: seq<int>, t1: Trace, t2: Trace, n: nat)
    requires Setting(P, S, m1, m2) && f < |P| && !S[f].reported && t1.events == t2.events
    requires Run(P, m1, P[f].body, State(Bind(P[f].params, v1), t1), n).Done?
    requires Run(P, m2, P[f].body, State(Bind(P[f].params, v2), t2), n).Done?
    ensures Run(P, m1, P[f].body, State(Bind(P[f].params, v1), t1), n).st.trace.events ==
      Run(P, m2, P[f].body, State(Bind(P[f].params, v2), t2), n).st.trace.events
    decreases n, P[f].body, 3
  {
    var W := FuncVary(P[f]);
    BindLow(P[f].params, v1, v2, W);
    assert S[f] == Summary(S, P[f]);
    FormedMore(P, f, |P|, P[f].body);
    AlikeRun(P, S, m1, m2, W, P[f].body, NOTHING, false, State(Bind(P[f].params, v1), t1), State(Bind(P[f].params, v2), t2), n);
  }

  lemma {:induction false} AlikeShort(P: seq<Func>, S: seq<Use>, m1: Machine, m2: Machine, V: set<string>,
      e: Expr, u: Use, a1: map<string, int>, a2: map<string, int>, t1: Trace, t2: Trace, n: nat)
    requires e.AndAlso? || e.OrElse?
    requires Setting(P, S, m1, m2) && FormedE(P, |P|, e) && CoveredE(S, V, e) && LowEq(V, a1, a2) && t1.events == t2.events
    requires !CheckExpr(S, e, false, u).reported
    requires ValueOf(P, m1, e, a1, t1, n).Value? && ValueOf(P, m2, e, a2, t2, n).Value?
    ensures ValueOf(P, m1, e, a1, t1, n).trace.events == ValueOf(P, m2, e, a2, t2, n).trace.events
    ensures !Varies(e, V) ==> ValueOf(P, m1, e, a1, t1, n).v == ValueOf(P, m2, e, a2, t2, n).v
    decreases n, e, 0
  {
    var u1 := CheckExpr(S, e.a, false, u);
    CheckExprGrows(S, e.b, false, u1);
    AlikeValue(P, S, m1, m2, V, e.a, u, a1, a2, t1, t2, n);
    var r1, r2 := ValueOf(P, m1, e.a, a1, t1, n), ValueOf(P, m2, e.a, a2, t2, n);
    var q1, q2 := ValueOf(P, m1, e.b, a1, r1.trace, n), ValueOf(P, m2, e.b, a2, r2.trace, n);
    if !Varies(e.a, V) {
      if q1.Value? && q2.Value? { AlikeValue(P, S, m1, m2, V, e.b, u1, a1, a2, r1.trace, r2.trace, n); }
    } else {
      if q1.Value? { SilentValue(P, S, m1, e.b, a1, r1.trace, n); }
      if q2.Value? { SilentValue(P, S, m2, e.b, a2, r2.trace, n); }
    }
  }

  lemma {:induction false} AlikeValues(P: seq<Func>, S: seq<Use>, m1: Machine, m2: Machine, V: set<string>,
      es: seq<Expr>, u: Use, a1: map<string, int>, a2: map<string, int>, t1: Trace, t2: Trace, n: nat)
    requires Setting(P, S, m1, m2) && FormedEs(P, |P|, es) && CoveredEs(S, V, es) && LowEq(V, a1, a2) && t1.events == t2.events
    requires !CheckExprs(S, es, false, u).reported
    requires Values(P, m1, es, a1, t1, n).Args? && Values(P, m2, es, a2, t2, n).Args?
    ensures Values(P, m1, es, a1, t1, n).trace.events == Values(P, m2, es, a2, t2, n).trace.events
    decreases n, es, 0
  {
    if es != [] {
      var u1 := CheckExpr(S, es[0], false, u);
      CheckExprsGrows(S, es[1..], false, u1);
      AlikeValue(P, S, m1, m2, V, es[0], u, a1, a2, t1, t2, n);
      AlikeValues(P, S, m1, m2, V, es[1..], u1, a1, a2, ValueOf(P, m1, es[0], a1, t1, n).trace, ValueOf(P, m2, es[0], a2, t2, n).trace, n);
    }
  }

  /** A device function's frame holds its parameters, all of which are taken to vary. */
  lemma {:induction false} BindLow(params: seq<string>, v1: seq<int>, v2: seq<int>, V: set<string>)
    requires SetOf(params) <= V
    ensures LowEq(V, Bind(params, v1), Bind(params, v2))
  {
    BindKeys(params, v1);
    BindKeys(params, v2);
  }

  lemma {:induction false} BindKeys(params: seq<string>, vs: seq<int>)
    ensures Bind(params, vs).Keys <= SetOf(params)
  {
    if params != [] && vs != [] { BindKeys(params[1..], vs[1..]); }
  }

  lemma {:induction false} FormedMoreE(P: seq<Func>, j: nat, k: nat, e: Expr)
    requires j <= k && FormedE(P, j, e)
    ensures FormedE(P, k, e)
    decreases e, 0
  {
    match e
    case Un(_, a) => FormedMoreE(P, j, k, a);
    case Bin(_, a, b) => FormedMoreE(P, j, k, a); FormedMoreE(P, j, k, b);
    case AndAlso(a, b) => FormedMoreE(P, j, k, a); FormedMoreE(P, j, k, b);
    case OrElse(a, b) => FormedMoreE(P, j, k, a); FormedMoreE(P, j, k, b);
    case Load(_, a) => FormedMoreE(P, j, k, a);
    case Warp(_, a) => FormedMoreE(P, j, k, a);
    case Call(_, args) => FormedMoreEs(P, j, k, args);
    case _ =>
  }

  lemma {:induction false} FormedMoreEs(P: seq<Func>, j: nat, k: nat, es: seq<Expr>)
    requires j <= k && FormedEs(P, j, es)
    ensures FormedEs(P, k, es)
    decreases es, 0
  {
    if es != [] { FormedMoreE(P, j, k, es[0]); FormedMoreEs(P, j, k, es[1..]); }
  }

  lemma {:induction false} FormedMore(P: seq<Func>, j: nat, k: nat, s: Stmt)
    requires j <= k && Formed(P, j, s)
    ensures Formed(P, k, s)
  {
    match s
    case ExprStmt(e) => FormedMoreE(P, j, k, e);
    case Assign(_, e) => FormedMoreE(P, j, k, e);
    case Return(e) => FormedMoreE(P, j, k, e);
    case Seq(a, b) => FormedMore(P, j, k, a); FormedMore(P, j, k, b);
    case If(i, c, a, b) => FormedMore(P, j, k, i); FormedMoreE(P, j, k, c); FormedMore(P, j, k, a); FormedMore(P, j, k, b);
    case For(_, i, c, p, b) => FormedMore(P, j, k, i); FormedMoreE(P, j, k, c); FormedMore(P, j, k, p); FormedMore(P, j, k, b);
    case Range(_, _, e, b) => FormedMoreE(P, j, k, e); FormedMore(P, j, k, b);
    case _ =>
  }

  /** Where the block is, nothing of s leaves the function or an enclosing loop unseen: inside a loop
      no exit is seen at all, and outside one there is nothing to leave but the function. */
  ghost predicate Placed(V: set<string>, s: Stmt, looped: bool) {
    if looped then !Strict(s, false, false, V) else Targets(s) == {}
  }

  /** The two-run theorem for one statement of the common path. */
  lemma {:induction false} AlikeRun(P: seq<Func>, S: seq<Use>, m1: Machine, m2: Machine, V: set<string>,
      s: Stmt, u: Use, looped: bool, st1: State, st2: State, n: nat)
    requires Setting(P, S, m1, m2) && Formed(P, |P|, s) && Covered(S, V, s)
    requires Mark(s, false, V) == V && Placed(V, s, looped)
    requires !Check(S, V, s, false, u).reported
    requires LowEq(V, st1.env, st2.env) && st1.trace.events == st2.trace.events
    requires Run(P, m1, s, st1, n).Done? && Run(P, m2, s, st2, n).Done?
    ensures Alike(V, Run(P, m1, s, st1, n), Run(P, m2, s, st2, n), Check(S, V, s, false, u).leaves)
    decreases n, s, 2
  {
    CheckGrows(S, V, s, false, u);
    MarkParts(s, false, V);
    if u.leaves {
      AlikeLeft(P, S, m1, m2, V, s, u, st1, st2, n);
      return;
    }
    match s
    case ExprStmt(e) => AlikeValue(P, S, m1, m2, V, e, u, st1.env, st2.env, st1.trace, st2.trace, n);
    case Assign(_, e) => AlikeValue(P, S, m1, m2, V, e, u, st1.env, st2.env, st1.trace, st2.trace, n);
    case Return(e) => AlikeValue(P, S, m1, m2, V, e, u, st1.env, st2.env, st1.trace, st2.trace, n);
    case Seq(a, b) => AlikeSeq(P, S, m1, m2, V, s, u, looped, st1, st2, n);
    case If(_, _, _, _) => AlikeIf(P, S, m1, m2, V, s, u, looped, st1, st2, n);
    case For(_, _, _, _, _) => AlikeFor(P, S, m1, m2, V, s, u, looped, st1, st2, n);
    case Range(_, _, _, _) => AlikeRange(P, S, m1, m2, V, s, u, looped, st1, st2, n);
    case _ =>
  }

  /** Once some thread may have left, nothing collective is met. */
  lemma AlikeLeft(P: seq<Func>, S: seq<Use>, m1: Machine, m2: Machine, V: set<string>, s: Stmt, u: Use, st1: State, st2: State, n: nat)
    requires IsTable(P, S) && u.leaves && !Check(S, V, s, false, u).reported && st1.trace.events == st2.trace.events
    requires Run(P, m1, s, st1, n).Done? && Run(P, m2, s, st2, n).Done?
    ensures Run(P, m1, s, st1, n).st.trace.events == Run(P, m2, s, st2, n).st.trace.events
  {
    QuietStmt(S, V, s, false, u);
    SilentRun(P, S, m1, s, st1, n);
    SilentRun(P, S, m2, s, st2, n);
  }

  lemma {:induction false} AlikeSeq(P: seq<Func>, S: seq<Use>, m1: Machine, m2: Machine, V: set<string>,
      s: Stmt, u: Use, looped: bool, st1: State, st2: State, n: nat)
    requires s.Seq? && Setting(P, S, m1, m2) && Formed(P, |P|, s) && Covered(S, V, s)
    requires Mark(s, false, V) == V && Placed(V, s, looped)
    requires !Check(S, V, s, false, u).reported
    requires LowEq(V, st1.env, st2.env) && st1.trace.events == st2.trace.events
    requires Run(P, m1, s, st1, n).Done? && Run(P, m2, s, st2, n).Done?
    ensures Alike(V, Run(P, m1, s, st1, n), Run(P, m2, s, st2, n), Check(S, V, s, false, u).leaves)
    decreases n, s, 1
  {
    var a, b := s.s1, s.s2;
    MarkParts(s, false, V);
    var u1 := Check(S, V, a, false, u);
    CheckGrows(S, V, b, false, u1);
    AlikeRun(P, S, m1, m2, V, a, u, looped, st1, st2, n);
    var r1, r2 := Run(P, m1, a, st1, n), Run(P, m2, a, st2, n);
    if u1.leaves {
      QuietStmt(S, V, b, false, u1);
      if r1.o == Next { SilentRun(P, S, m1, b, r1.st, n); }
      if r2.o == Next { SilentRun(P, S, m2, b, r2.st, n); }
    } else if r1.o == Next {
      AlikeRun(P, S, m1, m2, V, b, u1, looped, r1.st, r2.st, n);
    }
  }

  /** Code under divergence, run by both threads, by one, or not at all, from states alike. */
  lemma DivergedApart(P: seq<Func>, S: seq<Use>, m: Machine, V: set<string>, s: Stmt, u: Use, looped: bool, st: State, n: nat)
    requires IsTable(P, S) && Mark(s, true, V) == V && !Check(S, V, s, true, u).reported
    requires if looped then !Strict(s, true, false, V) else Targets(s) == {}
    requires Run(P, m, s, st, n).Done?
    ensures Run(P, m, s, st, n).st.trace.events == st.trace.events
    ensures LowEq(V, st.env, Run(P, m, s, st, n).st.env)
    ensures looped || !Check(S, V, s, true, u).leaves ==> Run(P, m, s, st, n).o == Next
  {
    QuietStmt(S, V, s, true, u);
    SilentRun(P, S, m, s, st, n);
    DivergedRun(P, V, m, s, st, n);
    BranchIsTarget(P, m, s, st, n);
    if looped { NoExitNoBranch(s, false, V); }
    if HasReturn(s) { ReturnSetsFlag(S, V, s, u); }
  }

  lemma {:induction false} AlikeIf(P: seq<Func>, S: seq<Use>, m1: Machine, m2: Machine, V: set<string>,
      s: Stmt, u: Use, looped: bool, st1: State, st2: State, n: nat)
    requires s.If? && !u.leaves && Setting(P, S, m1, m2) && Formed(P, |P|, s) && Covered(S, V, s)
    requires Mark(s, false, V) == V && Placed(V, s, looped)
    requires !Check(S, V, s, false, u).reported
    requires LowEq(V, st1.env, st2.env) && st1.trace.events == st2.trace.events
    requires Run(P, m1, s, st1, n).Done? && Run(P, m2, s, st2, n).Done?
    ensures Alike(V, Run(P, m1, s, st1, n), Run(P, m2, s, st2, n), Check(S, V, s, false, u).leaves)
    decreases n, s, 1
  {
    var i, c := s.init, s.cond;
    MarkParts(s, false, V);
    var u0 := Check(S, V, i, false, u);
    var u1 := CheckExpr(S, c, false, u0);
    IfGrows(S, V, s, u0);
    CheckGrows(S, V, i, false, u);
    AlikeRun(P, S, m1, m2, V, i, u, false, st1, st2, n);
    SimpleLeaves(S, V, i, u);
    var q1, q2 := Run(P, m1, i, st1, n).st, Run(P, m2, i, st2, n).st;
    AlikeValue(P, S, m1, m2, V, c, u0, q1.env, q2.env, q1.trace, q2.trace, n);
    var c1, c2 := ValueOf(P, m1, c, q1.env, q1.trace, n), ValueOf(P, m2, c, q2.env, q2.trace, n);
    AlikeBranches(P, S, m1, m2, V, s, u1, looped, c1.v, c2.v, q1.(trace := c1.trace), q2.(trace := c2.trace), n);
  }

  /** What the walk of an if has found is found of its parts. */
  lemma IfGrows(S: seq<Use>, V: set<string>, s: Stmt, u0: Use)
    requires s.If?
    ensures
      var u1 := CheckExpr(S, s.cond, false, u0);
      var u2 := Check(S, V, s.thn, Varies(s.cond, V), u1);
      var u3 := Check(S, V, s.els, Varies(s.cond, V), u2);
      (!u3.reported ==> !u0.reported && !u1.reported && !u2.reported) && u1.leaves == u0.leaves && (u2.leaves ==> u3.leaves)
  {
    var u1 := CheckExpr(S, s.cond, false, u0);
    CheckExprGrows(S, s.cond, false, u0);
    CheckGrows(S, V, s.thn, Varies(s.cond, V), u1);
    CheckGrows(S, V, s.els, Varies(s.cond, V), Check(S, V, s.thn, Varies(s.cond, V), u1));
  }

  /** The branches, the condition of two alike threads known. */
  lemma {:induction false} AlikeBranches(P: seq<Func>, S: seq<Use>, m1: Machine, m2: Machine, V: set<string>,
      s: Stmt, u1: Use, looped: bool, v1: int, v2: int, p1: State, p2: State, n: nat)
    requires s.If? && !u1.leaves && Setting(P, S, m1, m2) && Formed(P, |P|, s) && Covered(S, V, s)
    requires Mark(s.thn, Varies(s.cond, V), V) == V && Mark(s.els, Varies(s.cond, V), V) == V && Placed(V, s, looped)
    requires var u2 := Check(S, V, s.thn, Varies(s.cond, V), u1); !u2.reported && !Check(S, V, s.els, Varies(s.cond, V), u2).reported
    requires LowEq(V, p1.env, p2.env) && p1.trace.events == p2.trace.events && (!Varies(s.cond, V) ==> v1 == v2)
    requires Run(P, m1, if v1 != 0 then s.thn else s.els, p1, n).Done? && Run(P, m2, if v2 != 0 then s.thn else s.els, p2, n).Done?
    ensures
      var u3 := Check(S, V, s.els, Varies(s.cond, V), Check(S, V, s.thn, Varies(s.cond, V), u1));
      Alike(V, Run(P, m1, if v1 != 0 then s.thn else s.els, p1, n), Run(P, m2, if v2 != 0 then s.thn else s.els, p2, n), u3.leaves)
    decreases n, s, 0
  {
    var a, b := s.thn, s.els;
    if Varies(s.cond, V) {
      DivergedBranch(P, S, m1, V, a, b, u1, looped, v1, p1, n);
      DivergedBranch(P, S, m2, V, a, b, u1, looped, v2, p2, n);
    } else if v1 != 0 {
      CheckGrows(S, V, b, false, Check(S, V, a, false, u1));
      AlikeRun(P, S, m1, m2, V, a, u1, looped, p1, p2, n);
    } else {
      if looped { NoExitNoReturn(P, |P|, S, V, a, false, false, u1); }
      AlikeRun(P, S, m1, m2, V, b, Check(S, V, a, false, u1), looped, p1, p2, n);
    }
  }

  /** One of two branches where only some threads go. */
  lemma DivergedBranch(P: seq<Func>, S: seq<Use>, m: Machine, V: set<string>, a: Stmt, b: Stmt, u1: Use, looped: bool, v: int, st: State, n: nat)
    requires IsTable(P, S) && Mark(a, true, V) == V && Mark(b, true, V) == V
    requires var u2 := Check(S, V, a, true, u1); !u2.reported && !Check(S, V, b, true, u2).reported
    requires if looped then !Strict(a, true, false, V) && !Strict(b, true, false, V) else Targets(a) == {} && Targets(b) == {}
    requires Run(P, m, if v != 0 then a else b, st, n).Done?
    ensures var r := Run(P, m, if v != 0 then a else b, st, n);
      && r.st.trace.events == st.trace.events && LowEq(V, st.env, r.st.env)
      && (looped || !Check(S, V, b, true, Check(S, V, a, true, u1)).leaves ==> r.o == Next)
  {
    var u2 := Check(S, V, a, true, u1);
    if v != 0 {
      CheckGrows(S, V, b, true, u2);
      DivergedApart(P, S, m, V, a, u1, looped, st, n);
    } else {
      DivergedApart(P, S, m, V, b, u2, looped, st, n);
    }
  }

  lemma SimpleLeaves(S: seq<Use>, V: set<string>, s: Stmt, u: Use)
    requires Simple(s)
    ensures Check(S, V, s, false, u).leaves == u.leaves
  {
    if s.Assign? { CheckExprGrows(S, s.e, false, u); }
  }

  lemma {:induction false} AlikeFor(P: seq<Func>, S: seq<Use>, m1: Machine, m2: Machine, V: set<string>,
      s: Stmt, u: Use, looped: bool, st1: State, st2: State, n: nat)
    requires s.For? && !u.leaves && Setting(P, S, m1, m2) && Formed(P, |P|, s) && Covered(S, V, s)
    requires Mark(s, false, V) == V && Placed(V, s, looped)
    requires !Check(S, V, s, false, u).reported
    requires LowEq(V, st1.env, st2.env) && st1.trace.events == st2.trace.events
    requires Run(P, m1, s, st1, n).Done? && Run(P, m2, s, st2, n).Done?
    ensures Alike(V, Run(P, m1, s, st1, n), Run(P, m2, s, st2, n), Check(S, V, s, false, u).leaves)
    decreases n, s, 1
  {
    var i, c, p, b := s.init, s.cond, s.post, s.body;
    MarkParts(s, false, V);
    var inner := ForVaries(c, b, V);
    var u0 := Check(S, V, i, false, u);
    var u1 := CheckExpr(S, c, inner, u0);
    var u2 := Check(S, V, p, inner, u1);
    CheckExprGrows(S, c, inner, u0); CheckGrows(S, V, p, inner, u1); CheckGrows(S, V, b, inner, u2);
    AlikeRun(P, S, m1, m2, V, i, u, false, st1, st2, n);
    SimpleLeaves(S, V, i, u);
    var q1, q2 := Run(P, m1, i, st1, n).st, Run(P, m2, i, st2, n).st;
    if inner {
      DivergedFor(P, S, m1, V, s, u0, looped, q1, n);
      DivergedFor(P, S, m2, V, s, u0, looped, q2, n);
    } else {
      AlikeLoop(P, S, m1, m2, V, s, u0, q1, q2, n);
    }
  }

  lemma DivergedFor(P: seq<Func>, S: seq<Use>, m: Machine, V: set<string>, s: Stmt, u0: Use, looped: bool, st: State, n: nat)
    requires s.For? && IsTable(P, S) && Mark(s.post, true, V) == V && Mark(s.body, true, V) == V
    requires ForVaries(s.cond, s.body, V) && Placed(V, s, looped)
    requires
      var u1 := CheckExpr(S, s.cond, true, u0);
      !Check(S, V, s.body, true, Check(S, V, s.post, true, u1)).reported
    requires Loop(P, m, s, st, n).Done?
    ensures
      var r := Loop(P, m, s, st, n);
      var u3 := Check(S, V, s.body, true, Check(S, V, s.post, true, CheckExpr(S, s.cond, true, u0)));
      r.st.trace.events == st.trace.events && LowEq(V, st.env, r.st.env) && (looped || !u3.leaves ==> r.o == Next)
  {
    var u1 := CheckExpr(S, s.cond, true, u0);
    var u2 := Check(S, V, s.post, true, u1);
    CheckExprGrows(S, s.cond, true, u0); CheckGrows(S, V, s.post, true, u1); CheckGrows(S, V, s.body, true, u2);
    QuietExpr(S, s.cond, true, u0); QuietStmt(S, V, s.post, true, u1); QuietStmt(S, V, s.body, true, u2);
    SilentLoop(P, S, m, s, st, n);
    DivergedLoop(P, V, m, s, st, n);
    LoopBranches(P, m, s, st, n);
    if looped { NoExitNoBranch(s.body, true, V); }
    if HasReturn(s.body) { ReturnSetsFlag(S, V, s.body, u2); }
  }

  lemma {:induction false} AlikeLoop(P: seq<Func>, S: seq<Use>, m1: Machine, m2: Machine, V: set<string>,
      s: Stmt, u0: Use, st1: State, st2: State, n: nat)
    requires s.For? && !u0.leaves && Setting(P, S, m1, m2) && Formed(P, |P|, s) && Covered(S, V, s)
    requires Mark(s.post, false, V) == V && Mark(s.body, false, V) == V && !ForVaries(s.cond, s.body, V)
    requires
      var u1 := CheckExpr(S, s.cond, false, u0);
      !Check(S, V, s.body, false, Check(S, V, s.post, false, u1)).reported
    requires LowEq(V, st1.env, st2.env) && st1.trace.events == st2.trace.events
    requires Loop(P, m1, s, st1, n).Done? && Loop(P, m2, s, st2, n).Done?
    ensures Alike(V, Loop(P, m1, s, st1, n), Loop(P, m2, s, st2, n), false)
    decreases n, s, 0
  {
    var u1 := CheckExpr(S, s.cond, false, u0);
    var u2 := Check(S, V, s.post, false, u1);
    LoopGrows(P, S, V, s, u0);
    AlikeValue(P, S, m1, m2, V, s.cond, u0, st1.env, st2.env, st1.trace, st2.trace, n);
    var c1, c2 := ValueOf(P, m1, s.cond, st1.env, st1.trace, n), ValueOf(P, m2, s.cond, st2.env, st2.trace, n);
    if c1.v != 0 {
      var p1, p2 := st1.(trace := c1.trace), st2.(trace := c2.trace);
      AlikeRun(P, S, m1, m2, V, s.body, u2, true, p1, p2, n);
      var b1, b2 := Run(P, m1, s.body, p1, n), Run(P, m2, s.body, p2, n);
      SameCtrl(b1.o, b2.o, s.lbl);
      if LoopCtrl(b1.o, s.lbl).0 {
        AlikeRun(P, S, m1, m2, V, s.post, u1, false, b1.st, b2.st, n);
        AlikeLoop(P, S, m1, m2, V, s, u0, Run(P, m1, s.post, b1.st, n).st, Run(P, m2, s.post, b2.st, n).st, n - 1);
      }
    }
  }

  lemma SameCtrl(a: Outcome, b: Outcome, lbl: string)
    requires SameKind(a, b)
    ensures LoopCtrl(a, lbl).0 == LoopCtrl(b, lbl).0 && SameKind(LoopCtrl(a, lbl).1, LoopCtrl(b, lbl).1)
    ensures LoopCtrl(a, lbl).0 ==> !a.Ret?
    ensures !LoopCtrl(a, lbl).0 ==> (LoopCtrl(a, lbl).1.Ret? <==> a.Ret?)
  {
  }

  /** No part of a loop that all threads run alike has been reported, or sets the flag. */
  lemma LoopGrows(P: seq<Func>, S: seq<Use>, V: set<string>, s: Stmt, u0: Use)
    requires s.For? && !u0.leaves && Formed(P, |P|, s) && !Strict(s.body, false, false, V)
    ensures
      var u1 := CheckExpr(S, s.cond, false, u0);
      var u2 := Check(S, V, s.post, false, u1);
      var u3 := Check(S, V, s.body, false, u2);
      !u1.leaves && !u2.leaves && !u3.leaves && (!u3.reported ==> !u1.reported && !u2.reported)
  {
    var u1 := CheckExpr(S, s.cond, false, u0);
    var u2 := Check(S, V, s.post, false, u1);
    CheckExprGrows(S, s.cond, false, u0); CheckGrows(S, V, s.post, false, u1); CheckGrows(S, V, s.body, false, u2);
    SimpleLeaves(S, V, s.post, u1);
    NoExitNoReturn(P, |P|, S, V, s.body, false, false, u2);
  }

  lemma {:induction false} AlikeRange(P: seq<Func>, S: seq<Use>, m1: Machine, m2: Machine, V: set<string>,
      s: Stmt, u: Use, looped: bool, st1: State, st2: State, n: nat)
    requires s.Range? && !u.leaves && Setting(P, S, m1, m2) && Formed(P, |P|, s) && Covered(S, V, s)
    requires Mark(s, false, V) == V && Placed(V, s, looped)
    requires !Check(S, V, s, false, u).reported
    requires LowEq(V, st1.env, st2.env) && st1.trace.events == st2.trace.events
    requires Run(P, m1, s, st1, n).Done? && Run(P, m2, s, st2, n).Done?
    ensures Alike(V, Run(P, m1, s, st1, n), Run(P, m2, s, st2, n), Check(S, V, s, false, u).leaves)
    decreases n, s, 1
  {
    var e, b := s.limit, s.body;
    MarkParts(s, false, V);
    var u1 := CheckExpr(S, e, false, u);
    var inner := ForVaries(e, b, V);
    CheckExprGrows(S, e, false, u); CheckGrows(S, V, b, inner, u1);
    AlikeValue(P, S, m1, m2, V, e, u, st1.env, st2.env, st1.trace, st2.trace, n);
    var c1, c2 := ValueOf(P, m1, e, st1.env, st1.trace, n), ValueOf(P, m2, e, st2.env, st2.trace, n);
    var p1, p2 := st1.(trace := c1.trace), st2.(trace := c2.trace);
    if inner {
      DivergedRange(P, S, m1, V, s, u1, looped, c1.v, p1, n);
      DivergedRange(P, S, m2, V, s, u1, looped, c2.v, p2, n);
    } else {
      AlikeCount(P, S, m1, m2, V, s, u1, 0, c1.v, p1, p2, n);
    }
  }

  lemma DivergedRange(P: seq<Func>, S: seq<Use>, m: Machine, V: set<string>, s: Stmt, u1: Use, looped: bool, limit: int, st: State, n: nat)
    requires s.Range? && IsTable(P, S) && s.key in V && Mark(s.body, true, V) == V
    requires ForVaries(s.limit, s.body, V) && Placed(V, s, looped)
    requires !Check(S, V, s.body, true, u1).reported
    requires Count(P, m, s, 0, limit, st, n).Done?
    ensures
      var r := Count(P, m, s, 0, limit, st, n);
      r.st.trace.events == st.trace.events && LowEq(V, st.env, r.st.env)
      && (looped || !Check(S, V, s.body, true, u1).leaves ==> r.o == Next)
  {
    QuietStmt(S, V, s.body, true, u1);
    SilentCount(P, S, m, s, 0, limit, st, n);
    DivergedCount(P, V, m, s, 0, limit, st, n);
    CountBranches(P, m, s, 0, limit, st, n);
    if looped { NoExitNoBranch(s.body, true, V); }
    if HasReturn(s.body) { ReturnSetsFlag(S, V, s.body, u1); }
  }

  lemma {:induction false} AlikeCount(P: seq<Func>, S: seq<Use>, m1: Machine, m2: Machine, V: set<string>,
      s: Stmt, u1: Use, i: int, limit: int, st1: State, st2: State, n: nat)
    requires s.Range? && !u1.leaves && Setting(P, S, m1, m2) && Formed(P, |P|, s) && Covered(S, V, s)
    requires Mark(s.body, false, V) == V && !ForVaries(s.limit, s.body, V)
    requires !Check(S, V, s.body, false, u1).reported
    requires LowEq(V, st1.env, st2.env) && st1.trace.events == st2.trace.events
    requires Count(P, m1, s, i, limit, st1, n).Done? && Count(P, m2, s, i, limit, st2, n).Done?
    ensures Alike(V, Count(P, m1, s, i, limit, st1, n), Count(P, m2, s, i, limit, st2, n), false)
    decreases n, s, 0
  {
    NoExitNoReturn(P, |P|, S, V, s.body, false, false, u1);
    if i < limit {
      var p1, p2 := st1.(env := st1.env[s.key := i]), st2.(env := st2.env[s.key := i]);
      AlikeRun(P, S, m1, m2, V, s.body, u1, true, p1, p2, n);
      var b1, b2 := Run(P, m1, s.body, p1, n), Run(P, m2, s.body, p2, n);
      SameCtrl(b1.o, b2.o, s.lbl);
      if LoopCtrl(b1.o, s.lbl).0 {
        AlikeCount(P, S, m1, m2, V, s, u1, i + 1, limit, b1.st, b2.st, n - 1);
      }
    }
  }

  // Fuel

  lemma {:induction false} MoreValue(P: seq<Func>, m: Machine, e: Expr, env: map<string, int>, tr: Trace, n: nat, k: nat)
    requires n <= k && ValueOf(P, m, e, env, tr, n).Value?
    ensures ValueOf(P, m, e, env, tr, k) == ValueOf(P, m, e, env, tr, n)
    decreases n, e, 0
  {
    match e
    case Un(_, a) => MoreValue(P, m, a, env, tr, n, k);
    case Bin(_, a, b) => MoreValue(P, m, a, env, tr, n, k); MoreValue(P, m, b, env, ValueOf(P, m, a, env, tr, n).trace, n, k);
    case AndAlso(a, b) =>
      MoreValue(P, m, a, env, tr, n, k);
      var r := ValueOf(P, m, a, env, tr, n);
      if r.v != 0 { MoreValue(P, m, b, env, r.trace, n, k); }
    case OrElse(a, b) =>
      MoreValue(P, m, a, env, tr, n, k);
      var r := ValueOf(P, m, a, env, tr, n);
      if r.v == 0 { MoreValue(P, m, b, env, r.trace, n, k); }
    case Load(_, i) => MoreValue(P, m, i, env, tr, n, k);
    case Warp(_, a) => MoreValue(P, m, a, env, tr, n, k);
    case Call(f, args) =>
      MoreValues(P, m, args, env, tr, n, k);
      var q := Values(P, m, args, env, tr, n);
      if f < |P| { MoreRun(P, m, P[f].body, State(Bind(P[f].params, q.vs), q.trace), n - 1, k - 1); }
    case _ =>
  }

  lemma {:induction false} MoreValues(P: seq<Func>, m: Machine, es: seq<Expr>, env: map<string, int>, tr: Trace, n: nat, k: nat)
    requires n <= k && Values(P, m, es, env, tr, n).Args?
    ensures Values(P, m, es, env, tr, k) == Values(P, m, es, env, tr, n)
    decreases n, es, 0
  {
    if es != [] {
      MoreValue(P, m, es[0], env, tr, n, k);
      MoreValues(P, m, es[1..], env, ValueOf(P, m, es[0], env, tr, n).trace, n, k);
    }
  }

  lemma {:induction false} MoreRun(P: seq<Func>, m: Machine, s: Stmt, st: State, n: nat, k: nat)
    requires n <= k && Run(P, m, s, st, n).Done?
    ensures Run(P, m, s, st, k) == Run(P, m, s, st, n)
    decreases n, s, 1
  {
    match s
    case ExprStmt(e) => MoreValue(P, m, e, st.env, st.trace, n, k);
    case Assign(_, e) => MoreValue(P, m, e, st.env, st.trace, n, k);
    case Return(e) => MoreValue(P, m, e, st.env, st.trace, n, k);
    case Seq(a, b) =>
      MoreRun(P, m, a, st, n, k);
      var r := Run(P, m, a, st, n);
      if r.o == Next { MoreRun(P, m, b, r.st, n, k); }
    case If(i, c, a, b) =>
      MoreRun(P, m, i, st, n, k);
      var st1 := Run(P, m, i, st, n).st;
      MoreValue(P, m, c, st1.env, st1.trace, n, k);
      var r := ValueOf(P, m, c, st1.env, st1.trace, n);
      MoreRun(P, m, if r.v != 0 then a else b, st1.(trace := r.trace), n, k);
    case For(_, i, _, _, _) =>
      MoreRun(P, m, i, st, n, k);
      MoreLoop(P, m, s, Run(P, m, i, st, n).st, n, k);
    case Range(_, _, e, _) =>
      MoreValue(P, m, e, st.env, st.trace, n, k);
      var r := ValueOf(P, m, e, st.env, st.trace, n);
      MoreCount(P, m, s, 0, r.v, st.(trace := r.trace), n, k);
    case _ =>
  }

  lemma {:induction false} MoreLoop(P: seq<Func>, m: Machine, s: Stmt, st: State, n: nat, k: nat)
    requires n <= k && s.For? && Loop(P, m, s, st, n).Done?
    ensures Loop(P, m, s, st, k) == Loop(P, m, s, st, n)
    decreases n, s, 0
  {
    MoreValue(P, m, s.cond, st.env, st.trace, n, k);
    var c := ValueOf(P, m, s.cond, st.env, st.trace, n);
    if c.v != 0 {
      MoreRun(P, m, s.body, st.(trace := c.trace), n, k);
      var b := Run(P, m, s.body, st.(trace := c.trace), n);
      if LoopCtrl(b.o, s.lbl).0 {
        MoreRun(P, m, s.post, b.st, n, k);
        MoreLoop(P, m, s, Run(P, m, s.post, b.st, n).st, n - 1, k - 1);
      }
    }
  }

  lemma {:induction false} MoreCount(P: seq<Func>, m: Machine, s: Stmt, i: int, limit: int, st: State, n: nat, k: nat)
    requires n <= k && s.Range? && Count(P, m, s, i, limit, st, n).Done?
    ensures Count(P, m, s, i, limit, st, k) == Count(P, m, s, i, limit, st, n)
    decreases n, s, 0
  {
    if i < limit {
      var st1 := st.(env := st.env[s.key := i]);
      MoreRun(P, m, s.body, st1, n, k);
      var b := Run(P, m, s.body, st1, n);
      if LoopCtrl(b.o, s.lbl).0 { MoreCount(P, m, s, i + 1, limit, b.st, n - 1, k - 1); }
    }
  }

  // The theorem

  /** A kernel the check accepts: two threads of a block that start alike, whatever their own
      coordinates, shuffles and atomics answer and however long each takes, execute the same
      sequence of barriers and warp operations, those inside device functions included. */
  lemma DivergenceSound(P: seq<Func>, body: Stmt, m1: Machine, m2: Machine,
      env1: map<string, int>, env2: map<string, int>, n1: nat, n2: nat)
    requires Program(P) && Formed(P, |P|, body) && Targets(body) == {}
    requires CoveredProgram(P, Table(P)) && Covered(Table(P), Fixpoint(body, {}), body)
    requires !CheckKernel(P, body).reported
    requires m1.block == m2.block && LowEq(Fixpoint(body, {}), env1, env2)
    requires Run(P, m1, body, State(env1, Trace([], 0)), n1).Done? && Run(P, m2, body, State(env2, Trace([], 0)), n2).Done?
    ensures Run(P, m1, body, State(env1, Trace([], 0)), n1).st.trace.events == Run(P, m2, body, State(env2, Trace([], 0)), n2).st.trace.events
  {
    var S, V := Table(P), Fixpoint(body, {});
    forall k | 0 <= k < |P| ensures S[k] == Summary(S, P[k]) { TableIsSummary(P, k); }
    var n := n1 + n2;
    MoreRun(P, m1, body, State(env1, Trace([], 0)), n1, n);
    MoreRun(P, m2, body, State(env2, Trace([], 0)), n2, n);
    AlikeRun(P, S, m1, m2, V, body, NOTHING, false, State(env1, Trace([], 0)), State(env2, Trace([], 0)), n);
  }

  /** Two threads the check lets through also finish in step: without a return, they leave the kernel
      holding the same value in every variable it calls uniform. */
  lemma UniformAtExit(P: seq<Func>, body: Stmt, m1: Machine, m2: Machine,
      env1: map<string, int>, env2: map<string, int>, n1: nat, n2: nat)
    requires Program(P) && Formed(P, |P|, body) && Targets(body) == {}
    requires CoveredProgram(P, Table(P)) && Covered(Table(P), Fixpoint(body, {}), body)
    requires !CheckKernel(P, body).reported && !HasReturn(body)
    requires m1.block == m2.block && LowEq(Fixpoint(body, {}), env1, env2)
    requires Run(P, m1, body, State(env1, Trace([], 0)), n1).Done? && Run(P, m2, body, State(env2, Trace([], 0)), n2).Done?
    ensures LowEq(Fixpoint(body, {}),
      Run(P, m1, body, State(env1, Trace([], 0)), n1).st.env, Run(P, m2, body, State(env2, Trace([], 0)), n2).st.env)
  {
    var S, V := Table(P), Fixpoint(body, {});
    forall k | 0 <= k < |P| ensures S[k] == Summary(S, P[k]) { TableIsSummary(P, k); }
    var n := n1 + n2;
    MoreRun(P, m1, body, State(env1, Trace([], 0)), n1, n);
    MoreRun(P, m2, body, State(env2, Trace([], 0)), n2, n);
    AlikeRun(P, S, m1, m2, V, body, NOTHING, false, State(env1, Trace([], 0)), State(env2, Trace([], 0)), n);
    NoReturnNoFlag(P, |P|, S, V, body, false, NOTHING);
    BranchIsTarget(P, m1, body, State(env1, Trace([], 0)), n);
  }

  /** A shape a reader can see: no return or labelled branch inside a loop inside a loop, and nothing
      collective right of && or ||. */
  predicate Shallow(S: seq<Use>, s: Stmt, depth: nat) {
    match s
    case ExprStmt(e) => ShallowE(S, e)
    case Assign(_, e) => ShallowE(S, e)
    case Return(e) => depth < 2 && ShallowE(S, e)
    case Break(l) => depth < 2 || l == ""
    case Continue(l) => depth < 2 || l == ""
    case Seq(a, b) => Shallow(S, a, depth) && Shallow(S, b, depth)
    case If(i, c, a, b) => Shallow(S, i, depth) && ShallowE(S, c) && Shallow(S, a, depth) && Shallow(S, b, depth)
    case For(_, i, c, p, b) => Shallow(S, i, depth) && ShallowE(S, c) && Shallow(S, p, depth) && Shallow(S, b, depth + 1)
    case Range(_, _, e, b) => ShallowE(S, e) && Shallow(S, b, depth + 1)
    case _ => true
  }

  predicate ShallowE(S: seq<Use>, e: Expr)
    decreases e, 0
  {
    match e
    case Un(_, a) => ShallowE(S, a)
    case Bin(_, a, b) => ShallowE(S, a) && ShallowE(S, b)
    case AndAlso(a, b) => SilentE(S, b) && ShallowE(S, a) && ShallowE(S, b)
    case OrElse(a, b) => SilentE(S, b) && ShallowE(S, a) && ShallowE(S, b)
    case Load(_, i) => ShallowE(S, i)
    case Warp(_, a) => ShallowE(S, a)
    case Call(_, args) => ShallowEs(S, args)
    case _ => true
  }

  predicate ShallowEs(S: seq<Use>, es: seq<Expr>)
    decreases es, 0
  {
    es == [] || (ShallowE(S, es[0]) && ShallowEs(S, es[1..]))
  }

  lemma {:induction false} ShallowCoversE(S: seq<Use>, V: set<string>, e: Expr)
    requires ShallowE(S, e)
    ensures CoveredE(S, V, e)
    decreases e, 0
  {
    match e
    case Un(_, a) => ShallowCoversE(S, V, a);
    case Bin(_, a, b) => ShallowCoversE(S, V, a); ShallowCoversE(S, V, b);
    case AndAlso(a, b) => ShallowCoversE(S, V, a); ShallowCoversE(S, V, b);
    case OrElse(a, b) => ShallowCoversE(S, V, a); ShallowCoversE(S, V, b);
    case Load(_, i) => ShallowCoversE(S, V, i);
    case Warp(_, a) => ShallowCoversE(S, V, a);
    case Call(_, args) => ShallowCoversEs(S, V, args);
    case _ =>
  }

  lemma {:induction false} ShallowCoversEs(S: seq<Use>, V: set<string>, es: seq<Expr>)
    requires ShallowEs(S, es)
    ensures CoveredEs(S, V, es)
    decreases es, 0
  {
    if es != [] { ShallowCoversE(S, V, es[0]); ShallowCoversEs(S, V, es[1..]); }
  }

  /** Two loops deep in a shallow body there is nothing either walk counts. */
  lemma {:induction false} NoDeepExits(S: seq<Use>, V: set<string>, s: Stmt, depth: nat, div: bool)
    requires depth >= 2 && Shallow(S, s, depth)
    ensures !Strict(s, div, true, V)
  {
    match s
    case Seq(a, b) => NoDeepExits(S, V, a, depth, div); NoDeepExits(S, V, b, depth, div);
    case If(_, c, a, b) => NoDeepExits(S, V, a, depth, div || Varies(c, V)); NoDeepExits(S, V, b, depth, div || Varies(c, V));
    case For(_, _, c, _, b) => NoDeepExits(S, V, b, depth + 1, div || ForVaries(c, b, V));
    case Range(_, _, e, b) => NoDeepExits(S, V, b, depth + 1, div || ForVaries(e, b, V));
    case _ =>
  }

  lemma {:induction false} ShallowExits(S: seq<Use>, V: set<string>, s: Stmt, depth: nat, div: bool)
    requires depth >= 1 && Shallow(S, s, depth) && Strict(s, div, false, V)
    ensures Exits(s, div, false, V)
  {
    match s
    case Seq(a, b) => if Strict(a, div, false, V) { ShallowExits(S, V, a, depth, div); } else { ShallowExits(S, V, b, depth, div); }
    case If(_, c, a, b) =>
      var inner := div || Varies(c, V);
      if Strict(a, inner, false, V) { ShallowExits(S, V, a, depth, inner); } else { ShallowExits(S, V, b, depth, inner); }
    case For(_, _, c, _, b) => NoDeepExits(S, V, b, depth + 1, div || ForVaries(c, b, V));
    case Range(_, _, e, b) => NoDeepExits(S, V, b, depth + 1, div || ForVaries(e, b, V));
    case _ =>
  }

  /** Every shallow body is covered, so for shallow kernels acceptance alone is enough. */
  lemma {:induction false} ShallowIsCovered(S: seq<Use>, V: set<string>, s: Stmt, depth: nat)
    requires Shallow(S, s, depth)
    ensures Covered(S, V, s)
    decreases s, 1
  {
    match s
    case ExprStmt(e) => ShallowCoversE(S, V, e);
    case Assign(_, e) => ShallowCoversE(S, V, e);
    case Return(e) => ShallowCoversE(S, V, e);
    case Seq(a, b) => ShallowIsCovered(S, V, a, depth); ShallowIsCovered(S, V, b, depth);
    case If(i, c, a, b) =>
      ShallowCoversE(S, V, c);
      ShallowIsCovered(S, V, i, depth); ShallowIsCovered(S, V, a, depth); ShallowIsCovered(S, V, b, depth);
    case For(_, _, _, _, _) => ShallowFor(S, V, s, depth);
    case Range(_, _, e, b) =>
      ShallowCoversE(S, V, e);
      ShallowIsCovered(S, V, b, depth + 1);
      ShallowBody(S, V, b, depth);
    case _ =>
  }

  lemma {:induction false} ShallowFor(S: seq<Use>, V: set<string>, s: Stmt, depth: nat)
    requires s.For? && Shallow(S, s, depth)
    ensures Covered(S, V, s)
    decreases s, 0
  {
    ShallowCoversE(S, V, s.cond);
    ShallowIsCovered(S, V, s.init, depth); ShallowIsCovered(S, V, s.post, depth); ShallowIsCovered(S, V, s.body, depth + 1);
    ShallowBody(S, V, s.body, depth);
  }

  lemma ShallowBody(S: seq<Use>, V: set<string>, b: Stmt, depth: nat)
    requires Shallow(S, b, depth + 1)
    ensures Strict(b, false, false, V) ==> Exits(b, false, false, V)
  {
    if Strict(b, false, false, V) { ShallowExits(S, V, b, depth + 1, false); }
  }
}
