/** What the divergence check refuses, read off the text of a kernel alone: a collective operation that
    stands under, or after a return under, a condition that depends on the thread by a chain of data and
    control. */
module DivergeText {
  import opened DivergeLang
  import opened DivergeCheck

  // What a variable depends on

  /** The expressions in e, itself included. */
  function Parts(e: Expr): set<Expr>
    decreases e, 0
  {
    {e} +
    match e
    case Un(_, a) => Parts(a)
    case Bin(_, a, b) => Parts(a) + Parts(b)
    case AndAlso(a, b) => Parts(a) + Parts(b)
    case OrElse(a, b) => Parts(a) + Parts(b)
    case Load(_, i) => Parts(i)
    case Warp(_, a) => Parts(a)
    case Call(_, args) => AllParts(args)
    case _ => {}
  }

  function AllParts(es: seq<Expr>): set<Expr>
    decreases es, 0
  {
    if es == [] then {} else Parts(es[0]) + AllParts(es[1..])
  }

  /** A value a thread may have for itself. */
  predicate Own(e: Expr) { e.PerThread? || e.Warp? || e.Call? }

  predicate Reads(e: Expr, x: string) { Var(x) in Parts(e) }

  /** e holds such a value, or one of these variables. */
  predicate Starts(e: Expr, V: set<string>) {
    exists p :: p in Parts(e) && (Own(p) || (p.Var? && p.x in V))
  }

  /** An exit of the loop that s is in the body of; a bare one inside another loop is that loop's. */
  predicate CanExit(s: Stmt, nested: bool) {
    match s
    case Break(l) => l != "" || !nested
    case Continue(l) => l != "" || !nested
    case Return(_) => true
    case Seq(a, b) => CanExit(a, nested) || CanExit(b, nested)
    case If(_, _, a, b) => CanExit(a, nested) || CanExit(b, nested)
    case For(_, _, _, _, b) => CanExit(b, true)
    case Range(_, _, _, b) => CanExit(b, true)
    case _ => false
  }

  /** The conditions an exit stands under, those of ifs and of loops in between.  The limit of a range in
      between is not among them. */
  function ExitGuards(s: Stmt, nested: bool): set<Expr> {
    match s
    case Seq(a, b) => ExitGuards(a, nested) + ExitGuards(b, nested)
    case If(_, c, a, b) =>
      ExitGuards(a, nested) + ExitGuards(b, nested) + if CanExit(a, nested) || CanExit(b, nested) then {c} else {}
    case For(_, _, c, _, b) => ExitGuards(b, true) + if CanExit(b, true) then {c} else {}
    case Range(_, _, _, b) => ExitGuards(b, true)
    case _ => {}
  }

  /** What decides how often a loop goes round. */
  function Controls(c: Expr, body: Stmt): set<Expr> { {c} + ExitGuards(body, false) }

  /** x is given a value made of e, or is given a value or not as e decides. */
  datatype Edge = Edge(e: Expr, x: string)

  function Decides(cs: set<Expr>, xs: set<string>): set<Edge> { set c, x | c in cs && x in xs :: Edge(c, x) }

  function Edges(s: Stmt): set<Edge> {
    match s
    case Assign(x, e) => {Edge(e, x)}
    case Seq(a, b) => Edges(a) + Edges(b)
    case If(i, c, a, b) => Edges(i) + Edges(a) + Edges(b) + Decides({c}, Assigned(a) + Assigned(b))
    case For(_, i, c, p, b) => Edges(i) + Edges(p) + Edges(b) + Decides(Controls(c, b), Assigned(p) + Assigned(b))
    case Range(_, k, e, b) => Edges(b) + Decides(Controls(e, b), {k} + Assigned(b))
    case _ => {}
  }

  /** A chain of dependences of s that starts at a value of the thread's own, or at a variable of V. */
  predicate Chain(s: Stmt, V: set<string>, links: seq<Edge>) {
    && links != [] && Starts(links[0].e, V)
    && (forall i :: 0 <= i < |links| ==> links[i] in Edges(s))
    && forall i :: 0 < i < |links| ==> Reads(links[i].e, links[i - 1].x)
  }

  ghost predicate Reached(s: Stmt, V: set<string>, x: string) {
    x in V || exists links: seq<Edge> :: Chain(s, V, links) && links[|links| - 1].x == x
  }

  /** e depends on the thread, in s, the variables of V doing so from the start. */
  ghost predicate Depends(s: Stmt, V: set<string>, e: Expr) {
    exists p :: p in Parts(e) && (Own(p) || (p.Var? && Reached(s, V, p.x)))
  }

  // Where a kernel gathers its threads

  /** In the order of the walk, each under the conditions that decide which threads come to it. */
  datatype Point =
    | AtBarrier(under: set<Expr>)
    | AtWarp(under: set<Expr>)
    | AtCall(f: nat, under: set<Expr>)
    | AtReturn(under: set<Expr>)

  function PointsIn(e: Expr, g: set<Expr>): seq<Point>
    decreases e, 0
  {
    match e
    case Un(_, a) => PointsIn(a, g)
    case Bin(_, a, b) => PointsIn(a, g) + PointsIn(b, g)
    case AndAlso(a, b) => PointsIn(a, g) + PointsIn(b, g)
    case OrElse(a, b) => PointsIn(a, g) + PointsIn(b, g)
    case Load(_, i) => PointsIn(i, g)
    case Warp(_, a) => [AtWarp(g)] + PointsIn(a, g)
    case Call(f, args) => [AtCall(f, g)] + AllPointsIn(args, g)
    case _ => []
  }

  function AllPointsIn(es: seq<Expr>, g: set<Expr>): seq<Point>
    decreases es, 0
  {
    if es == [] then [] else PointsIn(es[0], g) + AllPointsIn(es[1..], g)
  }

  function Points(s: Stmt, g: set<Expr>): seq<Point> {
    match s
    case Barrier => [AtBarrier(g)]
    case ExprStmt(e) => PointsIn(e, g)
    case Assign(_, e) => PointsIn(e, g)
    case Seq(a, b) => Points(a, g) + Points(b, g)
    case If(i, c, a, b) => Points(i, g) + PointsIn(c, g) + (Points(a, g + {c}) + Points(b, g + {c}))
    case For(_, i, c, p, b) =>
      var inner := g + Controls(c, b);
      Points(i, g) + PointsIn(c, inner) + (Points(p, inner) + Points(b, inner))
    case Range(_, _, e, b) => PointsIn(e, g) + Points(b, g + Controls(e, b))
    case Return(e) => PointsIn(e, g) + [AtReturn(g)]
    case _ => []
  }

  /** Function f holds a barrier or a warp operation, or calls one that does. */
  ghost predicate Gathers(P: seq<Func>, f: nat)
    requires f < |P|
    decreases f
  {
    exists i :: 0 <= i < |Points(P[f].body, {})| &&
      var p := Points(P[f].body, {})[i];
      p.AtBarrier? || p.AtWarp? || (p.AtCall? && p.f < f && Gathers(P, p.f))
  }

  ghost predicate Collective(P: seq<Func>, p: Point) {
    p.AtBarrier? || p.AtWarp? || (p.AtCall? && p.f < |P| && Gathers(P, p.f))
  }

  /** Which threads come to p depends on the thread. */
  ghost predicate Apart(s: Stmt, V: set<string>, p: Point) { exists c :: c in p.under && Depends(s, V, c) }

  /** The i-th point of s gathers threads that some never reach, or have left before it. */
  ghost predicate Misses(P: seq<Func>, s: Stmt, V: set<string>, i: nat)
    requires i < |Points(s, {})|
  {
    var ps := Points(s, {});
    Collective(P, ps[i]) && (Apart(s, V, ps[i]) || exists j :: 0 <= j < i && ps[j].AtReturn? && Apart(s, V, ps[j]))
  }

  /** A device function, whose parameters are taken to depend on the thread, does so somewhere, or calls
      one that does. */
  ghost predicate FuncDiverges(P: seq<Func>, f: nat)
    requires f < |P|
    decreases f
  {
    exists i :: 0 <= i < |Points(P[f].body, {})| &&
      var p := Points(P[f].body, {})[i];
      Misses(P, P[f].body, SetOf(P[f].params), i) || (p.AtCall? && p.f < f && FuncDiverges(P, p.f))
  }

  /** So does a kernel, whose parameters are the launch's. */
  ghost predicate KernelDiverges(P: seq<Func>, body: Stmt) {
    exists i :: 0 <= i < |Points(body, {})| &&
      var p := Points(body, {})[i];
      Misses(P, body, {}, i) || (p.AtCall? && p.f < |P| && FuncDiverges(P, p.f))
  }

  // Varying is depending.

  lemma {:induction false} VariesIs(e: Expr, V: set<string>)
    ensures Varies(e, V) <==> Starts(e, V)
  {
    match e
    case Un(_, a) => OneStarts(e, a, V); VariesIs(a, V);
    case Bin(_, a, b) => TwoStart(e, a, b, V); VariesIs(a, V); VariesIs(b, V);
    case AndAlso(a, b) => TwoStart(e, a, b, V); VariesIs(a, V); VariesIs(b, V);
    case OrElse(a, b) => TwoStart(e, a, b, V); VariesIs(a, V); VariesIs(b, V);
    case Load(_, i) => OneStarts(e, i, V); VariesIs(i, V);
    case Warp(_, _) => assert e in Parts(e);
    case Call(_, _) => assert e in Parts(e);
    case _ => assert e in Parts(e);
  }

  lemma OneStarts(e: Expr, a: Expr, V: set<string>)
    requires Parts(e) == {e} + Parts(a) && !Own(e) && !e.Var?
    ensures Starts(e, V) <==> Starts(a, V)
  {
  }

  lemma TwoStart(e: Expr, a: Expr, b: Expr, V: set<string>)
    requires Parts(e) == {e} + (Parts(a) + Parts(b)) && !Own(e) && !e.Var?
    ensures Starts(e, V) <==> Starts(a, V) || Starts(b, V)
  {
  }

  predicate AnyVaries(cs: set<Expr>, V: set<string>) { exists c :: c in cs && Varies(c, V) }

  lemma AnyOfBoth(a: set<Expr>, b: set<Expr>, V: set<string>)
    ensures AnyVaries(a + b, V) <==> AnyVaries(a, V) || AnyVaries(b, V)
  {
  }

  lemma AnyOfOne(c: Expr, V: set<string>)
    ensures AnyVaries({c}, V) <==> Varies(c, V)
  {
    assert c in {c};
  }

  lemma {:induction false} ExitsIs(s: Stmt, div: bool, nested: bool, V: set<string>)
    ensures Exits(s, div, nested, V) <==> (div && CanExit(s, nested)) || AnyVaries(ExitGuards(s, nested), V)
  {
    match s
    case Seq(a, b) =>
      ExitsIs(a, div, nested, V); ExitsIs(b, div, nested, V);
      AnyOfBoth(ExitGuards(a, nested), ExitGuards(b, nested), V);
    case If(_, c, a, b) =>
      ExitsIs(a, div || Varies(c, V), nested, V); ExitsIs(b, div || Varies(c, V), nested, V);
      AnyOfOne(c, V);
      AnyOfBoth(ExitGuards(a, nested), ExitGuards(b, nested), V);
      AnyOfBoth(ExitGuards(a, nested) + ExitGuards(b, nested), if CanExit(a, nested) || CanExit(b, nested) then {c} else {}, V);
    case For(_, _, c, _, b) =>
      ExitsIs(b, div || Varies(c, V), true, V);
      AnyOfOne(c, V);
      AnyOfBoth(ExitGuards(b, true), if CanExit(b, true) then {c} else {}, V);
    case Range(_, _, _, b) => ExitsIs(b, div, true, V);
    case _ =>
  }

  lemma ForVariesIs(c: Expr, b: Stmt, V: set<string>)
    ensures ForVaries(c, b, V) <==> AnyVaries(Controls(c, b), V)
  {
    ExitsIs(b, false, false, V);
    AnyOfOne(c, V);
    AnyOfBoth({c}, ExitGuards(b, false), V);
  }

  lemma {:induction false} MarkAll(s: Stmt, V: set<string>)
    ensures Mark(s, true, V) == V + Assigned(s)
  {
    match s
    case Seq(a, b) => MarkAll(a, V); MarkAll(b, V + Assigned(a));
    case If(i, c, a, b) => MarkAll(i, V); MarkAll(a, V + Assigned(i)); MarkAll(b, V + Assigned(i) + Assigned(a));
    case For(_, i, c, p, b) => MarkAll(i, V); MarkAll(p, V + Assigned(i)); MarkAll(b, V + Assigned(i) + Assigned(p));
    case Range(_, k, e, b) => MarkAll(b, V + {k});
    case _ =>
  }

  /** What an edge leaves varying varies. */
  predicate Closed(es: set<Edge>, V: set<string>) { forall d :: d in es && Varies(d.e, V) ==> d.x in V }

  lemma ClosedBoth(a: set<Edge>, b: set<Edge>, V: set<string>)
    ensures Closed(a + b, V) <==> Closed(a, V) && Closed(b, V)
  {
  }

  lemma ClosedDecides(cs: set<Expr>, xs: set<string>, V: set<string>)
    ensures Closed(Decides(cs, xs), V) <==> (AnyVaries(cs, V) ==> xs <= V)
  {
    if Closed(Decides(cs, xs), V) && AnyVaries(cs, V) {
      var c :| c in cs && Varies(c, V);
      forall x | x in xs ensures x in V { assert Edge(c, x) in Decides(cs, xs); }
    }
  }

  lemma {:induction false} EdgesAssign(s: Stmt, d: Edge)
    requires d in Edges(s)
    ensures d.x in Assigned(s)
  {
    match s
    case Seq(a, b) => if d in Edges(a) { EdgesAssign(a, d); } else { EdgesAssign(b, d); }
    case If(i, c, a, b) =>
      if d in Edges(i) { EdgesAssign(i, d); } else if d in Edges(a) { EdgesAssign(a, d); } else if d in Edges(b) { EdgesAssign(b, d); }
    case For(_, i, c, p, b) =>
      if d in Edges(i) { EdgesAssign(i, d); } else if d in Edges(p) { EdgesAssign(p, d); } else if d in Edges(b) { EdgesAssign(b, d); }
    case Range(_, k, e, b) => if d in Edges(b) { EdgesAssign(b, d); }
    case _ =>
  }

  lemma AllAssigned(s: Stmt, V: set<string>)
    requires Assigned(s) <= V
    ensures Closed(Edges(s), V)
  {
    forall d | d in Edges(s) ensures d.x in V { EdgesAssign(s, d); }
  }

  /** Code whose threads part when inner is set leaves V as it is. */
  predicate Settled(s: Stmt, inner: bool, V: set<string>) { Closed(Edges(s), V) && (inner ==> Assigned(s) <= V) }

  lemma {:induction false} MarkSettles(s: Stmt, inner: bool, V: set<string>)
    ensures Mark(s, inner, V) == V <==> Settled(s, inner, V)
    decreases s, 1
  {
    if inner {
      MarkAll(s, V);
      if Assigned(s) <= V { AllAssigned(s, V); }
    } else {
      MarkCloses(s, V);
    }
  }

  lemma BothSettle(a: Stmt, b: Stmt, inner: bool, V: set<string>)
    ensures Mark(b, inner, Mark(a, inner, V)) == V <==> Mark(a, inner, V) == V && Mark(b, inner, V) == V
  {
  }

  lemma {:induction false} MarkCloses(s: Stmt, V: set<string>)
    ensures Mark(s, false, V) == V <==> Closed(Edges(s), V)
    decreases s, 0
  {
    match s
    case Assign(x, e) => assert Edge(e, x) in Edges(s);
    case Seq(a, b) =>
      MarkSettles(a, false, V); MarkSettles(b, false, V);
      BothSettle(a, b, false, V);
      ClosedBoth(Edges(a), Edges(b), V);
    case If(i, c, a, b) =>
      MarkSettles(i, false, V); MarkSettles(a, Varies(c, V), V); MarkSettles(b, Varies(c, V), V);
      AnyOfOne(c, V);
      Branches(i, a, b, Varies(c, V), {c}, V);
      assert Mark(s, false, V) == V ==> Mark(i, false, V) == V;
    case For(_, i, c, p, b) =>
      MarkSettles(i, false, V); MarkSettles(p, ForVaries(c, b, V), V); MarkSettles(b, ForVaries(c, b, V), V);
      ForVariesIs(c, b, V);
      Branches(i, p, b, ForVaries(c, b, V), Controls(c, b), V);
      assert Mark(s, false, V) == V ==> Mark(i, false, V) == V;
    case Range(_, k, e, b) =>
      if k in V { assert V + {k} == V; } else { assert V + {k} <= Mark(b, ForVaries(e, b, V), V + {k}); }
      MarkSettles(b, ForVaries(e, b, V), V);
      ForVariesIs(e, b, V);
      ClosedBoth(Edges(b), Decides(Controls(e, b), {k} + Assigned(b)), V);
      ClosedDecides(Controls(e, b), {k} + Assigned(b), V);
    case _ =>
  }

  /** A statement, and two more under conditions that vary or not. */
  lemma Branches(i: Stmt, a: Stmt, b: Stmt, inner: bool, cs: set<Expr>, V: set<string>)
    requires inner == AnyVaries(cs, V)
    ensures Closed(Edges(i) + Edges(a) + Edges(b) + Decides(cs, Assigned(a) + Assigned(b)), V) <==>
      Closed(Edges(i), V) && Settled(a, inner, V) && Settled(b, inner, V)
    ensures Mark(b, inner, Mark(a, inner, V)) == V <==> Mark(a, inner, V) == V && Mark(b, inner, V) == V
  {
    ClosedBoth(Edges(i), Edges(a), V);
    ClosedBoth(Edges(i) + Edges(a), Edges(b), V);
    ClosedBoth(Edges(i) + Edges(a) + Edges(b), Decides(cs, Assigned(a) + Assigned(b)), V);
    ClosedDecides(cs, Assigned(a) + Assigned(b), V);
    BothSettle(a, b, inner, V);
  }

  lemma {:induction false} ChainVaries(s: Stmt, V: set<string>, links: seq<Edge>, k: nat)
    requires Chain(s, V, links) && k < |links|
    ensures links[k].x in Fixpoint(s, V)
  {
    var W := Fixpoint(s, V);
    MarkCloses(s, W);
    VariesIs(links[k].e, W);
    if k == 0 {
      var p :| p in Parts(links[0].e) && (Own(p) || (p.Var? && p.x in V));
      assert Starts(links[0].e, W);
    } else {
      ChainVaries(s, V, links, k - 1);
      assert Reads(links[k].e, links[k - 1].x);
      assert Starts(links[k].e, W) by { assert Var(links[k - 1].x) in Parts(links[k].e); }
    }
  }

  /** A dependence on what is reached reaches, too. */
  lemma ReachesOn(s: Stmt, V: set<string>, d: Edge, p: Expr)
    requires d in Edges(s) && p in Parts(d.e) && (Own(p) || (p.Var? && Reached(s, V, p.x)))
    ensures Reached(s, V, d.x)
  {
    if Own(p) || p.x in V {
      FirstLink(s, V, d, p);
    } else {
      var before: seq<Edge> :| Chain(s, V, before) && before[|before| - 1].x == p.x;
      NextLink(s, V, before, d);
    }
  }

  lemma FirstLink(s: Stmt, V: set<string>, d: Edge, p: Expr)
    requires d in Edges(s) && p in Parts(d.e) && (Own(p) || (p.Var? && p.x in V))
    ensures Reached(s, V, d.x)
  {
    var links := [d];
    assert Starts(links[0].e, V);
    assert Chain(s, V, links) && links[|links| - 1].x == d.x;
  }

  lemma NextLink(s: Stmt, V: set<string>, before: seq<Edge>, d: Edge)
    requires Chain(s, V, before) && d in Edges(s) && Reads(d.e, before[|before| - 1].x)
    ensures Reached(s, V, d.x)
  {
    var links := before + [d];
    assert forall i :: 0 <= i < |before| ==> links[i] == before[i];
    assert Chain(s, V, links) && links[|links| - 1].x == d.x;
  }

  /** The fixpoint is exactly what such chains reach. */
  lemma ReachedIsFixpoint(s: Stmt, V: set<string>, x: string)
    ensures x in Fixpoint(s, V) <==> Reached(s, V, x)
  {
    if Reached(s, V, x) && x !in V {
      var links: seq<Edge> :| Chain(s, V, links) && links[|links| - 1].x == x;
      ChainVaries(s, V, links, |links| - 1);
    }
    OnlyReached(s, V);
  }

  lemma OnlyReached(s: Stmt, V: set<string>)
    ensures forall x :: x in Fixpoint(s, V) ==> Reached(s, V, x)
  {
    var F := Fixpoint(s, V);
    ghost var W := set x | x in F && Reached(s, V, x);
    MarkCloses(s, F);
    forall d | d in Edges(s) && Varies(d.e, W) ensures d.x in W {
      VariesMore(d.e, W, F);
      VariesIs(d.e, W);
      var p :| p in Parts(d.e) && (Own(p) || (p.Var? && p.x in W));
      ReachesOn(s, V, d, p);
    }
    MarkCloses(s, W);
    FixpointIsLeast(s, V, W);
  }

  /** The check takes an expression to vary exactly if it depends on the thread. */
  lemma VariesIsDepends(s: Stmt, V: set<string>, e: Expr)
    ensures Varies(e, Fixpoint(s, V)) <==> Depends(s, V, e)
  {
    VariesIs(e, Fixpoint(s, V));
    forall x ensures x in Fixpoint(s, V) <==> Reached(s, V, x) { ReachedIsFixpoint(s, V, x); }
  }

  // The walk is a walk over the points.

  function SeeOne(S: seq<Use>, V: set<string>, p: Point, u: Use): Use {
    var at := AnyVaries(p.under, V);
    match p
    case AtBarrier(_) => Report(at, u.(barrier := true))
    case AtWarp(_) => Report(at, u.(warp := true))
    case AtCall(f, _) => if f < |S| then CheckCall(S[f], at, u) else u
    case AtReturn(_) => if at then u.(leaves := true) else u
  }

  /** After the first n points. */
  function See(S: seq<Use>, V: set<string>, ps: seq<Point>, n: nat, u: Use): Use
    requires n <= |ps|
  {
    if n == 0 then u else SeeOne(S, V, ps[n - 1], See(S, V, ps, n - 1, u))
  }

  lemma {:induction false} SeeJoin(S: seq<Use>, V: set<string>, a: seq<Point>, b: seq<Point>, n: nat, u: Use)
    requires n <= |b|
    ensures See(S, V, a + b, |a| + n, u) == See(S, V, b, n, See(S, V, a, |a|, u))
  {
    if n == 0 {
      SeePart(S, V, a, b, |a|, u);
    } else {
      SeeJoin(S, V, a, b, n - 1, u);
    }
  }

  lemma {:induction false} SeePart(S: seq<Use>, V: set<string>, a: seq<Point>, b: seq<Point>, n: nat, u: Use)
    requires n <= |a|
    ensures See(S, V, a + b, n, u) == See(S, V, a, n, u)
  {
    if n > 0 { SeePart(S, V, a, b, n - 1, u); }
  }

  function SeeAll(S: seq<Use>, V: set<string>, ps: seq<Point>, u: Use): Use { See(S, V, ps, |ps|, u) }

  lemma SeeBoth(S: seq<Use>, V: set<string>, a: seq<Point>, b: seq<Point>, u: Use)
    ensures SeeAll(S, V, a + b, u) == SeeAll(S, V, b, SeeAll(S, V, a, u))
  {
    SeeJoin(S, V, a, b, |b|, u);
  }

  lemma SeeSingle(S: seq<Use>, V: set<string>, p: Point, u: Use)
    ensures SeeAll(S, V, [p], u) == SeeOne(S, V, p, u)
  {
    assert See(S, V, [p], 0, u) == u;
  }

  lemma {:induction false} ExprIsSeen(S: seq<Use>, V: set<string>, e: Expr, g: set<Expr>, u: Use)
    ensures CheckExpr(S, e, AnyVaries(g, V), u) == SeeAll(S, V, PointsIn(e, g), u)
    decreases e, 1
  {
    var at := AnyVaries(g, V);
    match e
    case Un(_, a) => ExprIsSeen(S, V, a, g, u);
    case Bin(_, a, b) => PairIsSeen(S, V, e, a, b, g, u);
    case AndAlso(a, b) => PairIsSeen(S, V, e, a, b, g, u);
    case OrElse(a, b) => PairIsSeen(S, V, e, a, b, g, u);
    case Load(_, i) => ExprIsSeen(S, V, i, g, u);
    case Warp(_, a) =>
      SeeBoth(S, V, [AtWarp(g)], PointsIn(a, g), u);
      SeeSingle(S, V, AtWarp(g), u);
      ExprIsSeen(S, V, a, g, Report(at, u.(warp := true)));
    case Call(f, args) =>
      SeeBoth(S, V, [AtCall(f, g)], AllPointsIn(args, g), u);
      SeeSingle(S, V, AtCall(f, g), u);
      ExprsAreSeen(S, V, args, g, if f < |S| then CheckCall(S[f], at, u) else u);
    case _ =>
  }

  lemma {:induction false} PairIsSeen(S: seq<Use>, V: set<string>, e: Expr, a: Expr, b: Expr, g: set<Expr>, u: Use)
    requires a < e && b < e
    ensures CheckExpr(S, b, AnyVaries(g, V), CheckExpr(S, a, AnyVaries(g, V), u)) == SeeAll(S, V, PointsIn(a, g) + PointsIn(b, g), u)
    decreases e, 0
  {
    ExprIsSeen(S, V, a, g, u);
    ExprIsSeen(S, V, b, g, CheckExpr(S, a, AnyVaries(g, V), u));
    SeeBoth(S, V, PointsIn(a, g), PointsIn(b, g), u);
  }

  lemma {:induction false} ExprsAreSeen(S: seq<Use>, V: set<string>, es: seq<Expr>, g: set<Expr>, u: Use)
    ensures CheckExprs(S, es, AnyVaries(g, V), u) == SeeAll(S, V, AllPointsIn(es, g), u)
    decreases es, 0
  {
    if es != [] {
      ExprIsSeen(S, V, es[0], g, u);
      ExprsAreSeen(S, V, es[1..], g, CheckExpr(S, es[0], AnyVaries(g, V), u));
      SeeBoth(S, V, PointsIn(es[0], g), AllPointsIn(es[1..], g), u);
    }
  }

  lemma {:induction false} StmtIsSeen(S: seq<Use>, V: set<string>, s: Stmt, g: set<Expr>, u: Use)
    ensures Check(S, V, s, AnyVaries(g, V), u) == SeeAll(S, V, Points(s, g), u)
    decreases s, 1
  {
    var at := AnyVaries(g, V);
    match s
    case Barrier => SeeSingle(S, V, AtBarrier(g), u);
    case ExprStmt(e) => ExprIsSeen(S, V, e, g, u);
    case Assign(_, e) => ExprIsSeen(S, V, e, g, u);
    case Seq(a, b) =>
      StmtIsSeen(S, V, a, g, u); StmtIsSeen(S, V, b, g, Check(S, V, a, at, u));
      SeeBoth(S, V, Points(a, g), Points(b, g), u);
    case If(_, _, _, _) => IfIsSeen(S, V, s, g, u);
    case For(_, _, _, _, _) => ForIsSeen(S, V, s, g, u);
    case Range(_, _, e, b) =>
      ForVariesIs(e, b, V);
      AnyOfBoth(g, Controls(e, b), V);
      ExprIsSeen(S, V, e, g, u); StmtIsSeen(S, V, b, g + Controls(e, b), CheckExpr(S, e, at, u));
      SeeBoth(S, V, PointsIn(e, g), Points(b, g + Controls(e, b)), u);
    case Return(e) =>
      ExprIsSeen(S, V, e, g, u);
      SeeBoth(S, V, PointsIn(e, g), [AtReturn(g)], u);
      SeeSingle(S, V, AtReturn(g), CheckExpr(S, e, at, u));
    case _ =>
  }

  lemma {:induction false} IfIsSeen(S: seq<Use>, V: set<string>, s: Stmt, g: set<Expr>, u: Use)
    requires s.If?
    ensures Check(S, V, s, AnyVaries(g, V), u) == SeeAll(S, V, Points(s, g), u)
    decreases s, 0
  {
    var at, inner := AnyVaries(g, V), g + {s.cond};
    AnyOfOne(s.cond, V);
    AnyOfBoth(g, {s.cond}, V);
    var u0 := Check(S, V, s.init, at, u);
    var u1 := CheckExpr(S, s.cond, at, u0);
    StmtIsSeen(S, V, s.init, g, u); ExprIsSeen(S, V, s.cond, g, u0);
    StmtIsSeen(S, V, s.thn, inner, u1); StmtIsSeen(S, V, s.els, inner, Check(S, V, s.thn, at || Varies(s.cond, V), u1));
    SeeFour(S, V, Points(s.init, g), PointsIn(s.cond, g), Points(s.thn, inner), Points(s.els, inner), u);
  }

  lemma {:induction false} ForIsSeen(S: seq<Use>, V: set<string>, s: Stmt, g: set<Expr>, u: Use)
    requires s.For?
    ensures Check(S, V, s, AnyVaries(g, V), u) == SeeAll(S, V, Points(s, g), u)
    decreases s, 0
  {
    var at, inner := AnyVaries(g, V), g + Controls(s.cond, s.body);
    ForVariesIs(s.cond, s.body, V);
    AnyOfBoth(g, Controls(s.cond, s.body), V);
    var u0 := Check(S, V, s.init, at, u);
    var u1 := CheckExpr(S, s.cond, AnyVaries(inner, V), u0);
    StmtIsSeen(S, V, s.init, g, u); ExprIsSeen(S, V, s.cond, inner, u0);
    StmtIsSeen(S, V, s.post, inner, u1); StmtIsSeen(S, V, s.body, inner, Check(S, V, s.post, AnyVaries(inner, V), u1));
    SeeFour(S, V, Points(s.init, g), PointsIn(s.cond, inner), Points(s.post, inner), Points(s.body, inner), u);
  }

  lemma SeeFour(S: seq<Use>, V: set<string>, a: seq<Point>, b: seq<Point>, c: seq<Point>, d: seq<Point>, u: Use)
    ensures SeeAll(S, V, a + b + (c + d), u) == SeeAll(S, V, d, SeeAll(S, V, c, SeeAll(S, V, b, SeeAll(S, V, a, u))))
  {
    SeeBoth(S, V, a + b, c + d, u);
    SeeBoth(S, V, a, b, u);
    SeeBoth(S, V, c, d, SeeAll(S, V, b, SeeAll(S, V, a, u)));
  }

  // What has been found after n points

  predicate Gathered(S: seq<Use>, p: Point) {
    p.AtBarrier? || p.AtWarp? || (p.AtCall? && p.f < |S| && (S[p.f].barrier || S[p.f].warp))
  }

  predicate LeftBefore(V: set<string>, ps: seq<Point>, n: nat)
    requires n <= |ps|
  {
    exists j :: 0 <= j < n && ps[j].AtReturn? && AnyVaries(ps[j].under, V)
  }

  /** The i-th point has something reported. */
  predicate Bad(S: seq<Use>, V: set<string>, ps: seq<Point>, i: nat)
    requires i < |ps|
  {
    || (Gathered(S, ps[i]) && (AnyVaries(ps[i].under, V) || LeftBefore(V, ps, i)))
    || (ps[i].AtCall? && ps[i].f < |S| && S[ps[i].f].reported)
  }

  lemma {:induction false} SeenIs(S: seq<Use>, V: set<string>, ps: seq<Point>, n: nat)
    requires n <= |ps|
    ensures var u := See(S, V, ps, n, NOTHING);
      && (u.leaves <==> LeftBefore(V, ps, n))
      && (u.barrier || u.warp <==> exists i :: 0 <= i < n && Gathered(S, ps[i]))
      && (u.reported <==> exists i :: 0 <= i < n && Bad(S, V, ps, i))
  {
    if n > 0 {
      SeenIs(S, V, ps, n - 1);
      OneMore(S, V, ps, n - 1, See(S, V, ps, n - 1, NOTHING));
    }
  }

  lemma OneMore(S: seq<Use>, V: set<string>, ps: seq<Point>, n: nat, u: Use)
    requires n < |ps| && (u.leaves <==> LeftBefore(V, ps, n))
    ensures var r := SeeOne(S, V, ps[n], u);
      && (r.leaves <==> LeftBefore(V, ps, n + 1))
      && (r.barrier || r.warp <==> u.barrier || u.warp || Gathered(S, ps[n]))
      && (r.reported <==> u.reported || Bad(S, V, ps, n))
  {
  }

  // The check against the text

  lemma {:induction false} CallsFormedE(P: seq<Func>, k: nat, e: Expr, g: set<Expr>)
    requires FormedE(P, k, e)
    ensures CallsBelow(P, k, PointsIn(e, g))
    decreases e, 0
  {
    match e
    case Un(_, a) => CallsFormedE(P, k, a, g);
    case Bin(_, a, b) => CallsFormedE(P, k, a, g); CallsFormedE(P, k, b, g);
    case AndAlso(a, b) => CallsFormedE(P, k, a, g); CallsFormedE(P, k, b, g);
    case OrElse(a, b) => CallsFormedE(P, k, a, g); CallsFormedE(P, k, b, g);
    case Load(_, i) => CallsFormedE(P, k, i, g);
    case Warp(_, a) => CallsFormedE(P, k, a, g);
    case Call(_, args) => CallsFormedEs(P, k, args, g);
    case _ =>
  }

  lemma {:induction false} CallsFormedEs(P: seq<Func>, k: nat, es: seq<Expr>, g: set<Expr>)
    requires FormedEs(P, k, es)
    ensures CallsBelow(P, k, AllPointsIn(es, g))
    decreases es, 0
  {
    if es != [] {
      CallsFormedE(P, k, es[0], g);
      CallsFormedEs(P, k, es[1..], g);
    }
  }

  predicate CallsBelow(P: seq<Func>, k: nat, ps: seq<Point>) {
    forall i :: 0 <= i < |ps| && ps[i].AtCall? ==> ps[i].f < k && ps[i].f < |P|
  }

  lemma BothBelow(P: seq<Func>, k: nat, a: seq<Point>, b: seq<Point>)
    requires CallsBelow(P, k, a) && CallsBelow(P, k, b)
    ensures CallsBelow(P, k, a + b)
  {
  }

  lemma FourBelow(P: seq<Func>, k: nat, a: seq<Point>, b: seq<Point>, c: seq<Point>, d: seq<Point>)
    requires CallsBelow(P, k, a) && CallsBelow(P, k, b) && CallsBelow(P, k, c) && CallsBelow(P, k, d)
    ensures CallsBelow(P, k, a + b + (c + d))
  {
    BothBelow(P, k, a, b);
    BothBelow(P, k, c, d);
    BothBelow(P, k, a + b, c + d);
  }

  lemma {:induction false} CallsFormed(P: seq<Func>, k: nat, s: Stmt, g: set<Expr>)
    requires Formed(P, k, s)
    ensures CallsBelow(P, k, Points(s, g))
  {
    match s
    case ExprStmt(e) => CallsFormedE(P, k, e, g);
    case Assign(_, e) => CallsFormedE(P, k, e, g);
    case Seq(a, b) =>
      CallsFormed(P, k, a, g); CallsFormed(P, k, b, g);
      BothBelow(P, k, Points(a, g), Points(b, g));
    case If(i, c, a, b) =>
      CallsFormed(P, k, i, g); CallsFormedE(P, k, c, g); CallsFormed(P, k, a, g + {c}); CallsFormed(P, k, b, g + {c});
      FourBelow(P, k, Points(i, g), PointsIn(c, g), Points(a, g + {c}), Points(b, g + {c}));
    case For(_, i, c, p, b) =>
      var inner := g + Controls(c, b);
      CallsFormed(P, k, i, g); CallsFormedE(P, k, c, inner); CallsFormed(P, k, p, inner); CallsFormed(P, k, b, inner);
      FourBelow(P, k, Points(i, g), PointsIn(c, inner), Points(p, inner), Points(b, inner));
    case Range(_, _, e, b) =>
      CallsFormedE(P, k, e, g); CallsFormed(P, k, b, g + Controls(e, b));
      BothBelow(P, k, PointsIn(e, g), Points(b, g + Controls(e, b)));
    case Return(e) => CallsFormedE(P, k, e, g);
    case _ =>
  }

  /** The table says of the first k functions what their text does. */
  ghost predicate TableText(P: seq<Func>, S: seq<Use>, k: nat) {
    && k <= |P| == |S|
    && forall f :: 0 <= f < k ==> (S[f].barrier || S[f].warp <==> Gathers(P, f)) && (S[f].reported <==> FuncDiverges(P, f))
  }

  lemma ApartIs(s: Stmt, V: set<string>, p: Point)
    ensures AnyVaries(p.under, Fixpoint(s, V)) <==> Apart(s, V, p)
  {
    forall c ensures Varies(c, Fixpoint(s, V)) <==> Depends(s, V, c) { VariesIsDepends(s, V, c); }
  }

  lemma PointText(P: seq<Func>, S: seq<Use>, k: nat, s: Stmt, V: set<string>, i: nat)
    requires TableText(P, S, k) && CallsBelow(P, k, Points(s, {})) && i < |Points(s, {})|
    ensures var p := Points(s, {})[i];
      && (Gathered(S, p) <==> Collective(P, p))
      && (Bad(S, Fixpoint(s, V), Points(s, {}), i) <==> Misses(P, s, V, i) || (p.AtCall? && FuncDiverges(P, p.f)))
  {
    var ps := Points(s, {});
    forall j | 0 <= j <= i ensures AnyVaries(ps[j].under, Fixpoint(s, V)) <==> Apart(s, V, ps[j]) { ApartIs(s, V, ps[j]); }
  }

  /** What a walk from nothing finds in s. */
  lemma WalkText(P: seq<Func>, S: seq<Use>, k: nat, s: Stmt, V: set<string>)
    requires TableText(P, S, k) && Formed(P, k, s)
    ensures var u, ps := Check(S, Fixpoint(s, V), s, false, NOTHING), Points(s, {});
      && CallsBelow(P, k, ps)
      && (u.barrier || u.warp <==> exists i :: 0 <= i < |ps| && Collective(P, ps[i]))
      && (u.reported <==> exists i :: 0 <= i < |ps| && (Misses(P, s, V, i) || (ps[i].AtCall? && FuncDiverges(P, ps[i].f))))
  {
    var F, ps := Fixpoint(s, V), Points(s, {});
    CallsFormed(P, k, s, {});
    StmtIsSeen(S, F, s, {}, NOTHING);
    SeenIs(S, F, ps, |ps|);
    forall i | 0 <= i < |ps|
      ensures Gathered(S, ps[i]) <==> Collective(P, ps[i])
      ensures Bad(S, F, ps, i) <==> Misses(P, s, V, i) || (ps[i].AtCall? && FuncDiverges(P, ps[i].f))
    {
      PointText(P, S, k, s, V, i);
    }
  }

  lemma {:induction false} TableIsText(P: seq<Func>, k: nat)
    requires Program(P) && k <= |P|
    ensures TableText(P, Table(P), k)
  {
    if k > 0 {
      var f := k - 1;
      TableIsText(P, f);
      TableIsSummary(P, f);
      WalkText(P, Table(P), f, P[f].body, SetOf(P[f].params));
    }
  }

  /** The check refuses a kernel exactly if its text gathers threads that some never reach. */
  lemma RefusedExactly(P: seq<Func>, body: Stmt)
    requires Program(P) && Formed(P, |P|, body)
    ensures CheckKernel(P, body).reported <==> KernelDiverges(P, body)
  {
    TableIsText(P, |P|);
    WalkText(P, Table(P), |P|, body, {});
  }

  /** if ctx.BlockIdx() == 0 { ctx.SyncThreads() }: what only the block decides is no divergence. */
  lemma BlockConditionIsFine(w: string)
    ensures !CheckKernel([], If(Skip, Uniform(w), Barrier, Skip)).reported
  {
    var s := If(Skip, Uniform(w), Barrier, Skip);
    RefusedExactly([], s);
    forall i | 0 <= i < |Points(s, {})| ensures !Apart(s, {}, Points(s, {})[i]) {
      assert forall p :: p in Parts(Uniform(w)) ==> p == Uniform(w);
    }
  }
}
