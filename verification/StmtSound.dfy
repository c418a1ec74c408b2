/** Lowered statements do what the Go statements do: same state, same way of ending, for any nesting
    of loops, switches, labels and parallel assignments. */
module StmtSound {
  import opened Basics
  import opened StmtLang
  import opened StmtLower

  // Programs

  predicate HasLoad(e: Expr) {
    match e
    case Load(_, _) => true
    case Prim(_, a, b) => HasLoad(a) || HasLoad(b)
    case Less(a, b) => HasLoad(a) || HasLoad(b)
    case Eq(a, b) => HasLoad(a) || HasLoad(b)
    case Or(a, b) => HasLoad(a) || HasLoad(b)
    case Next(a) => HasLoad(a)
    case _ => false
  }

  function TargetNames(t: Target): set<string> { if t.Scalar? then {t.x} else Reads(t.i) }

  function AllTargets(ts: seq<Target>): set<string> {
    if ts == [] then {} else TargetNames(ts[0]) + AllTargets(ts[1..])
  }

  function AllReads(es: seq<Expr>): set<string> { if es == [] then {} else Reads(es[0]) + AllReads(es[1..]) }

  function MaybeReads(e: Option<Expr>): set<string> { if e.Some? then Reads(e.value) else {} }

  function Maybe(x: Option<string>): set<string> { if x.Some? then {x.value} else {} }

  /** collectNames: every variable s spells. */
  function Names(s: Stmt): set<string> {
    match s
    case Skip => {}
    case Seq(a, b) => Names(a) + Names(b)
    case Scope(b) => Names(b)
    case Assign(t, e) => TargetNames(t) + Reads(e)
    case Par(ts, es) => AllTargets(ts) + AllReads(es)
    case Effect(e) => Reads(e)
    case If(c, a, b) => Reads(c) + Names(a) + Names(b)
    case For(_, i, c, p, b) => Names(i) + MaybeReads(c) + Names(p) + Names(b)
    case Range(_, k, v, o, b) => Maybe(k) + Maybe(v) + Reads(LimitOf(o)) + Names(b)
    case Switch(t, _, cs) => MaybeReads(t) + ClauseNames(cs)
    case Break(_) => {}
    case Continue(_) => {}
    case Return(v) => MaybeReads(v)
  }

  function ClauseNames(cs: Clauses): set<string> {
    if cs.End? then {} else AllReads(cs.vals) + Names(cs.body) + ClauseNames(cs.rest)
  }

  predicate Stores(s: Stmt) {
    match s
    case Seq(a, b) => Stores(a) || Stores(b)
    case Scope(b) => Stores(b)
    case Assign(t, _) => t.Elem?
    case Par(ts, _) => exists k :: 0 <= k < |ts| && ts[k].Elem?
    case If(_, a, b) => Stores(a) || Stores(b)
    case For(_, i, _, p, b) => Stores(i) || Stores(p) || Stores(b)
    case Range(_, _, _, _, b) => Stores(b)
    case Switch(_, _, cs) => ClauseStores(cs)
    case _ => false
  }

  predicate ClauseStores(cs: Clauses) { !cs.End? && (Stores(cs.body) || ClauseStores(cs.rest)) }

  /** Nothing the body does changes the limit, which C evaluates again before every round. */
  predicate LimitHolds(limit: Expr, body: Stmt) {
    && (forall x :: x in Reads(limit) ==> !Assigns(body, x))
    && (HasLoad(limit) ==> !Stores(body))
  }

  /** What go/types has checked, with one name for one object: variables are in scope, a range variable
      is new, and a label is that of an enclosing loop. */
  predicate Formed(s: Stmt, scope: set<string>, encl: set<string>) {
    match s
    case Skip => true
    case Seq(a, b) => Formed(a, scope, encl) && Formed(b, scope, encl)
    case Scope(b) => Formed(b, scope, encl)
    case Assign(t, e) => TargetNames(t) + Reads(e) <= scope
    case Par(ts, es) => AllTargets(ts) + AllReads(es) <= scope
    case Effect(e) => Reads(e) <= scope
    case If(c, a, b) => Reads(c) <= scope && Formed(a, scope, encl) && Formed(b, scope, encl)
    case For(l, i, c, p, b) =>
      && Simple(i) && Simple(p) && Formed(i, scope, encl) && Formed(p, scope, encl)
      && MaybeReads(c) <= scope && Maybe(l) !! encl && Formed(b, scope, encl + Maybe(l))
    case Range(l, k, v, o, b) =>
      && Reads(LimitOf(o)) <= scope && Maybe(l) !! encl
      && Maybe(k) !! scope && Maybe(v) !! scope && Maybe(k) !! Maybe(v)
      && Formed(b, scope + Maybe(k) + Maybe(v), encl + Maybe(l))
      && LimitHolds(LimitOf(o), b)
    case Switch(t, _, cs) => MaybeReads(t) <= scope && ClausesFormed(cs, scope, encl)
    case Break(l) => Maybe(l) <= encl
    case Continue(l) => Maybe(l) <= encl
    case Return(v) => MaybeReads(v) <= scope
  }

  predicate ClausesFormed(cs: Clauses, scope: set<string>, encl: set<string>) {
    cs.End? || (AllReads(cs.vals) <= scope && Formed(cs.body, scope, encl) && ClausesFormed(cs.rest, scope, encl))
  }

  // Where control goes

  /** A break that is no loop's and no switch's inside s. */
  predicate BareBreak(s: Stmt) {
    match s
    case Seq(a, b) => BareBreak(a) || BareBreak(b)
    case Scope(b) => BareBreak(b)
    case If(_, a, b) => BareBreak(a) || BareBreak(b)
    case Break(l) => l.None?
    case _ => false
  }

  /** A labelled branch leaves s only for a loop around it that s names. */
  predicate Escape(r: Out, s: Stmt, encl: set<string>) {
    && (r.Brk? && r.to.Some? ==> r.to.value in encl && r.to.value in Breaks(s))
    && (r.Cnt? && r.to.Some? ==> r.to.value in encl && r.to.value in Continues(s))
    && (r.Brk? && r.to.None? ==> BareBreak(s))
  }

  lemma {:induction false} Escapes(m: Machine, n: nat, s: Stmt, scope: set<string>, encl: set<string>, g: State)
    requires Formed(s, scope, encl)
    ensures Escape(Run(m, n, s, g), s, encl)
    decreases n, s, 1
  {
    match s
    case Seq(a, b) =>
      Escapes(m, n, a, scope, encl, g);
      if Run(m, n, a, g).Done? { Escapes(m, n, b, scope, encl, Run(m, n, a, g).s); }
    case Scope(b) => Escapes(m, n, b, scope, encl, g);
    case If(_, a, b) => Escapes(m, n, a, scope, encl, g); Escapes(m, n, b, scope, encl, g);
    case For(_, i, _, _, _) => if Run(m, n, i, g).Done? { EscapesFor(m, n, s, scope, encl, Run(m, n, i, g).s); }
    case Range(_, _, _, o, _) => EscapesRange(m, n, s, 0, Bound(m, o, g), scope, encl, g);
    case Switch(t, _, cs) =>
      var chosen := Chosen(m, t, cs, g);
      ChosenIsTail(m, t, cs, g);
      TailFormed(chosen, cs, scope, encl);
      EscapesClauses(m, n, chosen, scope, encl, g);
    case _ =>
  }

  lemma {:induction false} EscapesFor(m: Machine, n: nat, s: Stmt, scope: set<string>, encl: set<string>, g: State)
    requires s.For? && Formed(s, scope, encl)
    ensures Escape(Loop(m, n, s, g), s, encl)
    decreases n, s, 0
  {
    if n > 0 && Holds(m, s.cond, g) {
      var r := Run(m, n - 1, s.body, g);
      Escapes(m, n - 1, s.body, scope, encl + Maybe(s.lbl), g);
      if LoopCtrl(r, s.lbl).None? {
        var p := Run(m, n - 1, s.post, r.s);
        if p.Done? { EscapesFor(m, n - 1, s, scope, encl, p.s); }
      }
    }
  }

  lemma {:induction false} EscapesRange(m: Machine, n: nat, s: Stmt, i: int, limit: int, scope: set<string>, encl: set<string>, g: State)
    requires s.Range? && Formed(s, scope, encl)
    ensures Escape(Count(m, n, s, i, limit, g), s, encl)
    decreases n, s, 0
  {
    if n > 0 && i < limit {
      var r := Run(m, n - 1, s.body, Bind(m, s, i, g));
      Escapes(m, n - 1, s.body, scope + Maybe(s.key) + Maybe(s.val), encl + Maybe(s.lbl), Bind(m, s, i, g));
      if LoopCtrl(r, s.lbl).None? { EscapesRange(m, n - 1, s, i + 1, limit, scope, encl, r.s); }
    }
  }

  /** cs is all or what is left of it. */
  predicate Tail(cs: Clauses, all: Clauses)
    decreases all
  {
    cs == all || (all.Clause? && Tail(cs, all.rest))
  }

  lemma {:induction false} TailFormed(cs: Clauses, all: Clauses, scope: set<string>, encl: set<string>)
    requires Tail(cs, all) && ClausesFormed(all, scope, encl)
    ensures ClausesFormed(cs, scope, encl)
    ensures ClauseBreaks(cs) <= ClauseBreaks(all) && ClauseContinues(cs) <= ClauseContinues(all)
    decreases all
  {
    if cs != all { TailFormed(cs, all.rest, scope, encl); }
  }

  lemma {:induction false} DefaultIsTail(cs: Clauses)
    ensures Tail(Default(cs), cs)
  {
    if cs.Clause? && cs.vals != [] { DefaultIsTail(cs.rest); }
  }

  lemma {:induction false} PickedIsTail(m: Machine, tag: Option<Expr>, cs: Clauses, g: State)
    ensures Tail(Picked(m, tag, cs, g), cs)
  {
    if cs.Clause? && !Matches(m, tag, cs.vals, g) { PickedIsTail(m, tag, cs.rest, g); }
  }

  lemma ChosenIsTail(m: Machine, tag: Option<Expr>, cs: Clauses, g: State)
    ensures Tail(Chosen(m, tag, cs, g), cs)
  {
    PickedIsTail(m, tag, cs, g);
    DefaultIsTail(cs);
  }

  lemma {:induction false} EscapesClauses(m: Machine, n: nat, cs: Clauses, scope: set<string>, encl: set<string>, g: State)
    requires ClausesFormed(cs, scope, encl)
    ensures var r := RunClauses(m, n, cs, g);
      && (r.Brk? && r.to.Some? ==> r.to.value in encl && r.to.value in ClauseBreaks(cs))
      && (r.Cnt? && r.to.Some? ==> r.to.value in encl && r.to.value in ClauseContinues(cs))
      && !(r.Brk? && r.to.None?)
    decreases n, cs, 1
  {
    if cs.Clause? {
      Escapes(m, n, cs.body, scope, encl, g);
      var r := Run(m, n, cs.body, g);
      if r.Done? && cs.falls { EscapesClauses(m, n, cs.rest, scope, encl, r.s); }
    }
  }

  lemma {:induction false} NoBareBreak(s: Stmt)
    requires Accepted(s, BreakIfSwitch)
    ensures !BareBreak(s)
  {
    match s
    case Seq(a, b) => NoBareBreak(a); NoBareBreak(b);
    case Scope(b) => NoBareBreak(b);
    case If(_, a, b) => NoBareBreak(a); NoBareBreak(b);
    case _ =>
  }

  // What stays

  /** s leaves alone what it does not assign to, and memory if it does not store. */
  predicate Kept(assigns: bool, stores: bool, x: string, g: State, r: Out) {
    !r.Timeout? ==> (!assigns ==> Get(r.s, x) == Get(g, x)) && (!stores ==> r.s.mem == g.mem)
  }

  lemma {:induction false} Keeps(m: Machine, n: nat, s: Stmt, scope: set<string>, encl: set<string>, x: string, g: State)
    requires Formed(s, scope, encl)
    ensures Kept(x !in scope || Assigns(s, x), Stores(s), x, g, Run(m, n, s, g))
    decreases n, s, 1
  {
    match s
    case Seq(a, b) =>
      Keeps(m, n, a, scope, encl, x, g);
      if Run(m, n, a, g).Done? { Keeps(m, n, b, scope, encl, x, Run(m, n, a, g).s); }
    case Scope(b) => Keeps(m, n, b, scope, encl, x, g);
    case Par(ts, es) => if |ts| == |es| { KeepsPar(m, ts, AtAll(m, ts, g), EvalAll(m, es, g), x, g); }
    case If(_, a, b) => Keeps(m, n, a, scope, encl, x, g); Keeps(m, n, b, scope, encl, x, g);
    case For(_, i, _, _, _) =>
      Keeps(m, n, i, scope, encl, x, g);
      if Run(m, n, i, g).Done? { KeepsFor(m, n, s, scope, encl, x, Run(m, n, i, g).s); }
    case Range(_, _, _, o, _) => KeepsRange(m, n, s, 0, Bound(m, o, g), scope, encl, x, g);
    case Switch(t, _, cs) =>
      var chosen := Chosen(m, t, cs, g);
      ChosenIsTail(m, t, cs, g);
      TailFormed(chosen, cs, scope, encl);
      TailAssigns(chosen, cs, x);
      KeepsClauses(m, n, chosen, scope, encl, x, g);
    case _ =>
  }

  lemma {:induction false} KeepsPar(m: Machine, ts: seq<Target>, at: seq<int>, vs: seq<int>, x: string, g: State)
    requires |ts| == |at| == |vs|
    ensures Scalar(x) !in ts ==> Get(StoreAll(m, ts, at, vs, g), x) == Get(g, x)
    ensures (forall k :: 0 <= k < |ts| ==> !ts[k].Elem?) ==> StoreAll(m, ts, at, vs, g).mem == g.mem
  {
    if ts != [] { KeepsPar(m, ts[1..], at[1..], vs[1..], x, Store(m, ts[0], at[0], vs[0], g)); }
  }

  lemma {:induction false} KeepsFor(m: Machine, n: nat, s: Stmt, scope: set<string>, encl: set<string>, x: string, g: State)
    requires s.For? && Formed(s, scope, encl)
    ensures Kept(x !in scope || Assigns(s, x), Stores(s), x, g, Loop(m, n, s, g))
    decreases n, s, 0
  {
    if n > 0 && Holds(m, s.cond, g) {
      var r := Run(m, n - 1, s.body, g);
      Keeps(m, n - 1, s.body, scope, encl + Maybe(s.lbl), x, g);
      if LoopCtrl(r, s.lbl).None? {
        var p := Run(m, n - 1, s.post, r.s);
        Keeps(m, n - 1, s.post, scope, encl, x, r.s);
        if p.Done? { KeepsFor(m, n - 1, s, scope, encl, x, p.s); }
      }
    }
  }

  lemma {:induction false} KeepsRange(m: Machine, n: nat, s: Stmt, i: int, limit: int, scope: set<string>, encl: set<string>, x: string, g: State)
    requires s.Range? && Formed(s, scope, encl)
    ensures Kept(x !in scope || Assigns(s, x), Stores(s), x, g, Count(m, n, s, i, limit, g))
    decreases n, s, 0
  {
    if n > 0 && i < limit {
      var r := Run(m, n - 1, s.body, Bind(m, s, i, g));
      Keeps(m, n - 1, s.body, scope + Maybe(s.key) + Maybe(s.val), encl + Maybe(s.lbl), x, Bind(m, s, i, g));
      if LoopCtrl(r, s.lbl).None? { KeepsRange(m, n - 1, s, i + 1, limit, scope, encl, x, r.s); }
    }
  }

  lemma {:induction false} TailAssigns(cs: Clauses, all: Clauses, x: string)
    requires Tail(cs, all)
    ensures (ClauseAssigns(cs, x) ==> ClauseAssigns(all, x)) && (ClauseStores(cs) ==> ClauseStores(all))
    decreases all
  {
    if cs != all { TailAssigns(cs, all.rest, x); }
  }

  lemma {:induction false} KeepsClauses(m: Machine, n: nat, cs: Clauses, scope: set<string>, encl: set<string>, x: string, g: State)
    requires ClausesFormed(cs, scope, encl)
    ensures Kept(x !in scope || ClauseAssigns(cs, x), ClauseStores(cs), x, g, RunClauses(m, n, cs, g))
    decreases n, cs, 1
  {
    if cs.Clause? {
      var r := Run(m, n, cs.body, g);
      Keeps(m, n, cs.body, scope, encl, x, g);
      if r.Done? && cs.falls { KeepsClauses(m, n, cs.rest, scope, encl, x, r.s); }
    }
  }

  // The two states

  /** Equal on the variables in scope, in memory and in what was done. */
  predicate Agree(scope: set<string>, g: State, c: State) {
    (forall x :: x in scope ==> Get(g, x) == Get(c, x)) && g.mem == c.mem && g.trace == c.trace
  }

  predicate Held(held: set<string>, c: State, d: State) { forall x :: x in held ==> Get(c, x) == Get(d, x) }

  lemma {:induction false} SameValue(m: Machine, e: Expr, scope: set<string>, g: State, c: State)
    requires Agree(scope, g, c) && Reads(e) <= scope
    ensures Eval(m, e, g) == Eval(m, e, c)
  {
    match e
    case Load(_, i) => SameValue(m, i, scope, g, c);
    case Prim(_, a, b) => SameValue(m, a, scope, g, c); SameValue(m, b, scope, g, c);
    case Less(a, b) => SameValue(m, a, scope, g, c); SameValue(m, b, scope, g, c);
    case Eq(a, b) => SameValue(m, a, scope, g, c); SameValue(m, b, scope, g, c);
    case Or(a, b) => SameValue(m, a, scope, g, c); SameValue(m, b, scope, g, c);
    case Next(a) => SameValue(m, a, scope, g, c);
    case _ =>
  }

  /** An expression keeps its value while what it reads does. */
  lemma {:induction false} ValueKept(m: Machine, e: Expr, g: State, h: State)
    requires forall x :: x in Reads(e) ==> Get(g, x) == Get(h, x)
    requires HasLoad(e) ==> g.mem == h.mem
    ensures Eval(m, e, g) == Eval(m, e, h)
  {
    match e
    case Load(_, i) => ValueKept(m, i, g, h);
    case Prim(_, a, b) => ValueKept(m, a, g, h); ValueKept(m, b, g, h);
    case Less(a, b) => ValueKept(m, a, g, h); ValueKept(m, b, g, h);
    case Eq(a, b) => ValueKept(m, a, g, h); ValueKept(m, b, g, h);
    case Or(a, b) => ValueKept(m, a, g, h); ValueKept(m, b, g, h);
    case Next(a) => ValueKept(m, a, g, h);
    case _ =>
  }

  // The names taken only grow.

  lemma {:induction false} Grows(s: Stmt, names: set<string>)
    ensures names <= Lower(s, names).1
    decreases s, 0
  {
    match s
    case Seq(a, b) => Grows(a, names); Grows(b, Lower(a, names).1);
    case Scope(b) => Grows(b, names);
    case Par(ts, es) => if |ts| == |es| { GrowsTargets(ts, ts, names); GrowsValues(ts, es, LowerTargets(ts, ts, names).names); }
    case If(_, a, b) => Grows(a, names); Grows(b, Lower(a, names).1);
    case For(_, _, _, _, b) => Grows(b, names);
    case Range(_, _, _, _, b) => Grows(b, names + {Counter(s, names).0});
    case Switch(t, _, cs) =>
      if IsCSwitch(s) {
        GrowsArms(cs, names);
      } else if t.None? {
        GrowsChain(cs, cs, None, names);
      } else {
        var tmp := Reserve("switch_tag", names);
        GrowsChain(cs, cs, Some(tmp), names + {tmp});
      }
    case _ =>
  }

  lemma {:induction false} GrowsTargets(ts: seq<Target>, all: seq<Target>, names: set<string>)
    ensures names <= LowerTargets(ts, all, names).names
  {
    if ts != [] {
      var lifted := ts[0].Elem? && !Stable(ts[0].i, all);
      GrowsTargets(ts[1..], all, if lifted then names + {Reserve(BaseName(ts[0]) + "_idx", names)} else names);
    }
  }

  lemma {:induction false} GrowsValues(ts: seq<Target>, es: seq<Expr>, names: set<string>)
    requires |ts| == |es|
    ensures names <= LowerValues(ts, es, names).names
  {
    if es != [] { GrowsValues(ts[1..], es[1..], names + {Reserve(BaseName(ts[0]) + "_tmp", names)}); }
  }

  lemma {:induction false} GrowsArms(cs: Clauses, names: set<string>)
    ensures names <= LowerArms(cs, names).1
    decreases cs, 0
  {
    if cs.Clause? {
      Grows(cs.body, names);
      GrowsArms(cs.rest, Lower(cs.body, names).1);
    }
  }

  lemma {:induction false} GrowsChain(all: Clauses, cs: Clauses, tag: Option<string>, names: set<string>)
    requires cs == all || cs < all
    ensures names <= LowerChain(all, cs, tag, names).1
    decreases all, cs
  {
    if cs.End? {
      if Default(all).Clause? { Grows(Default(all).body, names); }
    } else if cs.vals == [] {
      GrowsChain(all, cs.rest, tag, names);
    } else {
      Grows(cs.body, names);
      GrowsChain(all, cs.rest, tag, Lower(cs.body, names).1);
    }
  }

  /** The labels in the list s becomes are those of loops in it, not of loops around it. */
  predicate Inner(c: CStmt, encl: set<string>) {
    forall l :: l in Labels(c) ==> l.l !in encl
  }

  lemma {:induction false} LabelsInner(s: Stmt, scope: set<string>, encl: set<string>, names: set<string>)
    requires Formed(s, scope, encl)
    ensures Inner(Lower(s, names).0, encl)
    decreases s, 0
  {
    match s
    case Seq(a, b) => LabelsInner(a, scope, encl, names); LabelsInner(b, scope, encl, Lower(a, names).1);
    case Par(ts, es) => if |ts| == |es| { NoLabelsInPar(ts, es, names); }
    case Switch(t, _, cs) =>
      if !IsCSwitch(s) && t.None? { NoLabelsInChain(cs, cs, None, names); }
    case _ =>
  }

  lemma {:induction false} NoLabelsInChain(all: Clauses, cs: Clauses, tag: Option<string>, names: set<string>)
    requires cs == all || cs < all
    ensures Labels(LowerChain(all, cs, tag, names).0) == {}
    decreases all, cs
  {
    if cs.Clause? && cs.vals == [] { NoLabelsInChain(all, cs.rest, tag, names); }
  }

  lemma NoLabelsInPar(ts: seq<Target>, es: seq<Expr>, names: set<string>)
    requires |ts| == |es|
    ensures Labels(LowerPar(ts, es, names).0) == {}
  {
    var at := LowerTargets(ts, ts, names);
    var vs := LowerValues(ts, es, at.names);
    NoLabelsInTargets(ts, ts, names);
    NoLabelsInValues(ts, es, at.names);
    NoLabelsInStores(at.ts, vs.temps);
  }

  lemma {:induction false} NoLabelsInTargets(ts: seq<Target>, all: seq<Target>, names: set<string>)
    ensures Labels(LowerTargets(ts, all, names).code) == {}
  {
    if ts != [] {
      var lifted := ts[0].Elem? && !Stable(ts[0].i, all);
      NoLabelsInTargets(ts[1..], all, if lifted then names + {Reserve(BaseName(ts[0]) + "_idx", names)} else names);
    }
  }

  lemma {:induction false} NoLabelsInValues(ts: seq<Target>, es: seq<Expr>, names: set<string>)
    requires |ts| == |es|
    ensures Labels(LowerValues(ts, es, names).code) == {}
  {
    if es != [] { NoLabelsInValues(ts[1..], es[1..], names + {Reserve(BaseName(ts[0]) + "_tmp", names)}); }
  }

  lemma {:induction false} NoLabelsInStores(ts: seq<Target>, temps: seq<string>)
    requires |ts| == |temps|
    ensures Labels(LowerStores(ts, temps)) == {}
  {
    if ts != [] { NoLabelsInStores(ts[1..], temps[1..]); }
  }

  // The simulation

  /** Where a statement is lowered: the variables in scope, the temporaries in use around it, the names
      taken, the labels of the loops around it, and what a bare break leaves. */
  datatype Site = Site(scope: set<string>, held: set<string>, names: set<string>, encl: set<string>, brk: Breakable)

  predicate Roomy(spelled: set<string>, x: Site) {
    x.scope + spelled + x.held <= x.names && x.held !! x.scope + spelled
  }

  predicate Ready(s: Stmt, x: Site) {
    Formed(s, x.scope, x.encl) && Accepted(s, x.brk) && Roomy(Names(s), x)
  }

  predicate Link(x: Site, g: State, c: State, c0: State) { Agree(x.scope, g, c) && Held(x.held, c0, c) }

  /** The C ends as the Go does, a labelled branch being a goto. */
  predicate Same(x: Site, g: Out, c: COut, c0: State) {
    match g
    case Done(s) => c.CDone? && Link(x, s, c.s, c0)
    case Brk(l, s) => (if l.Some? then c.CGoto? && c.l == BreakOf(l.value) else c.CBrk?) && Link(x, s, c.s, c0)
    case Cnt(l, s) => (if l.Some? then c.CGoto? && c.l == ContinueOf(l.value) else c.CCnt?) && Link(x, s, c.s, c0)
    case Ret(v, s) => c.CRet? && c.v == v && Link(x, s, c.s, c0)
    case Timeout => c.CTimeout?
  }

  lemma Stays(m: Machine, n: nat, t: CStmt, r: COut)
    requires t.Then? && (r.CGoto? ==> r.l !in Labels(t.a))
    ensures Back(m, n, t, r) == r
  {
  }

  lemma Passes(m: Machine, n: nat, t: CStmt, r: COut)
    requires t.Then? && !r.CDone? && (r.CGoto? ==> r.l !in Labels(t.b))
    ensures Onward(m, n, t, r) == r
  {
  }

  lemma Enters(m: Machine, n: nat, t: CStmt, r: COut)
    requires t.Then? && r.CDone?
    requires var q := RunC(m, n, t.b, r.s); q.CGoto? ==> q.l !in Labels(t.a)
    ensures Onward(m, n, t, r) == RunC(m, n, t.b, r.s)
  {
    Stays(m, n, t, RunC(m, n, t.b, r.s));
  }

  /** A goto to the label that ends a list ends the list. */
  lemma Lands(m: Machine, n: nat, t: CStmt, r: COut)
    requires t.Then? && t.b.LabelC? && (r.CDone? || (r.CGoto? && r.l == t.b.l))
    ensures Onward(m, n, t, r) == CDone(r.s)
  {
    Stays(m, n, t, CDone(r.s));
  }

  lemma ThenRuns(m: Machine, n: nat, a: CStmt, b: CStmt, s: State)
    ensures RunC(m, n, Then(a, b), s) == Onward(m, n, Then(a, b), RunC(m, n, a, s))
  {
  }

  lemma ThenDone(m: Machine, n: nat, a: CStmt, b: CStmt, s: State)
    requires RunC(m, n, a, s).CDone?
    requires var r := RunC(m, n, b, RunC(m, n, a, s).s); r.CGoto? ==> r.l !in Labels(a)
    ensures RunC(m, n, Then(a, b), s) == RunC(m, n, b, RunC(m, n, a, s).s)
  {
    ThenRuns(m, n, a, b, s);
    Enters(m, n, Then(a, b), RunC(m, n, a, s));
  }

  lemma ThenLabel(m: Machine, n: nat, a: CStmt, l: Label, s: State)
    ensures var r := RunC(m, n, a, s);
      RunC(m, n, Then(a, LabelC(l)), s) == if r.CGoto? && r.l == l then CDone(r.s) else r
  {
    var t, r := Then(a, LabelC(l)), RunC(m, n, a, s);
    ThenRuns(m, n, a, LabelC(l), s);
    if r.CDone? || (r.CGoto? && r.l == l) { Lands(m, n, t, r); } else { Passes(m, n, t, r); }
  }

  lemma SeqSim(m: Machine, n: nat, s: Stmt, x: Site, g: State, c: State)
    requires s.Seq? && Ready(s, x)
    requires Same(x, Run(m, n, s.a, g), RunC(m, n, Lower(s.a, x.names).0, c), c)
    requires var r := Run(m, n, s.a, g);
      r.Done? ==>
        var d := RunC(m, n, Lower(s.a, x.names).0, c).s;
        Same(x, Run(m, n, s.b, r.s), RunC(m, n, Lower(s.b, Lower(s.a, x.names).1).0, d), d)
    ensures Same(x, Run(m, n, s, g), RunC(m, n, Lower(s, x.names).0, c), c)
  {
    var r := Run(m, n, s.a, g);
    var names := Lower(s.a, x.names).1;
    LabelsInner(s.a, x.scope, x.encl, x.names);
    LabelsInner(s.b, x.scope, x.encl, names);
    Escapes(m, n, s.a, x.scope, x.encl, g);
    var ca, cb := Lower(s.a, x.names).0, Lower(s.b, names).0;
    if r.Done? {
      Escapes(m, n, s.b, x.scope, x.encl, r.s);
      ThenDone(m, n, ca, cb, c);
    } else {
      ThenRuns(m, n, ca, cb, c);
      Passes(m, n, Then(ca, cb), RunC(m, n, ca, c));
    }
  }

  lemma AssignSim(m: Machine, n: nat, t: Target, e: Expr, x: Site, g: State, c: State)
    requires TargetNames(t) + Reads(e) <= x.scope && x.held !! x.scope && Agree(x.scope, g, c)
    ensures var d := RunC(m, n, StoreTo(t, e), c);
      d.CDone? && Link(x, Store(m, t, At(m, t, g), Eval(m, e, g), g), d.s, c)
  {
    var v := Eval(m, e, g);
    SameValue(m, e, x.scope, g, c);
    if t.Elem? { SameValue(m, t.i, x.scope, g, c); }
    assert RunC(m, n, StoreTo(t, e), c) == CDone(Store(m, t, At(m, t, g), v, c));
    StoreSim(m, t, At(m, t, g), v, x, g, c);
  }

  lemma StoreSim(m: Machine, t: Target, at: int, v: int, x: Site, g: State, c: State)
    requires TargetNames(t) <= x.scope && x.held !! x.scope && Agree(x.scope, g, c)
    ensures Link(x, Store(m, t, at, v, g), Store(m, t, at, v, c), c)
  {
  }

  lemma SimpleSim(m: Machine, n: nat, s: Stmt, x: Site, g: State, c: State)
    requires Simple(s) && Formed(s, x.scope, x.encl) && x.held !! x.scope && Agree(x.scope, g, c)
    ensures Run(m, n, s, g).Done? && Same(x, Run(m, n, s, g), RunC(m, n, SimpleC(s), c), c)
  {
    if s.Assign? { AssignSim(m, n, s.t, s.e, x, g, c); }
  }

  /** The body of a labelled loop turns the goto of a continue into an ordinary end. */
  lemma BodyRuns(m: Machine, n: nat, head: CStmt, c: CStmt, lbl: Option<string>, body: Stmt, s: State)
    ensures var r := RunC(m, n, Then(head, c), s);
      RunC(m, n, LoopBody(head, c, lbl, body), s) ==
        if Continued(lbl, body) && r.CGoto? && r.l == ContinueOf(lbl.value) then CDone(r.s) else r
  {
    if Continued(lbl, body) {
      ThenLabel(m, n, Block(Then(head, c)), ContinueOf(lbl.value), s);
    }
  }

  /** The label after a loop turns the goto of a break into an ordinary end. */
  lemma LabeledRuns(m: Machine, n: nat, lbl: Option<string>, body: Stmt, loop: CStmt, s: State)
    ensures var r := RunC(m, n, loop, s);
      RunC(m, n, Labeled(lbl, body, loop), s) ==
        if lbl.Some? && lbl.value in Breaks(body) && r.CGoto? && r.l == BreakOf(lbl.value) then CDone(r.s) else r
  {
    if lbl.Some? { ThenLabel(m, n, loop, BreakOf(lbl.value), s); }
  }

  /** How a loop ends before its break label is reached. */
  predicate Rounds(x: Site, lbl: Option<string>, body: Stmt, g: Out, c: COut, c0: State) {
    || Same(x, g, c, c0)
    || (lbl.Some? && lbl.value in Breaks(body) && g.Done? && c.CGoto? && c.l == BreakOf(lbl.value) && Link(x, g.s, c.s, c0))
  }

  /** What a loop does with the end of its body. */
  lemma EndRound(x: Site, y: Site, lbl: Option<string>, body: Stmt, r: Out, rc: COut, c0: State)
    requires x.scope <= y.scope && x.held <= y.held
    requires Same(y, r, rc, c0) && Escape(r, body, y.encl)
    ensures
      var next := LoopCtrl(r, lbl);
      var rb := if Continued(lbl, body) && rc.CGoto? && rc.l == ContinueOf(lbl.value) then CDone(rc.s) else rc;
      if next.None? then (rb.CDone? || rb.CCnt?) && Link(y, r.s, rb.s, c0)
      else !rb.CDone? && !rb.CCnt? && Rounds(x, lbl, body, next.value, if rb.CBrk? then CDone(rb.s) else rb, c0)
  {
  }

  /** How a round ends, from how the body does. */
  predicate RoundEnd(x: Site, y: Site, lbl: Option<string>, body: Stmt, r: Out, q: COut, c0: State) {
    var next := LoopCtrl(r, lbl);
    if next.None? then (q.CDone? || q.CCnt?) && Link(y, r.s, q.s, c0)
    else !q.CDone? && !q.CCnt? && Rounds(x, lbl, body, next.value, if q.CBrk? then CDone(q.s) else q, c0)
  }

  lemma RoundSim(m: Machine, n: nat, x: Site, y: Site, lbl: Option<string>, body: Stmt, head: CStmt, b: CStmt, r: Out, c0: State)
    requires x.scope <= y.scope && x.held <= y.held && Escape(r, body, y.encl)
    requires RunC(m, n, head, c0).CDone? && Labels(head) == {}
    requires var c1 := RunC(m, n, head, c0).s; Held(y.held, c0, c1) && Same(y, r, RunC(m, n, b, c1), c1)
    ensures RoundEnd(x, y, lbl, body, r, RunC(m, n, LoopBody(head, b, lbl, body), c0), c0)
  {
    var c1 := RunC(m, n, head, c0).s;
    ThenDone(m, n, head, b, c0);
    BodyRuns(m, n, head, b, lbl, body, c0);
    EndRound(x, y, lbl, body, r, RunC(m, n, b, c1), c0);
  }

  function InLoop(s: Stmt, x: Site): Site
    requires s.For?
  {
    x.(encl := x.encl + Maybe(s.lbl), brk := BreakLoop)
  }

  lemma RoundAgain(m: Machine, n: nat, cond: Option<Expr>, post: CStmt, body: CStmt, s: State)
    requires n > 0 && Holds(m, cond, s)
    requires var q := RunC(m, n - 1, body, s); (q.CDone? || q.CCnt?) && RunC(m, n - 1, post, q.s).CDone?
    ensures LoopC(m, n, cond, post, body, s) ==
      LoopC(m, n - 1, cond, post, body, RunC(m, n - 1, post, RunC(m, n - 1, body, s).s).s)
  {
  }

  lemma RoundLast(m: Machine, n: nat, cond: Option<Expr>, post: CStmt, body: CStmt, s: State)
    requires n > 0 && Holds(m, cond, s)
    requires var q := RunC(m, n - 1, body, s); !q.CDone? && !q.CCnt?
    ensures var q := RunC(m, n - 1, body, s); LoopC(m, n, cond, post, body, s) == if q.CBrk? then CDone(q.s) else q
  {
  }

  /** A for loop before its break label. */
  predicate ForLike(m: Machine, n: nat, s: Stmt, x: Site, g: State, c: State)
    requires s.For?
  {
    var body := LoopBody(Nop, Lower(s.body, x.names).0, s.lbl, s.body);
    Rounds(x, s.lbl, s.body, Loop(m, n, s, g), LoopC(m, n, s.cond, SimpleC(s.post), body, c), c)
  }

  lemma RoundsFrom(x: Site, lbl: Option<string>, body: Stmt, g: Out, c: COut, c0: State, c1: State)
    requires Rounds(x, lbl, body, g, c, c1) && Held(x.held, c0, c1)
    ensures Rounds(x, lbl, body, g, c, c0)
  {
  }

  lemma {:induction false} ForSim(m: Machine, n: nat, s: Stmt, x: Site, g: State, c: State)
    requires s.For? && Ready(s, x) && Agree(x.scope, g, c)
    ensures ForLike(m, n, s, x, g, c)
    decreases n, s, 1
  {
    if s.cond.Some? { SameValue(m, s.cond.value, x.scope, g, c); }
    if n > 0 && Holds(m, s.cond, g) {
      var b := LoopBody(Nop, Lower(s.body, x.names).0, s.lbl, s.body);
      var post := SimpleC(s.post);
      var r, q := Run(m, n - 1, s.body, g), RunC(m, n - 1, b, c);
      ForBody(m, n, s, x, g, c);
      if LoopCtrl(r, s.lbl).Some? {
        RoundLast(m, n, s.cond, post, b, c);
      } else {
        var p, d := ForAgain(m, n, s, x, c, r.s, q.s);
        RoundJoins(m, n, s.cond, post, b, x, s.lbl, s.body, Loop(m, n - 1, s, p), c, q.s, d);
      }
    }
  }

  /** After a round that goes on, the rounds from the post statement. */
  lemma {:induction false} ForAgain(m: Machine, n: nat, s: Stmt, x: Site, c: State, r: State, q: State) returns (p: State, d: State)
    requires n > 0 && s.For? && Ready(s, x) && Link(InLoop(s, x), r, q, c)
    ensures Run(m, n - 1, s.post, r) == Done(p) && RunC(m, n - 1, SimpleC(s.post), q) == CDone(d) && Held(x.held, c, d)
    ensures ForLike(m, n - 1, s, x, p, d)
    decreases n, s, 0
  {
    SimpleSim(m, n - 1, s.post, x, r, q);
    p, d := Run(m, n - 1, s.post, r).s, RunC(m, n - 1, SimpleC(s.post), q).s;
    ForSim(m, n - 1, s, x, p, d);
  }

  lemma {:induction false} ForBody(m: Machine, n: nat, s: Stmt, x: Site, g: State, c: State)
    requires n > 0 && s.For? && Ready(s, x) && Agree(x.scope, g, c)
    ensures RoundEnd(x, InLoop(s, x), s.lbl, s.body, Run(m, n - 1, s.body, g),
      RunC(m, n - 1, LoopBody(Nop, Lower(s.body, x.names).0, s.lbl, s.body), c), c)
    decreases n, s, 0
  {
    var y := InLoop(s, x);
    Simulates(m, n - 1, s.body, y, g, c);
    Escapes(m, n - 1, s.body, y.scope, y.encl, g);
    RoundSim(m, n - 1, x, y, s.lbl, s.body, Nop, Lower(s.body, x.names).0, Run(m, n - 1, s.body, g), c);
  }

  // Range loops

  function InRange(s: Stmt, x: Site): Site
    requires s.Range?
  {
    var k := Counter(s, x.names);
    Site(x.scope + Maybe(s.key) + Maybe(s.val), x.held + (if k.1 then {k.0} else {}), x.names + {k.0},
         x.encl + Maybe(s.lbl), BreakLoop)
  }

  lemma RangeReady(s: Stmt, x: Site)
    requires s.Range? && Ready(s, x)
    ensures Ready(s.body, InRange(s, x))
    ensures var k := Counter(s, x.names).0; k !in x.scope && k !in x.held
  {
  }

  lemma KeySim(m: Machine, n: nat, s: Stmt, x: Site, i: int, g: State, c: State)
    requires s.Range? && Ready(s, x) && Agree(x.scope, g, c) && Get(c, Counter(s, x.names).0) == i
    ensures var k := Counter(s, x.names).0;
      var h := if s.key.Some? then Put(g, s.key.value, i) else g;
      var d := RunC(m, n, Head(s, k).a, c);
      d.CDone? && Agree(x.scope + Maybe(s.key), h, d.s) && Held(InRange(s, x).held, c, d.s) && Get(d.s, k) == i
  {
    var k := Counter(s, x.names).0;
    RangeReady(s, x);
    assert Eval(m, Var(k), c) == i;
  }

  lemma HeadSim(m: Machine, n: nat, s: Stmt, x: Site, i: int, g: State, c: State)
    requires s.Range? && Ready(s, x) && Agree(x.scope, g, c) && Get(c, Counter(s, x.names).0) == i
    ensures var k := Counter(s, x.names).0;
      var d := RunC(m, n, Head(s, k), c);
      d.CDone? && Link(InRange(s, x), Bind(m, s, i, g), d.s, c) && Get(d.s, k) == i
  {
    var k := Counter(s, x.names).0;
    var d := RunC(m, n, Head(s, k).a, c).s;
    KeySim(m, n, s, x, i, g, c);
    ThenDone(m, n, Head(s, k).a, Head(s, k).b, c);
    ValSim(m, n, s, x, i, if s.key.Some? then Put(g, s.key.value, i) else g, d);
  }

  lemma ValSim(m: Machine, n: nat, s: Stmt, x: Site, i: int, h: State, d: State)
    requires s.Range? && Ready(s, x) && Agree(x.scope + Maybe(s.key), h, d) && Get(d, Counter(s, x.names).0) == i
    ensures var k := Counter(s, x.names).0;
      var b := if s.val.Some? && s.over.Each? then Put(h, s.val.value, Cell(m, h, s.over.buf, i)) else h;
      var q := RunC(m, n, Head(s, k).b, d);
      q.CDone? && Link(InRange(s, x), b, q.s, d) && Get(q.s, k) == i
  {
    var k := Counter(s, x.names).0;
    LessHolds(m, k, Lit(0), d);
    RangeReady(s, x);
  }

  /** The limit C evaluates again is the one Go evaluated. */
  lemma LimitKept(m: Machine, n: nat, s: Stmt, x: Site, i: int, g: State)
    requires s.Range? && Ready(s, x)
    requires !Run(m, n, s.body, Bind(m, s, i, g)).Timeout?
    ensures Bound(m, s.over, Run(m, n, s.body, Bind(m, s, i, g)).s) == Bound(m, s.over, g)
  {
    var y, h := InRange(s, x), Bind(m, s, i, g);
    var limit := LimitOf(s.over);
    RangeReady(s, x);
    forall v | v in Reads(limit) ensures Get(h, v) == Get(g, v) && Get(Run(m, n, s.body, h).s, v) == Get(g, v) {
      Keeps(m, n, s.body, y.scope, y.encl, v, h);
    }
    Keeps(m, n, s.body, y.scope, y.encl, "", h);
    ValueKept(m, limit, g, Run(m, n, s.body, h).s);
  }

  function RangeCond(s: Stmt, k: string): Option<Expr>
    requires s.Range?
  {
    Some(Less(Var(k), LimitOf(s.over)))
  }

  lemma CondHolds(m: Machine, s: Stmt, x: Site, k: string, i: int, g: State, c: State)
    requires s.Range? && Reads(LimitOf(s.over)) <= x.scope && Agree(x.scope, g, c) && Get(c, k) == i
    ensures Holds(m, RangeCond(s, k), c) <==> i < Bound(m, s.over, g)
  {
    SameValue(m, LimitOf(s.over), x.scope, g, c);
    LessHolds(m, k, LimitOf(s.over), c);
  }

  lemma LessHolds(m: Machine, k: string, limit: Expr, c: State)
    ensures Eval(m, Less(Var(k), limit), c) == Truth(Get(c, k) < Eval(m, limit, c))
    ensures Eval(m, Next(Var(k)), c) == Get(c, k) + 1
    ensures forall b :: Eval(m, Load(b, Var(k)), c) == Cell(m, c, b, Get(c, k))
  {
    assert Eval(m, Var(k), c) == Get(c, k);
  }

  /** A round, and then the rounds after it. */
  lemma RoundJoins(m: Machine, n: nat, cond: Option<Expr>, post: CStmt, body: CStmt,
      x: Site, lbl: Option<string>, src: Stmt, rest: Out, c: State, q: State, d: State)
    requires n > 0 && Holds(m, cond, c) && (RunC(m, n - 1, body, c) == CDone(q) || RunC(m, n - 1, body, c) == CCnt(q))
    requires RunC(m, n - 1, post, q) == CDone(d) && Held(x.held, c, d)
    requires Rounds(x, lbl, src, rest, LoopC(m, n - 1, cond, post, body, d), d)
    ensures Rounds(x, lbl, src, rest, LoopC(m, n, cond, post, body, c), c)
  {
    RoundAgain(m, n, cond, post, body, c);
    RoundsFrom(x, lbl, src, rest, LoopC(m, n - 1, cond, post, body, d), c, d);
  }

  /** A range loop before its break label. */
  predicate RangeLike(m: Machine, n: nat, s: Stmt, x: Site, i: int, g: State, c: State)
    requires s.Range?
  {
    var k := Counter(s, x.names).0;
    var body := LoopBody(Head(s, k), Lower(s.body, x.names + {k}).0, s.lbl, s.body);
    Rounds(x, s.lbl, s.body, Count(m, n, s, i, Bound(m, s.over, g), g),
      LoopC(m, n, RangeCond(s, k), Set(k, Next(Var(k))), body, c), c)
  }

  lemma {:induction false} RangeSim(m: Machine, n: nat, s: Stmt, x: Site, i: int, g: State, c: State)
    requires s.Range? && Ready(s, x) && Agree(x.scope, g, c) && Get(c, Counter(s, x.names).0) == i
    ensures RangeLike(m, n, s, x, i, g, c)
    decreases n, s, 1
  {
    var k := Counter(s, x.names).0;
    CondHolds(m, s, x, k, i, g, c);
    if n > 0 && i < Bound(m, s.over, g) {
      var b := LoopBody(Head(s, k), Lower(s.body, x.names + {k}).0, s.lbl, s.body);
      var r := Run(m, n - 1, s.body, Bind(m, s, i, g));
      RangeBody(m, n, s, x, i, g, c);
      if LoopCtrl(r, s.lbl).Some? {
        RoundLast(m, n, RangeCond(s, k), Set(k, Next(Var(k))), b, c);
      } else {
        var d := RangeAgain(m, n, s, x, i, g, c, r.s, RunC(m, n - 1, b, c).s);
        RangeJoins(m, n, s, x, i, g, c, k, b, r.s, RunC(m, n - 1, b, c).s, d, Bound(m, s.over, g));
      }
    }
  }

  /** After a round that goes on, the rounds from the next index. */
  lemma {:induction false} RangeAgain(m: Machine, n: nat, s: Stmt, x: Site, i: int, g: State, c: State, r: State, q: State) returns (d: State)
    requires n > 0 && s.Range? && Ready(s, x)
    requires var o := Run(m, n - 1, s.body, Bind(m, s, i, g)); LoopCtrl(o, s.lbl).None? && o.s == r
    requires Link(InRange(s, x), r, q, c) && Get(q, Counter(s, x.names).0) == i
    ensures var k := Counter(s, x.names).0; RunC(m, n - 1, Set(k, Next(Var(k))), q) == CDone(d) && Held(x.held, c, d)
    ensures Bound(m, s.over, r) == Bound(m, s.over, g) && RangeLike(m, n - 1, s, x, i + 1, r, d)
    decreases n, s, 0
  {
    d := RangeNext(m, n - 1, s, x, i, r, q, c);
    RangeSim(m, n - 1, s, x, i + 1, r, d);
    LimitKept(m, n - 1, s, x, i, g);
  }

  lemma RangeJoins(m: Machine, n: nat, s: Stmt, x: Site, i: int, g: State, c: State, k: string, b: CStmt, r: State, q: State, d: State, limit: int)
    requires n > 0 && s.Range? && k == Counter(s, x.names).0 && limit == Bound(m, s.over, g) == Bound(m, s.over, r) && i < limit
    requires b == LoopBody(Head(s, k), Lower(s.body, x.names + {k}).0, s.lbl, s.body)
    requires var o := Run(m, n - 1, s.body, Bind(m, s, i, g)); LoopCtrl(o, s.lbl).None? && o.s == r
    requires (RunC(m, n - 1, b, c) == CDone(q) || RunC(m, n - 1, b, c) == CCnt(q)) && Holds(m, RangeCond(s, k), c)
    requires RunC(m, n - 1, Set(k, Next(Var(k))), q) == CDone(d) && Held(x.held, c, d)
    requires RangeLike(m, n - 1, s, x, i + 1, r, d)
    ensures RangeLike(m, n, s, x, i, g, c)
  {
    RoundJoins(m, n, RangeCond(s, k), Set(k, Next(Var(k))), b, x, s.lbl, s.body, Count(m, n - 1, s, i + 1, limit, r), c, q, d);
  }

  lemma RangeNext(m: Machine, n: nat, s: Stmt, x: Site, i: int, g: State, q: State, c: State) returns (d: State)
    requires s.Range? && Ready(s, x) && Link(InRange(s, x), g, q, c) && Get(q, Counter(s, x.names).0) == i
    ensures var k := Counter(s, x.names).0;
      RunC(m, n, Set(k, Next(Var(k))), q) == CDone(d) && Agree(x.scope, g, d) && Held(x.held, c, d) && Get(d, k) == i + 1
  {
    RangeReady(s, x);
    LessHolds(m, Counter(s, x.names).0, Lit(0), q);
    d := RunC(m, n, Set(Counter(s, x.names).0, Next(Var(Counter(s, x.names).0))), q).s;
  }

  /** One round: the body sees the index as its own variable, and the counter survives it. */
  lemma {:induction false} RangeBody(m: Machine, n: nat, s: Stmt, x: Site, i: int, g: State, c: State)
    requires n > 0 && s.Range? && Ready(s, x) && Agree(x.scope, g, c) && Get(c, Counter(s, x.names).0) == i
    ensures var k := Counter(s, x.names).0;
      var r := Run(m, n - 1, s.body, Bind(m, s, i, g));
      var q := RunC(m, n - 1, LoopBody(Head(s, k), Lower(s.body, x.names + {k}).0, s.lbl, s.body), c);
      && RoundEnd(x, InRange(s, x), s.lbl, s.body, r, q, c)
      && (LoopCtrl(r, s.lbl).None? ==> Get(q.s, k) == i)
    decreases n, s, 0
  {
    var k, y := Counter(s, x.names).0, InRange(s, x);
    RangeReady(s, x);
    HeadSim(m, n - 1, s, x, i, g, c);
    var h, d := Bind(m, s, i, g), RunC(m, n - 1, Head(s, k), c).s;
    Simulates(m, n - 1, s.body, y, h, d);
    Escapes(m, n - 1, s.body, y.scope, y.encl, h);
    RoundSim(m, n - 1, x, y, s.lbl, s.body, Head(s, k), Lower(s.body, y.names).0, Run(m, n - 1, s.body, h), c);
    Keeps(m, n - 1, s.body, y.scope, y.encl, k, h);
  }

  /** The break label completes a loop. */
  lemma LoopEnds(m: Machine, n: nat, x: Site, s: Stmt, loop: CStmt, g: Out, c: State)
    requires s.For? || s.Range?
    requires Rounds(x, s.lbl, s.body, g, RunC(m, n, loop, c), c)
    requires Escape(g, s, x.encl) && Maybe(s.lbl) !! x.encl
    ensures Same(x, g, RunC(m, n, Labeled(s.lbl, s.body, loop), c), c)
  {
    LabeledRuns(m, n, s.lbl, s.body, loop, c);
  }

  lemma {:induction false} ForStmtSim(m: Machine, n: nat, s: Stmt, x: Site, g: State, c: State)
    requires s.For? && Ready(s, x) && Agree(x.scope, g, c)
    requires var i := Run(m, n, s.init, g);
      var d := RunC(m, n, SimpleC(s.init), c);
      Same(x, i, d, c) && i.Done? && ForLike(m, n, s, x, i.s, d.s)
    ensures Same(x, Run(m, n, s, g), RunC(m, n, Lower(s, x.names).0, c), c)
  {
    var init, post := SimpleC(s.init), SimpleC(s.post);
    var b := LoopBody(Nop, Lower(s.body, x.names).0, s.lbl, s.body);
    var h, d := Run(m, n, s.init, g).s, RunC(m, n, init, c).s;
    RoundsFrom(x, s.lbl, s.body, Loop(m, n, s, h), LoopC(m, n, s.cond, post, b, d), c, d);
    Escapes(m, n, s, x.scope, x.encl, g);
    LoopEnds(m, n, x, s, if s.init.Skip? && s.post.Skip? then While(s.cond, b) else ForC(init, s.cond, post, b), Run(m, n, s, g), c);
  }

  lemma {:induction false} RangeStmtSim(m: Machine, n: nat, s: Stmt, x: Site, g: State, c: State)
    requires s.Range? && Ready(s, x) && Agree(x.scope, g, c)
    requires RangeLike(m, n, s, x, 0, g, Put(c, Counter(s, x.names).0, 0))
    ensures Same(x, Run(m, n, s, g), RunC(m, n, Lower(s, x.names).0, c), c)
  {
    var k := Counter(s, x.names).0;
    var b := Lower(s.body, x.names + {k}).0;
    RangeReady(s, x);
    assert RunC(m, n, Set(k, Lit(0)), c) == CDone(Put(c, k, 0));
    RoundsFrom(x, s.lbl, s.body, Run(m, n, s, g), RunC(m, n, RangeC(s, k, b), c), c, Put(c, k, 0));
    Escapes(m, n, s, x.scope, x.encl, g);
    LoopEnds(m, n, x, s, RangeC(s, k, b), Run(m, n, s, g), c);
  }

  // Switches

  predicate ClausesReady(cs: Clauses, x: Site) {
    ClausesFormed(cs, x.scope, x.encl) && Roomy(ClauseNames(cs), x)
  }

  lemma {:induction false} CaseMatches(m: Machine, tag: Expr, vals: seq<Expr>, g: State)
    requires forall k :: 0 <= k < |vals| ==> vals[k].Lit?
    ensures Matches(m, Some(tag), vals, g) <==> Eval(m, tag, g) in CaseValues(vals)
  {
    var v := Eval(m, tag, g);
    if Matches(m, Some(tag), vals, g) {
      var k :| 0 <= k < |vals| && Eval(m, vals[k], g) == v;
      assert CaseValues(vals)[k] == v;
    }
    if v in CaseValues(vals) {
      var k :| 0 <= k < |vals| && CaseValues(vals)[k] == v;
      assert Eval(m, vals[k], g) == v;
    }
  }

  /** The arm C picks is the clause Go picks, written with some of the names taken. */
  lemma {:induction false} PickedArm(m: Machine, tag: Expr, cs: Clauses, names: set<string>, g: State) returns (k: set<string>)
    requires ConstantCases(cs)
    ensures names <= k
    ensures CasePicked(Eval(m, tag, g), LowerArms(cs, names).0) == LowerArms(Picked(m, Some(tag), cs, g), k).0
  {
    k := names;
    if cs.Clause? {
      CaseMatches(m, tag, cs.vals, g);
      if !Matches(m, Some(tag), cs.vals, g) {
        Grows(cs.body, names);
        k := PickedArm(m, tag, cs.rest, Lower(cs.body, names).1, g);
      }
    }
  }

  lemma {:induction false} DefaultIsArm(cs: Clauses, names: set<string>) returns (k: set<string>)
    ensures names <= k
    ensures DefaultArm(LowerArms(cs, names).0) == LowerArms(Default(cs), k).0
  {
    k := names;
    if cs.Clause? && cs.vals != [] {
      Grows(cs.body, names);
      k := DefaultIsArm(cs.rest, Lower(cs.body, names).1);
    }
  }

  lemma ChosenIsArm(m: Machine, tag: Expr, cs: Clauses, names: set<string>, g: State) returns (k: set<string>)
    requires ConstantCases(cs)
    ensures names <= k
    ensures ChosenArm(Eval(m, tag, g), LowerArms(cs, names).0) == LowerArms(Chosen(m, Some(tag), cs, g), k).0
  {
    k := PickedArm(m, tag, cs, names, g);
    if Picked(m, Some(tag), cs, g).End? { k := DefaultIsArm(cs, names); }
  }

  lemma {:induction false} TailReady(cs: Clauses, all: Clauses, x: Site, names: set<string>)
    requires Tail(cs, all) && ClausesReady(all, x) && x.names <= names
    ensures ClausesReady(cs, x.(names := names)) && (ArmsAccepted(all) ==> ArmsAccepted(cs))
    decreases all
  {
    if cs != all { TailReady(cs, all.rest, x, names); }
  }

  /** An arm ends its switch unless its clause falls through. */
  lemma ArmEnds(m: Machine, n: nat, x: Site, falls: bool, r: Out, c: CStmt, c0: State)
    requires Same(x, r, RunC(m, n, c, c0), c0)
    ensures var q := RunC(m, n, Block(if falls then c else Then(c, BreakC)), c0);
      if r.Done? then (if falls then q.CDone? else q.CBrk?) && Link(x, r.s, q.s, c0) else q == RunC(m, n, c, c0)
  {
    if !falls {
      var t := Then(c, BreakC);
      ThenRuns(m, n, c, BreakC, c0);
      if r.Done? { Enters(m, n, t, RunC(m, n, c, c0)); } else { Passes(m, n, t, RunC(m, n, c, c0)); }
    }
  }

  lemma {:induction false} ArmsSim(m: Machine, n: nat, cs: Clauses, x: Site, g: State, c: State)
    requires ClausesReady(cs, x) && ArmsAccepted(cs) && x.brk.BreakCSwitch? && Agree(x.scope, g, c)
    ensures Same(x, RunClauses(m, n, cs, g), RunArms(m, n, LowerArms(cs, x.names).0, c), c)
    decreases n, cs, 1
  {
    if cs.Clause? {
      var b := Lower(cs.body, x.names);
      var r := Run(m, n, cs.body, g);
      Simulates(m, n, cs.body, x, g, c);
      ArmEnds(m, n, x, cs.falls, r, b.0, c);
      if r.Done? && cs.falls {
        var d := RunC(m, n, b.0, c).s;
        Grows(cs.body, x.names);
        ArmsSim(m, n, cs.rest, x.(names := b.1), r.s, d);
      }
    }
  }

  // If/else chains

  /** The tag of a chain, in Go and as the temporary C holds it in. */
  predicate TagHeld(m: Machine, tag: Option<Expr>, tmp: Option<string>, g: State, c: State) {
    tag.Some? == tmp.Some? && (tag.Some? ==> Get(c, tmp.value) == Eval(m, tag.value, g))
  }

  /** One value of a case matches. */
  predicate MatchesOne(m: Machine, tag: Option<Expr>, v: Expr, g: State) {
    if tag.Some? then Eval(m, v, g) == Eval(m, tag.value, g) else Eval(m, v, g) != 0
  }

  lemma MatchesLast(m: Machine, tag: Option<Expr>, vals: seq<Expr>, g: State)
    requires vals != []
    ensures var n := |vals| - 1;
      Matches(m, tag, vals, g) <==> Matches(m, tag, vals[..n], g) || MatchesOne(m, tag, vals[n], g)
  {
    var n := |vals| - 1;
    if Matches(m, tag, vals[..n], g) {
      var k :| 0 <= k < n && MatchesOne(m, tag, vals[..n][k], g);
      assert vals[k] == vals[..n][k];
    }
    if Matches(m, tag, vals, g) && !MatchesOne(m, tag, vals[n], g) {
      var k :| 0 <= k < |vals| && MatchesOne(m, tag, vals[k], g);
      assert vals[..n][k] == vals[k];
    }
  }

  lemma {:induction false} AllReadsLast(vals: seq<Expr>)
    requires vals != []
    ensures AllReads(vals) == AllReads(vals[..|vals| - 1]) + Reads(vals[|vals| - 1])
  {
    var n := |vals| - 1;
    if n > 0 {
      AllReadsLast(vals[1..]);
      assert vals[..n][1..] == vals[1..][..n - 1] && vals[1..][n - 1] == vals[n];
    }
  }

  lemma {:induction false} CaseCondHolds(m: Machine, tag: Option<Expr>, tmp: Option<string>, vals: seq<Expr>, scope: set<string>, g: State, c: State)
    requires vals != [] && AllReads(vals) <= scope && Agree(scope, g, c) && TagHeld(m, tag, tmp, g, c)
    ensures Eval(m, CaseCond(tmp, vals), c) != 0 <==> Matches(m, tag, vals, g)
    decreases |vals|
  {
    var n := |vals| - 1;
    AllReadsLast(vals);
    MatchesLast(m, tag, vals, g);
    OneHolds(m, tag, tmp, vals[n], scope, g, c);
    if n > 0 { CaseCondHolds(m, tag, tmp, vals[..n], scope, g, c); }
  }

  lemma OneHolds(m: Machine, tag: Option<Expr>, tmp: Option<string>, v: Expr, scope: set<string>, g: State, c: State)
    requires Reads(v) <= scope && Agree(scope, g, c) && TagHeld(m, tag, tmp, g, c)
    ensures Eval(m, if tmp.Some? then Eq(Var(tmp.value), v) else v, c) != 0 <==> MatchesOne(m, tag, v, g)
  {
    SameValue(m, v, scope, g, c);
    if tmp.Some? { assert Eval(m, Var(tmp.value), c) == Get(c, tmp.value); }
  }

  lemma {:induction false} TailStep(cs: Clauses, all: Clauses)
    requires cs.Clause? && Tail(cs, all)
    ensures Tail(cs.rest, all)
    decreases all
  {
    if cs != all { TailStep(cs, all.rest); }
  }

  /** The chain runs the clause Go picks, and the default if it picks none. */
  lemma {:induction false} ChainSim(m: Machine, n: nat, all: Clauses, cs: Clauses, tag: Option<Expr>, tmp: Option<string>, x: Site, g: State, c: State)
    requires (cs == all || cs < all) && Tail(cs, all) && ClausesReady(all, x) && x.brk.BreakIfSwitch?
    requires ChainAccepted(all, cs) && Agree(x.scope, g, c) && TagHeld(m, tag, tmp, g, c)
    ensures
      var p := Picked(m, tag, cs, g);
      Same(x, RunClauses(m, n, if p.End? then Default(all) else p, g), RunC(m, n, LowerChain(all, cs, tmp, x.names).0, c), c)
    decreases n, all, 1, cs, 1
  {
    if cs.End? {
      DefaultIsTail(all);
      ClauseSim(m, n, all, Default(all), x, g, c);
    } else if cs.vals == [] {
      TailStep(cs, all);
      ChainSim(m, n, all, cs.rest, tag, tmp, x, g, c);
    } else {
      TailFormed(cs, all, x.scope, x.encl);
      ChainStep(m, n, all, cs, tag, tmp, x, g, c);
      if Matches(m, tag, cs.vals, g) {
        ClauseSim(m, n, all, cs, x, g, c);
      } else {
        ChainPast(m, n, all, cs, tag, tmp, x, g, c);
      }
    }
  }

  /** The clauses after one that does not match. */
  lemma {:induction false} ChainPast(m: Machine, n: nat, all: Clauses, cs: Clauses, tag: Option<Expr>, tmp: Option<string>, x: Site, g: State, c: State)
    requires !cs.End? && (cs == all || cs < all) && Tail(cs, all) && ClausesReady(all, x) && x.brk.BreakIfSwitch?
    requires ChainAccepted(all, cs) && Agree(x.scope, g, c) && TagHeld(m, tag, tmp, g, c)
    ensures
      var p := Picked(m, tag, cs.rest, g);
      Same(x, RunClauses(m, n, if p.End? then Default(all) else p, g),
        RunC(m, n, LowerChain(all, cs.rest, tmp, Lower(cs.body, x.names).1).0, c), c)
    decreases n, all, 1, cs, 0
  {
    TailStep(cs, all);
    Grows(cs.body, x.names);
    ChainSim(m, n, all, cs.rest, tag, tmp, x.(names := Lower(cs.body, x.names).1), g, c);
  }

  lemma ChainStep(m: Machine, n: nat, all: Clauses, cs: Clauses, tag: Option<Expr>, tmp: Option<string>, x: Site, g: State, c: State)
    requires (cs == all || cs < all) && cs.Clause? && cs.vals != [] && ClausesFormed(cs, x.scope, x.encl)
    requires Agree(x.scope, g, c) && TagHeld(m, tag, tmp, g, c)
    ensures RunC(m, n, LowerChain(all, cs, tmp, x.names).0, c) ==
      if Matches(m, tag, cs.vals, g) then RunC(m, n, Block(Lower(cs.body, x.names).0), c)
      else RunC(m, n, LowerChain(all, cs.rest, tmp, Lower(cs.body, x.names).1).0, c)
  {
    CaseCondHolds(m, tag, tmp, cs.vals, x.scope, g, c);
  }

  /** The body of one clause, which neither falls through nor breaks. */
  lemma {:induction false} ClauseSim(m: Machine, n: nat, all: Clauses, cs: Clauses, x: Site, g: State, c: State)
    requires (cs == all || cs < all) && Tail(cs, all) && ClausesReady(all, x) && x.brk.BreakIfSwitch?
    requires (cs.Clause? ==> Accepted(cs.body, BreakIfSwitch) && !cs.falls) && Agree(x.scope, g, c)
    ensures Same(x, RunClauses(m, n, cs, g), if cs.End? then CDone(c) else RunC(m, n, Block(Lower(cs.body, x.names).0), c), c)
    decreases n, all, 0, cs
  {
    TailReady(cs, all, x, x.names);
    if cs.Clause? {
      Simulates(m, n, cs.body, x, g, c);
      NoBareBreak(cs.body);
      Escapes(m, n, cs.body, x.scope, x.encl, g);
    }
  }

  // Parallel assignment

  /** The C code runs to its end and changes only variables whose names were free. */
  predicate Fills(names: set<string>, c: State, d: COut) {
    d.CDone? && Held(names, c, d.s) && d.s.mem == c.mem && d.s.trace == c.trace
  }

  lemma FillsMore(m: Machine, n: nat, tmp: string, e: Expr, rest: CStmt, names: set<string>, c: State)
    requires tmp !in names && Labels(rest) == {}
    requires var c1 := Put(c, tmp, Eval(m, e, c)); Fills(names + {tmp}, c1, RunC(m, n, rest, c1))
    ensures var c1 := Put(c, tmp, Eval(m, e, c));
      var d := RunC(m, n, Then(Set(tmp, e), rest), c);
      d == RunC(m, n, rest, c1) && Fills(names, c, d) && Get(d.s, tmp) == Eval(m, e, c)
  {
    var c1 := Put(c, tmp, Eval(m, e, c));
    assert RunC(m, n, Set(tmp, e), c) == CDone(c1);
    ThenDone(m, n, Set(tmp, e), rest, c);
    assert Get(c1, tmp) == Get(RunC(m, n, rest, c1).s, tmp);
  }

  /** A target whose subscript no store of the statement can change, and has its first value. */
  predicate Settled(m: Machine, u: Target, t: Target, all: seq<Target>, names: set<string>, g: State, d: State) {
    if t.Scalar? then u == t
    else u.Elem? && u.buf == t.buf && Stable(u.i, all) && Reads(u.i) <= names && Eval(m, u.i, d) == Eval(m, t.i, g)
  }

  lemma SettledKept(m: Machine, u: Target, t: Target, all: seq<Target>, names: set<string>, more: set<string>, g: State, c: State, d: State)
    requires Settled(m, u, t, all, names, g, c) && names <= more && Held(names, c, d)
    ensures Settled(m, u, t, all, more, g, d)
  {
  }

  predicate AllSettled(m: Machine, us: seq<Target>, ts: seq<Target>, all: seq<Target>, names: set<string>, g: State, d: State) {
    |us| == |ts| && forall k :: 0 <= k < |ts| ==> Settled(m, us[k], ts[k], all, names, g, d)
  }

  lemma AllSettledOne(m: Machine, u: Target, us: seq<Target>, ts: seq<Target>, all: seq<Target>, names: set<string>, g: State, d: State)
    requires ts != [] && Settled(m, u, ts[0], all, names, g, d) && AllSettled(m, us, ts[1..], all, names, g, d)
    ensures AllSettled(m, [u] + us, ts, all, names, g, d)
  {
  }

  lemma {:induction false} TargetsSim(m: Machine, n: nat, ts: seq<Target>, all: seq<Target>, names: set<string>, scope: set<string>, g: State, c: State)
    requires AllTargets(ts) <= scope <= names && Agree(scope, g, c) && forall v :: Scalar(v) in all ==> v in names
    ensures var r := LowerTargets(ts, all, names);
      var d := RunC(m, n, r.code, c);
      Fills(names, c, d) && AllSettled(m, r.ts, ts, all, r.names, g, d.s)
    decreases |ts|
  {
    if ts != [] {
      var r := LowerTargets(ts, all, names);
      if ts[0].Elem? && !Stable(ts[0].i, all) {
        var i := ts[0].i;
        var tmp := Reserve(BaseName(ts[0]) + "_idx", names);
        var q := LowerTargets(ts[1..], all, names + {tmp});
        var c1 := Put(c, tmp, Eval(m, i, c));
        TargetsSim(m, n, ts[1..], all, names + {tmp}, scope, g, c1);
        NoLabelsInTargets(ts[1..], all, names + {tmp});
        FillsMore(m, n, tmp, i, q.code, names, c);
        SameValue(m, i, scope, g, c);
        GrowsTargets(ts[1..], all, names + {tmp});
        var d := RunC(m, n, r.code, c).s;
        assert Eval(m, Var(tmp), d) == Get(d, tmp);
        AllSettledOne(m, Elem(ts[0].buf, Var(tmp)), q.ts, ts, all, q.names, g, d);
      } else {
        TargetsSim(m, n, ts[1..], all, names, scope, g, c);
        GrowsTargets(ts[1..], all, names);
        var d := RunC(m, n, r.code, c).s;
        if ts[0].Elem? {
          SameValue(m, ts[0].i, scope, g, c);
          SettledKept(m, ts[0], ts[0], all, names, r.names, g, c, d);
        }
        AllSettledOne(m, ts[0], LowerTargets(ts[1..], all, names).ts, ts, all, r.names, g, d);
      }
    }
  }

  /** Temporaries that are new and hold the values. */
  predicate AllHeld(m: Machine, temps: seq<string>, es: seq<Expr>, names: set<string>, g: State, d: State) {
    |temps| == |es| && forall k :: 0 <= k < |es| ==> temps[k] !in names && Get(d, temps[k]) == Eval(m, es[k], g)
  }

  lemma {:induction false} ValuesSim(m: Machine, n: nat, ts: seq<Target>, es: seq<Expr>, names: set<string>, scope: set<string>, g: State, c: State)
    requires |ts| == |es| && AllReads(es) <= scope <= names && Agree(scope, g, c)
    ensures var r := LowerValues(ts, es, names);
      var d := RunC(m, n, r.code, c);
      Fills(names, c, d) && AllHeld(m, r.temps, es, names, g, d.s)
    decreases |es|
  {
    if es != [] {
      var tmp := Reserve(BaseName(ts[0]) + "_tmp", names);
      var q := LowerValues(ts[1..], es[1..], names + {tmp});
      ValuesSim(m, n, ts[1..], es[1..], names + {tmp}, scope, g, Put(c, tmp, Eval(m, es[0], c)));
      NoLabelsInValues(ts[1..], es[1..], names + {tmp});
      FillsMore(m, n, tmp, es[0], q.code, names, c);
      SameValue(m, es[0], scope, g, c);
    }
  }

  /** What the stores start from: subscripts and values still as they were computed. */
  predicate Stocked(m: Machine, us: seq<Target>, temps: seq<string>, at: seq<int>, vs: seq<int>, all: seq<Target>, scope: set<string>, c: State) {
    |us| == |temps| == |at| == |vs| &&
    forall k :: 0 <= k < |us| ==>
      && temps[k] !in scope && Get(c, temps[k]) == vs[k]
      && (if us[k].Scalar? then us[k] in all && us[k].x in scope else Stable(us[k].i, all) && Eval(m, us[k].i, c) == at[k])
  }

  lemma {:induction false} StoresSim(m: Machine, n: nat, us: seq<Target>, temps: seq<string>, at: seq<int>, vs: seq<int>, all: seq<Target>, scope: set<string>, held: set<string>, g: State, c: State)
    requires Stocked(m, us, temps, at, vs, all, scope, c) && Agree(scope, g, c) && held !! scope
    ensures var d := RunC(m, n, LowerStores(us, temps), c);
      d.CDone? && Agree(scope, StoreAll(m, us, at, vs, g), d.s) && Held(held, c, d.s)
    decreases |us|
  {
    if us != [] {
      var t := us[0];
      var c1 := Store(m, t, at[0], vs[0], c);
      assert Eval(m, Var(temps[0]), c) == vs[0];
      assert RunC(m, n, StoreTo(t, Var(temps[0])), c) == CDone(c1);
      StockKept(m, us, temps, at, vs, all, scope, c, c1);
      StoresSim(m, n, us[1..], temps[1..], at[1..], vs[1..], all, scope, held, Store(m, t, at[0], vs[0], g), c1);
      ThenDone(m, n, StoreTo(t, Var(temps[0])), LowerStores(us[1..], temps[1..]), c);
    }
  }

  lemma StockKept(m: Machine, us: seq<Target>, temps: seq<string>, at: seq<int>, vs: seq<int>, all: seq<Target>, scope: set<string>, c: State, c1: State)
    requires Stocked(m, us, temps, at, vs, all, scope, c) && us != [] && c1 == Store(m, us[0], at[0], vs[0], c)
    ensures Stocked(m, us[1..], temps[1..], at[1..], vs[1..], all, scope, c1)
  {
    forall k | 1 <= k < |us| && us[k].Elem? ensures Eval(m, us[k].i, c1) == at[k] {
      assert Stable(us[k].i, all) && Eval(m, us[k].i, c) == at[k];
    }
  }

  lemma {:induction false} StoreAllSame(m: Machine, us: seq<Target>, ts: seq<Target>, at: seq<int>, vs: seq<int>, g: State)
    requires |us| == |ts| == |at| == |vs|
    requires forall k :: 0 <= k < |ts| ==> if ts[k].Scalar? then us[k] == ts[k] else us[k].Elem? && us[k].buf == ts[k].buf
    ensures StoreAll(m, us, at, vs, g) == StoreAll(m, ts, at, vs, g)
    decreases |ts|
  {
    if ts != [] { StoreAllSame(m, us[1..], ts[1..], at[1..], vs[1..], Store(m, ts[0], at[0], vs[0], g)); }
  }

  lemma {:induction false} TargetInScope(ts: seq<Target>, scope: set<string>, k: nat)
    requires AllTargets(ts) <= scope && k < |ts|
    ensures TargetNames(ts[k]) <= scope
  {
    if k > 0 { TargetInScope(ts[1..], scope, k - 1); }
  }

  lemma ScalarsInScope(ts: seq<Target>, scope: set<string>)
    requires AllTargets(ts) <= scope
    ensures forall v :: Scalar(v) in ts ==> v in scope
  {
    forall v | Scalar(v) in ts ensures v in scope {
      var k :| 0 <= k < |ts| && ts[k] == Scalar(v);
      TargetInScope(ts, scope, k);
    }
  }

  /** Sequential C with temporaries is Go's parallel assignment, repeated targets and aliased buffers
      included. */
  lemma ParSim(m: Machine, n: nat, ts: seq<Target>, es: seq<Expr>, x: Site, g: State, c: State)
    requires |ts| == |es| && AllTargets(ts) + AllReads(es) <= x.scope && Agree(x.scope, g, c)
    requires x.scope + x.held <= x.names && x.held !! x.scope
    ensures var d := RunC(m, n, LowerPar(ts, es, x.names).0, c);
      d.CDone? && Link(x, StoreAll(m, ts, AtAll(m, ts, g), EvalAll(m, es, g), g), d.s, c)
  {
    var at, vs := AtAll(m, ts, g), EvalAll(m, es, g);
    var p := LowerTargets(ts, ts, x.names);
    var q := LowerValues(ts, es, p.names);
    ScalarsInScope(ts, x.scope);
    GrowsTargets(ts, ts, x.names);
    TargetsSim(m, n, ts, ts, x.names, x.scope, g, c);
    var c1 := RunC(m, n, p.code, c).s;
    ValuesSim(m, n, ts, es, p.names, x.scope, g, c1);
    var c2 := RunC(m, n, q.code, c1).s;
    Stock(m, p.ts, q.temps, ts, es, p.names, x.scope, g, c1, c2);
    StoresSim(m, n, p.ts, q.temps, at, vs, ts, x.scope, x.held, g, c2);
    StoreAllSame(m, p.ts, ts, at, vs, g);
    NoLabelsInPar(ts, es, x.names);
    ThenDone(m, n, q.code, LowerStores(p.ts, q.temps), c1);
    ThenDone(m, n, p.code, Then(q.code, LowerStores(p.ts, q.temps)), c);
  }

  lemma Stock(m: Machine, us: seq<Target>, temps: seq<string>, ts: seq<Target>, es: seq<Expr>, names: set<string>, scope: set<string>, g: State, c1: State, c2: State)
    requires |ts| == |es| && AllSettled(m, us, ts, ts, names, g, c1) && AllHeld(m, temps, es, names, g, c2)
    requires Held(names, c1, c2) && scope <= names && forall v :: Scalar(v) in ts ==> v in scope
    ensures Stocked(m, us, temps, AtAll(m, ts, g), EvalAll(m, es, g), ts, scope, c2)
  {
    forall k | 0 <= k < |ts| ensures Settled(m, us[k], ts[k], ts, names, g, c2) {
      SettledKept(m, us[k], ts[k], ts, names, names, g, c1, c2);
    }
  }

  lemma LeafSim(m: Machine, n: nat, s: Stmt, x: Site, g: State, c: State)
    requires s.Skip? || s.Assign? || s.Par? || s.Effect? || s.Break? || s.Continue? || s.Return?
    requires Ready(s, x) && Agree(x.scope, g, c)
    ensures Same(x, Run(m, n, s, g), RunC(m, n, Lower(s, x.names).0, c), c)
  {
    match s
    case Assign(t, e) => AssignSim(m, n, t, e, x, g, c);
    case Par(ts, es) => ParSim(m, n, ts, es, x, g, c);
    case Effect(e) => SameValue(m, e, x.scope, g, c);
    case Return(v) => if v.Some? { SameValue(m, v.value, x.scope, g, c); }
    case _ =>
  }

  lemma {:induction false} SeqsSim(m: Machine, n: nat, s: Stmt, x: Site, g: State, c: State)
    requires s.Seq? && Ready(s, x) && Agree(x.scope, g, c)
    ensures Same(x, Run(m, n, s, g), RunC(m, n, Lower(s, x.names).0, c), c)
    decreases n, s, 2
  {
    Simulates(m, n, s.a, x, g, c);
    var r := Run(m, n, s.a, g);
    if r.Done? {
      Grows(s.a, x.names);
      var t := Lower(s.a, x.names);
      Simulates(m, n, s.b, x.(names := t.1), r.s, RunC(m, n, t.0, c).s);
    }
    SeqSim(m, n, s, x, g, c);
  }

  lemma {:induction false} LoopsSim(m: Machine, n: nat, s: Stmt, x: Site, g: State, c: State)
    requires (s.For? || s.Range?) && Ready(s, x) && Agree(x.scope, g, c)
    ensures Same(x, Run(m, n, s, g), RunC(m, n, Lower(s, x.names).0, c), c)
    decreases n, s, 2
  {
    if s.For? {
      SimpleSim(m, n, s.init, x, g, c);
      ForSim(m, n, s, x, Run(m, n, s.init, g).s, RunC(m, n, SimpleC(s.init), c).s);
      ForStmtSim(m, n, s, x, g, c);
    } else {
      RangeReady(s, x);
      RangeSim(m, n, s, x, 0, g, Put(c, Counter(s, x.names).0, 0));
      RangeStmtSim(m, n, s, x, g, c);
    }
  }

  lemma {:induction false} IfSim(m: Machine, n: nat, s: Stmt, x: Site, g: State, c: State)
    requires s.If? && Ready(s, x) && Agree(x.scope, g, c)
    ensures Same(x, Run(m, n, s, g), RunC(m, n, Lower(s, x.names).0, c), c)
    decreases n, s, 2
  {
    SameValue(m, s.c, x.scope, g, c);
    Grows(s.a, x.names);
    if Eval(m, s.c, g) != 0 {
      Simulates(m, n, s.a, x, g, c);
    } else {
      Simulates(m, n, s.b, x.(names := Lower(s.a, x.names).1), g, c);
    }
  }

  lemma {:induction false} Simulates(m: Machine, n: nat, s: Stmt, x: Site, g: State, c: State)
    requires Ready(s, x) && Agree(x.scope, g, c)
    ensures Same(x, Run(m, n, s, g), RunC(m, n, Lower(s, x.names).0, c), c)
    decreases n, s, 3
  {
    match s
    case Seq(_, _) => SeqsSim(m, n, s, x, g, c);
    case Scope(b) => Simulates(m, n, b, x, g, c);
    case If(_, _, _) => IfSim(m, n, s, x, g, c);
    case For(_, _, _, _, _) => LoopsSim(m, n, s, x, g, c);
    case Range(_, _, _, _, _) => LoopsSim(m, n, s, x, g, c);
    case Switch(_, _, _) => SwitchSim(m, n, s, x, g, c);
    case _ => LeafSim(m, n, s, x, g, c);
  }

  /** The arms from the chosen one on are ready to run. */
  lemma ArmsReady(m: Machine, s: Stmt, x: Site, g: State) returns (k: set<string>)
    requires s.Switch? && IsCSwitch(s) && Ready(s, x)
    ensures var cs := Chosen(m, s.tag, s.cs, g);
      && Tail(cs, s.cs) && ClausesReady(cs, x.(names := k, brk := BreakCSwitch)) && ArmsAccepted(cs)
      && ChosenArm(Eval(m, s.tag.value, g), LowerArms(s.cs, x.names).0) == LowerArms(cs, k).0
  {
    k := ChosenIsArm(m, s.tag.value, s.cs, x.names, g);
    ChosenIsTail(m, s.tag, s.cs, g);
    TailReady(Chosen(m, s.tag, s.cs, g), s.cs, x.(brk := BreakCSwitch), k);
  }

  lemma {:induction false} CSwitchSim(m: Machine, n: nat, s: Stmt, x: Site, g: State, c: State)
    requires s.Switch? && IsCSwitch(s) && Ready(s, x) && Agree(x.scope, g, c)
    ensures Same(x, Run(m, n, s, g), RunC(m, n, Lower(s, x.names).0, c), c)
    decreases n, s, 0
  {
    var k := ArmsReady(m, s, x, g);
    SameValue(m, s.tag.value, x.scope, g, c);
    ArmsSim(m, n, Chosen(m, s.tag, s.cs, g), x.(names := k, brk := BreakCSwitch), g, c);
  }

  lemma {:induction false} SwitchSim(m: Machine, n: nat, s: Stmt, x: Site, g: State, c: State)
    requires s.Switch? && Ready(s, x) && Agree(x.scope, g, c)
    ensures Same(x, Run(m, n, s, g), RunC(m, n, Lower(s, x.names).0, c), c)
    decreases n, s, 2
  {
    if IsCSwitch(s) {
      CSwitchSim(m, n, s, x, g, c);
    } else if s.tag.None? {
      ChainSim(m, n, s.cs, s.cs, None, None, x.(brk := BreakIfSwitch), g, c);
    } else {
      TaggedSim(m, n, s, x, g, c);
    }
  }

  lemma TagWritten(m: Machine, n: nat, tmp: string, e: Expr, scope: set<string>, g: State, c: State)
    requires Reads(e) <= scope && Agree(scope, g, c)
    ensures Eval(m, e, c) == Eval(m, e, g) && RunC(m, n, Set(tmp, e), c) == CDone(Put(c, tmp, Eval(m, e, c)))
  {
    SameValue(m, e, scope, g, c);
  }

  /** The tag is evaluated once, into a variable of its own. */
  lemma {:induction false} TaggedSim(m: Machine, n: nat, s: Stmt, x: Site, g: State, c: State)
    requires s.Switch? && !IsCSwitch(s) && s.tag.Some? && Ready(s, x) && Agree(x.scope, g, c)
    ensures Same(x, Run(m, n, s, g), RunC(m, n, Lower(s, x.names).0, c), c)
    decreases n, s, 1
  {
    var tmp := Reserve("switch_tag", x.names);
    var v := Eval(m, s.tag.value, c);
    var chain := LowerChain(s.cs, s.cs, Some(tmp), x.names + {tmp}).0;
    TagWritten(m, n, tmp, s.tag.value, x.scope, g, c);
    TaggedChain(m, n, s, x, g, c, tmp, Put(c, tmp, v));
    ThenDone(m, n, Set(tmp, s.tag.value), chain, c);
  }

  lemma {:induction false} TaggedChain(m: Machine, n: nat, s: Stmt, x: Site, g: State, c: State, tmp: string, d: State)
    requires s.Switch? && !IsCSwitch(s) && s.tag.Some? && Ready(s, x) && Agree(x.scope, g, c)
    requires tmp == Reserve("switch_tag", x.names) && d == Put(c, tmp, Eval(m, s.tag.value, g))
    ensures Same(x, Run(m, n, s, g), RunC(m, n, LowerChain(s.cs, s.cs, Some(tmp), x.names + {tmp}).0, d), c)
    decreases n, s, 0
  {
    ChainSim(m, n, s.cs, s.cs, s.tag, Some(tmp), x.(names := x.names + {tmp}, brk := BreakIfSwitch), g, d);
  }

  /** Both run out of rounds, or both end in the same way, with the same value returned and the same
      variables, memory and effects.  A branch that no loop takes ends both. */
  predicate EndsAlike(scope: set<string>, r: Out, q: COut) {
    match r
    case Done(h) => q.CDone? && Agree(scope, h, q.s)
    case Ret(v, h) => q.CRet? && q.v == v && Agree(scope, h, q.s)
    case Brk(l, h) => l.None? && q.CBrk? && Agree(scope, h, q.s)
    case Cnt(l, h) => l.None? && q.CCnt? && Agree(scope, h, q.s)
    case Timeout => q.CTimeout?
  }

  /** Lowering preserves meaning: from one state, the C of a function body does what the Go does, for
      every number of rounds its loops are given. */
  lemma LoweringSound(m: Machine, n: nat, s: Stmt, scope: set<string>, names: set<string>, g: State)
    requires Formed(s, scope, {}) && Accepted(s, BreakLoop) && scope + Names(s) <= names
    ensures EndsAlike(scope, Run(m, n, s, g), RunC(m, n, Lower(s, names).0, g))
  {
    Simulates(m, n, s, Site(scope, {}, names, {}, BreakLoop), g, g);
    Escapes(m, n, s, scope, {}, g);
  }
}
