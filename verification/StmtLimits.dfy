/** Where the statement lowering needs its side condition. */
module StmtLimits {
  import opened Basics
  import opened StmtLang
  import opened StmtLower
  import opened StmtSound

  /** for key := range lim { touch(e); lim = e } */
  function Shrinking(key: string, lim: string, e: Expr): Stmt {
    Range(None, Some(key), None, Upto(Var(lim)), ShrinkingBody(lim, e))
  }

  function ShrinkingBody(lim: string, e: Expr): Stmt { Seq(Effect(e), Assign(Scalar(lim), e)) }

  /** One round of the body in either language. */
  function Shrunk(m: Machine, lim: string, e: Expr, g: State): State {
    Put(g.(trace := g.trace + [Eval(m, e, g)]), lim, Eval(m, e, g))
  }

  lemma BodyShrinks(m: Machine, n: nat, lim: string, e: Expr, names: set<string>, g: State)
    requires e.Lit?
    ensures Run(m, n, ShrinkingBody(lim, e), g) == Done(Shrunk(m, lim, e, g))
    ensures RunC(m, n, LoopBody(Then(Nop, Nop), Lower(ShrinkingBody(lim, e), names).0, None, ShrinkingBody(lim, e)), g) ==
      CDone(Shrunk(m, lim, e, g))
  {
    var b := Lower(ShrinkingBody(lim, e), names).0;
    ThenDone(m, n, Do(e), Set(lim, e), g);
    ThenDone(m, n, Nop, Nop, g);
    ThenDone(m, n, Then(Nop, Nop), b, g);
  }

  /** Go counts to the limit it read first. */
  lemma GoRounds(m: Machine, key: string, lim: string, e: Expr, g: State)
    requires key != lim && e.Lit? && Get(g, lim) == 2
    ensures var r := Run(m, 3, Shrinking(key, lim, e), g); r.Done? && |r.s.trace| == |g.trace| + 2
  {
    var s := Shrinking(key, lim, e);
    var g1 := Shrunk(m, lim, e, Put(g, key, 0));
    var g2 := Shrunk(m, lim, e, Put(g1, key, 1));
    BodyShrinks(m, 2, lim, e, {}, Put(g, key, 0));
    BodyShrinks(m, 1, lim, e, {}, Put(g1, key, 1));
    assert Eval(m, Var(lim), g) == 2;
    assert Count(m, 1, s, 2, 2, g2) == Done(g2);
    assert Count(m, 2, s, 1, 2, g1) == Count(m, 1, s, 2, 2, g2);
    assert Count(m, 3, s, 0, 2, g) == Count(m, 2, s, 1, 2, g1);
  }

  lemma ForRuns(m: Machine, n: nat, init: CStmt, cond: Option<Expr>, post: CStmt, body: CStmt, g: State, c: State)
    requires RunC(m, n, init, g) == CDone(c)
    ensures RunC(m, n, ForC(init, cond, post, body), g) == LoopC(m, n, cond, post, body, c)
  {
  }

  lemma ShrinkingLowers(key: string, lim: string, e: Expr, names: set<string>)
    requires key != lim
    ensures var s := Shrinking(key, lim, e);
      Lower(s, names).0 == ForC(Set(key, Lit(0)), RangeCond(s, key), Set(key, Next(Var(key))),
        LoopBody(Head(s, key), Lower(s.body, names + {key}).0, s.lbl, s.body))
  {
    assert !Assigns(ShrinkingBody(lim, e), key);
  }

  /** C reads it again, and stops. */
  lemma CRounds(m: Machine, key: string, lim: string, e: Expr, names: set<string>, g: State)
    requires key != lim && e.Lit? && e.v <= 0 && Get(g, lim) == 2
    ensures var q := RunC(m, 3, Lower(Shrinking(key, lim, e), names).0, g); q.CDone? && |q.s.trace| == |g.trace| + 1
  {
    var s := Shrinking(key, lim, e);
    var body := LoopBody(Head(s, key), Lower(s.body, names + {key}).0, s.lbl, s.body);
    var post, cond := Set(key, Next(Var(key))), RangeCond(s, key);
    var c0 := Put(g, key, 0);
    var c1 := Shrunk(m, lim, e, c0);
    BodyShrinks(m, 2, lim, e, names + {key}, c0);
    LessHolds(m, key, Var(lim), c0);
    LessHolds(m, key, Var(lim), c1);
    var c2 := Put(c1, key, 1);
    LessHolds(m, key, Var(lim), c2);
    assert RunC(m, 2, post, c1) == CDone(c2);
    RoundAgain(m, 3, cond, post, body, c0);
    assert Eval(m, Var(lim), c2) == e.v && Eval(m, Var(lim), c0) == 2;
    assert LoopC(m, 2, cond, post, body, c2) == CDone(c2);
    assert LoopC(m, 3, cond, post, body, c0) == CDone(c2);
    ShrinkingLowers(key, lim, e, names);
    ForRuns(m, 3, Set(key, Lit(0)), cond, post, body, g, c0);
  }

  /** Without LimitHolds the theorem fails: a body that writes the limit of its own integer range runs
      twice in Go and once in the C. */
  lemma LimitIsReadAgain(m: Machine, key: string, lim: string, e: Expr, names: set<string>, g: State)
    requires key != lim && e.Lit? && e.v <= 0 && Get(g, lim) == 2
    ensures var s := Shrinking(key, lim, e);
      && Accepted(s, BreakLoop) && !LimitHolds(LimitOf(s.over), s.body)
      && !EndsAlike({lim}, Run(m, 3, s, g), RunC(m, 3, Lower(s, names).0, g))
  {
    GoRounds(m, key, lim, e, g);
    CRounds(m, key, lim, e, names, g);
    assert lim in Reads(Var(lim)) && Assigns(ShrinkingBody(lim, e), lim);
  }
}
