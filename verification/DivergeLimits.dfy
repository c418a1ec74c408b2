/** Kernels outside the condition of DivergeSound that the check accepts although two threads of a
    block execute different barriers: each shows that a clause of the condition is needed. */
module DivergeLimits {
  import opened DivergeLang
  import opened DivergeCheck
  import opened DivergeSound

  const FREE := Block((o, a) => a, (o, a, b) => a, (b, i) => 0, w => 0)

  /** The two threads of the examples: one answers 0 wherever a thread is asked for itself, the
      other 1. */
  function Thread(v: int): Machine { Machine(FREE, (w, i) => v, k => v) }

  /** for { if tid { break }; return } */
  function DeepInner(tid: Expr): Stmt { For("", Skip, Lit(1), Skip, DeepBody(tid)) }

  function DeepBody(tid: Expr): Stmt { Seq(If(Skip, tid, Break(""), Skip), Return(Lit(0))) }

  /** for tid times { return } */
  const RANGE_INNER := Range("", "k", PerThread("tid"), Return(Lit(0)))

  /** for range 2 { sync; inner } */
  function TwiceWith(inner: Stmt): Stmt { Range("", "i", Lit(2), Seq(Barrier, inner)) }

  const START := State(map[], Trace([], 0))

  /** How inner ends a run of thread v: it executes nothing collective, and returns or not. */
  ghost predicate Ends(v: int, inner: Stmt, rets: bool) {
    forall st: State, n: nat | n > 0 ::
      var r := Run([], Thread(v), inner, st, n);
      r.Done? && r.o == (if rets then Ret(0) else Next) && r.st.trace.events == st.trace.events
  }

  /** One round each if inner returns, two if it does not. */
  lemma TwoRounds(v: int, inner: Stmt, rets: bool)
    requires Ends(v, inner, rets)
    ensures Run([], Thread(v), TwiceWith(inner), START, 3).Done?
    ensures Run([], Thread(v), TwiceWith(inner), START, 3).st.trace.events == if rets then [Sync] else [Sync, Sync]
  {
    var m, s := Thread(v), TwiceWith(inner);
    OneRound(v, inner, rets, START.(env := START.env["i" := 0]), 3);
    var r := Run([], m, s.body, START.(env := START.env["i" := 0]), 3);
    assert [] + [Sync] == [Sync];
    if !rets {
      OneRound(v, inner, rets, r.st.(env := r.st.env["i" := 1]), 2);
      assert [Sync] + [Sync] == [Sync, Sync];
      var q := Run([], m, s.body, r.st.(env := r.st.env["i" := 1]), 2);
      assert Count([], m, s, 1, 2, r.st, 2) == Count([], m, s, 2, 2, q.st, 1) == Done(Next, q.st);
      assert Count([], m, s, 0, 2, START, 3) == Done(Next, q.st);
    }
  }

  lemma OneRound(v: int, inner: Stmt, rets: bool, st: State, n: nat)
    requires Ends(v, inner, rets) && n > 0
    ensures var r := Run([], Thread(v), TwiceWith(inner).body, st, n);
      r.Done? && r.o == (if rets then Ret(0) else Next) && r.st.trace.events == st.trace.events + [Sync]
  {
    var st1 := st.(trace := st.trace.With(Sync));
    assert Run([], Thread(v), Barrier, st, n) == Done(Next, st1);
    assert Run([], Thread(v), inner, st1, n).Done?;
  }

  lemma AcceptsTwice(inner: Stmt, V: set<string>)
    requires Mark(inner, false, {}) == V && Mark(inner, false, V) == V
    requires !Exits(inner, false, false, {}) && !Exits(inner, false, false, V)
    requires !Check([], V, inner, false, NOTHING.(barrier := true)).reported
    ensures !CheckKernel([], TwiceWith(inner)).reported
    ensures Fixpoint(TwiceWith(inner), {}) == V
  {
    var s := TwiceWith(inner);
    forall W: set<string> | W == {} || W == V ensures Mark(s, false, W) == V && !ForVaries(s.limit, s.body, W) {
      assert !Exits(s.body, false, false, W);
      assert Mark(s.body, false, W) == Mark(inner, false, W);
    }
    assert Fixpoint(s, V) == V;
    assert Fixpoint(s, {}) == V;
    assert Check([], V, s.body, false, NOTHING) == Check([], V, inner, false, NOTHING.(barrier := true));
  }

  /** The check accepts a kernel in which a return two loops deep lets one thread past a barrier the
      other still waits at: the outer loop is judged uniform because the inner one is judged by its
      condition alone.  The strict walk sees it. */
  lemma DeepReturnSlipsThrough(w: string)
    ensures
      var s := TwiceWith(DeepInner(PerThread(w)));
      && !CheckKernel([], s).reported && !Covered([], {}, s)
      && Run([], Thread(0), s, START, 3).Done? && Run([], Thread(1), s, START, 3).Done?
      && Run([], Thread(0), s, START, 3).st.trace.events == [Sync]
      && Run([], Thread(1), s, START, 3).st.trace.events == [Sync, Sync]
  {
    var inner := DeepInner(PerThread(w));
    DeepReturnAccepted(PerThread(w), inner, DeepBody(PerThread(w)));
    DeepInnerRuns(0, w);
    DeepInnerRuns(1, w);
    TwoRounds(0, inner, true);
    TwoRounds(1, inner, false);
  }

  lemma DeepReturnAccepted(tid: Expr, inner: Stmt, b: Stmt)
    requires tid.PerThread? && inner == For("", Skip, Lit(1), Skip, b) && b == DeepBody(tid)
    ensures !CheckKernel([], TwiceWith(inner)).reported && !Covered([], {}, TwiceWith(inner))
  {
    DeepExits(tid, inner, b, {});
    DeepCheck(tid, b, NOTHING.(barrier := true));
    assert Check([], {}, inner, false, NOTHING.(barrier := true)) == Check([], {}, b, true, NOTHING.(barrier := true));
    AcceptsTwice(inner, {});
    SeqExits(inner, {});
  }

  lemma SeqExits(inner: Stmt, V: set<string>)
    ensures Exits(TwiceWith(inner).body, false, false, V) == Exits(inner, false, false, V)
    ensures Strict(TwiceWith(inner).body, false, false, V) == Strict(inner, false, false, V)
  {
  }

  /** What the two exit walks say of the inner loop. */
  lemma DeepExits(tid: Expr, inner: Stmt, b: Stmt, V: set<string>)
    requires tid.PerThread? && inner == For("", Skip, Lit(1), Skip, b) && b == DeepBody(tid) && V == {}
    ensures ForVaries(inner.cond, b, V) && Mark(inner, false, V) == V && !Exits(inner, false, false, V) && Strict(inner, false, false, V)
  {
    assert b.s2 == Return(Lit(0)) && Mark(b.s1, true, V) == V;
    assert Mark(b, true, V) == Mark(b.s2, true, V) == V;
    assert !Exits(b.s1, false, true, V) && Exits(b.s1, false, false, V);
    assert Exits(b, false, true, V) == (Exits(b.s1, false, true, V) || Exits(b.s2, false, true, V));
    assert Exits(b, false, false, V) && Strict(b, true, true, V);
  }

  lemma DeepCheck(tid: Expr, b: Stmt, u: Use)
    requires tid.PerThread? && b == DeepBody(tid)
    ensures Check([], {}, b, true, u) == u.(leaves := true)
  {
    assert Check([], {}, b.s1, true, u) == u;
  }

  lemma DeepInnerRuns(v: int, w: string)
    ensures Ends(v, DeepInner(PerThread(w)), v == 0)
  {
    var inner, b := DeepInner(PerThread(w)), DeepBody(PerThread(w));
    forall st: State, n: nat | n > 0
      ensures var r := Run([], Thread(v), inner, st, n);
        r.Done? && r.o == (if v == 0 then Ret(0) else Next) && r.st.trace.events == st.trace.events
    {
      var m, st1 := Thread(v), st.(trace := st.trace.(asked := st.trace.asked + 1));
      assert ValueOf([], m, PerThread(w), st.env, st.trace, n) == Value(v, st1.trace);
      assert Run([], m, b.s1, st, n) == Done(if v == 0 then Next else Brk(""), st1);
      assert Run([], m, Return(Lit(0)), st1, n) == Done(Ret(0), st1);
      assert Run([], m, b, st, n) == Done(if v == 0 then Ret(0) else Brk(""), st1);
      assert Loop([], m, inner, st, n) == Done(if v == 0 then Ret(0) else Next, st1);
    }
  }

  /** `for range tid { return }` in the same place: the walk never asks for a nested range's verdict,
      and the check lets a return from it past the outer loop. */
  lemma DeepRangeUnseen()
    ensures !Exits(RANGE_INNER, false, false, {}) && Strict(RANGE_INNER, false, false, {})
    ensures
      var s := TwiceWith(RANGE_INNER);
      && !CheckKernel([], s).reported && !Covered([], {"k"}, s)
      && Run([], Thread(0), s, START, 3).Done? && Run([], Thread(1), s, START, 3).Done?
      && Run([], Thread(0), s, START, 3).st.trace.events == [Sync, Sync]
      && Run([], Thread(1), s, START, 3).st.trace.events == [Sync]
  {
    DeepRangeAccepted();
    RangeInnerRuns(0, RANGE_INNER);
    RangeInnerRuns(1, RANGE_INNER);
    TwoRounds(0, RANGE_INNER, false);
    TwoRounds(1, RANGE_INNER, true);
  }

  lemma DeepRangeAccepted()
    ensures !Exits(RANGE_INNER, false, false, {}) && Strict(RANGE_INNER, false, false, {})
    ensures !CheckKernel([], TwiceWith(RANGE_INNER)).reported && !Covered([], {"k"}, TwiceWith(RANGE_INNER))
  {
    var b := RANGE_INNER.body;
    assert ForVaries(RANGE_INNER.limit, b, {}) && ForVaries(RANGE_INNER.limit, b, {"k"});
    assert Strict(RANGE_INNER, false, false, {"k"});
    assert Mark(RANGE_INNER, false, {}) == {"k"} && Mark(RANGE_INNER, false, {"k"}) == {"k"};
    AcceptsTwice(RANGE_INNER, {"k"});
    SeqExits(RANGE_INNER, {"k"});
  }

  lemma RangeInnerRuns(v: int, inner: Stmt)
    requires (v == 0 || v == 1) && inner.Range? && inner.limit.PerThread? && inner.body == Return(Lit(0))
    ensures Ends(v, inner, v == 1)
  {
    forall st: State, n: nat | n > 0
      ensures var r := Run([], Thread(v), inner, st, n);
        r.Done? && r.o == (if v == 1 then Ret(0) else Next) && r.st.trace.events == st.trace.events
    {
      var m, st1 := Thread(v), st.(trace := st.trace.(asked := st.trace.asked + 1));
      assert ValueOf([], m, inner.limit, st.env, st.trace, n) == Value(v, st1.trace);
      var st2 := st1.(env := st1.env[inner.key := 0]);
      assert Run([], m, inner.body, st2, n) == Done(Ret(0), st2);
      assert Count([], m, inner, 0, v, st1, n) == if v == 1 then Done(Ret(0), st2) else Done(Next, st1);
    }
  }

  /** tid && f(), where f is a barrier */
  const SHORT_CIRCUIT := ExprStmt(AndAlso(PerThread("tid"), Call(0, [])))
  const BARRIER_FUNC := Func([], Barrier)

  /** The check accepts a barrier that only the threads on the taken side of && reach. */
  lemma ShortCircuitSlipsThrough()
    ensures Program([BARRIER_FUNC]) && !CheckKernel([BARRIER_FUNC], SHORT_CIRCUIT).reported
    ensures Run([BARRIER_FUNC], Thread(0), SHORT_CIRCUIT, START, 1) == Done(Next, State(map[], Trace([], 1)))
    ensures Run([BARRIER_FUNC], Thread(1), SHORT_CIRCUIT, START, 1) == Done(Next, State(map[], Trace([Sync], 1)))
  {
    var P, t := [BARRIER_FUNC], Trace([], 1);
    assert P[..0] == [];
    assert Table(P) == [Summary([], BARRIER_FUNC)];
    assert Run(P, Thread(1), Barrier, State(map[], t), 0) == Done(Next, State(map[], t.With(Sync)));
    assert Values(P, Thread(1), [], START.env, t, 1) == Args([], t);
    assert Bind([], []) == map[];
    assert ValueOf(P, Thread(1), Call(0, []), START.env, t, 1) == Value(0, t.With(Sync));
  }
}
