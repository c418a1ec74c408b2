/** The kernel language the barrier-divergence analysis walks, and what running it does.

    A program is a sequence of device functions, callees first: the lowering refuses recursion,
    so every call graph it accepts can be listed that way.  A run is fuelled, and what it leaves
    behind is an environment and the trace of the collective operations the thread executed. */
module DivergeLang {

  datatype Expr =
    | Lit(n: int)                          // anything go/types folded to a constant
    | Var(x: string)                       // a scalar variable
    | Uniform(what: string)                // ctx.BlockIdx, ctx.GridDim, len(s), ...
    | PerThread(what: string)              // ctx.ThreadIdx, ctx.LaneID, an atomic's old value, ...
    | Un(op: string, e: Expr)
    | Bin(op: string, a: Expr, b: Expr)    // every strict operator, min, max and the math helpers
    | AndAlso(a: Expr, b: Expr)            // &&
    | OrElse(a: Expr, b: Expr)             // ||
    | Load(buf: string, idx: Expr)         // s[i], over memory that does not change during the run
    | Warp(op: string, e: Expr)            // a warp primitive that carries the full mask
    | Call(f: nat, args: seq<Expr>)        // a device function

  datatype Stmt =
    | Skip
    | Barrier                              // ctx.SyncThreads()
    | ExprStmt(e: Expr)                      // an expression statement
    | Assign(x: string, e: Expr)           // =, := and var: one object is one name
    | IncDec(x: string, step: int)
    | Seq(s1: Stmt, s2: Stmt)
    | If(init: Stmt, cond: Expr, thn: Stmt, els: Stmt)
    | For(lbl: string, init: Stmt, cond: Expr, post: Stmt, body: Stmt)
    | Range(lbl: string, key: string, limit: Expr, body: Stmt)
    | Break(lbl: string)                   // "" is the bare form
    | Continue(lbl: string)
    | Return(e: Expr)

  datatype Func = Func(params: seq<string>, body: Stmt)

  /** What every thread of a block sees alike: the operators, memory, and the launch. */
  datatype Block = Block(
    un: (string, int) -> int,
    bin: (string, int, int) -> int,
    mem: (string, int) -> int,
    uni: string -> int)

  /** One thread of a block: `thr` and `warp` are its own, and unconstrained.  Whatever a thread asks for
      itself may be answered differently every time. */
  datatype Machine = Machine(block: Block, thr: (string, nat) -> int, warp: nat -> int)

  datatype Event = Sync | Shuffle(op: string)

  /** The collective operations a thread has executed, and how often it has asked for itself. */
  datatype Trace = Trace(events: seq<Event>, asked: nat) {
    function With(e: Event): Trace { this.(events := events + [e]) }
  }

  datatype State = State(env: map<string, int>, trace: Trace)

  datatype Outcome = Next | Brk(l: string) | Cnt(l: string) | Ret(v: int)

  datatype ValueResult = NoValue | Value(v: int, trace: Trace)
  datatype ArgsResult = NoArgs | Args(vs: seq<int>, trace: Trace)
  datatype RunResult = OutOfFuel | Done(o: Outcome, st: State)

  function Get(env: map<string, int>, x: string): int {
    if x in env then env[x] else 0
  }

  function Bind(params: seq<string>, vs: seq<int>): map<string, int> {
    if params == [] || vs == [] then map[]
    else Bind(params[1..], vs[1..])[params[0] := vs[0]]
  }

  /** What a loop makes of the outcome of its body: (go round again, what the loop ends with). */
  function LoopCtrl(o: Outcome, lbl: string): (bool, Outcome) {
    match o
    case Next => (true, Next)
    case Cnt(l) => if l == "" || l == lbl then (true, Next) else (false, o)
    case Brk(l) => if l == "" || l == lbl then (false, Next) else (false, o)
    case Ret(_) => (false, o)
  }

  function ValueOf(P: seq<Func>, m: Machine, e: Expr, env: map<string, int>, tr: Trace, n: nat): ValueResult
    decreases n, e, 0
  {
    match e
    case Lit(k) => Value(k, tr)
    case Var(x) => Value(Get(env, x), tr)
    case Uniform(w) => Value(m.block.uni(w), tr)
    case PerThread(w) => Value(m.thr(w, tr.asked), tr.(asked := tr.asked + 1))
    case Un(op, a) =>
      var r := ValueOf(P, m, a, env, tr, n);
      if r.NoValue? then r else Value(m.block.un(op, r.v), r.trace)
    case Bin(op, a, b) =>
      var r := ValueOf(P, m, a, env, tr, n);
      if r.NoValue? then r else
        var q := ValueOf(P, m, b, env, r.trace, n);
        if q.NoValue? then q else Value(m.block.bin(op, r.v, q.v), q.trace)
    case AndAlso(a, b) =>
      var r := ValueOf(P, m, a, env, tr, n);
      if r.NoValue? || r.v == 0 then r else ValueOf(P, m, b, env, r.trace, n)
    case OrElse(a, b) =>
      var r := ValueOf(P, m, a, env, tr, n);
      if r.NoValue? || r.v != 0 then r else ValueOf(P, m, b, env, r.trace, n)
    case Load(buf, i) =>
      var r := ValueOf(P, m, i, env, tr, n);
      if r.NoValue? then r else Value(m.block.mem(buf, r.v), r.trace)
    case Warp(op, a) =>
      var r := ValueOf(P, m, a, env, tr, n);
      if r.NoValue? then r else Value(m.warp(|r.trace.events|), r.trace.With(Shuffle(op)))
    case Call(f, args) =>
      var r := Values(P, m, args, env, tr, n);
      if r.NoArgs? then NoValue
      else if f >= |P| then Value(0, r.trace)
      else if n == 0 then NoValue
      else
        match Run(P, m, P[f].body, State(Bind(P[f].params, r.vs), r.trace), n - 1)
        case OutOfFuel => NoValue
        case Done(o, st) => Value(if o.Ret? then o.v else 0, st.trace)
  }

  function Values(P: seq<Func>, m: Machine, es: seq<Expr>, env: map<string, int>, tr: Trace, n: nat): ArgsResult
    decreases n, es, 0
  {
    if es == [] then Args([], tr) else
      var r := ValueOf(P, m, es[0], env, tr, n);
      if r.NoValue? then NoArgs else
        var q := Values(P, m, es[1..], env, r.trace, n);
        if q.NoArgs? then q else Args([r.v] + q.vs, q.trace)
  }

  function Run(P: seq<Func>, m: Machine, s: Stmt, st: State, n: nat): RunResult
    decreases n, s, 1
  {
    match s
    case Skip => Done(Next, st)
    case Barrier => Done(Next, st.(trace := st.trace.With(Sync)))
    case ExprStmt(e) =>
      var r := ValueOf(P, m, e, st.env, st.trace, n);
      if r.NoValue? then OutOfFuel else Done(Next, st.(trace := r.trace))
    case Assign(x, e) =>
      var r := ValueOf(P, m, e, st.env, st.trace, n);
      if r.NoValue? then OutOfFuel else Done(Next, State(st.env[x := r.v], r.trace))
    case IncDec(x, k) => Done(Next, st.(env := st.env[x := Get(st.env, x) + k]))
    case Seq(a, b) =>
      var r := Run(P, m, a, st, n);
      if r.Done? && r.o == Next then Run(P, m, b, r.st, n) else r
    case If(init, c, a, b) =>
      var i := Run(P, m, init, st, n);
      if i.OutOfFuel? then i else
        var r := ValueOf(P, m, c, i.st.env, i.st.trace, n);
        if r.NoValue? then OutOfFuel
        else Run(P, m, if r.v != 0 then a else b, i.st.(trace := r.trace), n)
    case For(_, init, _, _, _) =>
      var i := Run(P, m, init, st, n);
      if i.OutOfFuel? then i else Loop(P, m, s, i.st, n)
    case Range(_, _, limit, _) =>
      var r := ValueOf(P, m, limit, st.env, st.trace, n);
      if r.NoValue? then OutOfFuel else Count(P, m, s, 0, r.v, st.(trace := r.trace), n)
    case Break(l) => Done(Brk(l), st)
    case Continue(l) => Done(Cnt(l), st)
    case Return(e) =>
      var r := ValueOf(P, m, e, st.env, st.trace, n);
      if r.NoValue? then OutOfFuel else Done(Ret(r.v), st.(trace := r.trace))
  }

  /** The rounds of a for loop, its initialiser done. */
  function Loop(P: seq<Func>, m: Machine, s: Stmt, st: State, n: nat): RunResult
    requires s.For?
    decreases n, s, 0
  {
    if n == 0 then OutOfFuel else
      var c := ValueOf(P, m, s.cond, st.env, st.trace, n);
      if c.NoValue? then OutOfFuel
      else if c.v == 0 then Done(Next, st.(trace := c.trace))
      else
        var b := Run(P, m, s.body, st.(trace := c.trace), n);
        if b.OutOfFuel? then b
        else if !LoopCtrl(b.o, s.lbl).0 then Done(LoopCtrl(b.o, s.lbl).1, b.st)
        else
          var p := Run(P, m, s.post, b.st, n);
          if p.OutOfFuel? then p else Loop(P, m, s, p.st, n - 1)
  }

  /** The rounds of `for key := range limit` from i on, the limit evaluated once. */
  function Count(P: seq<Func>, m: Machine, s: Stmt, i: int, limit: int, st: State, n: nat): RunResult
    requires s.Range?
    decreases n, s, 0
  {
    if i >= limit then Done(Next, st)
    else if n == 0 then OutOfFuel
    else
      var b := Run(P, m, s.body, st.(env := st.env[s.key := i]), n);
      if b.OutOfFuel? then b
      else if !LoopCtrl(b.o, s.lbl).0 then Done(LoopCtrl(b.o, s.lbl).1, b.st)
      else Count(P, m, s, i + 1, limit, b.st, n - 1)
  }

  // What the outcome of a statement can be, read off its text.

  /** The labels a break or continue of s may carry out of s, "" for a bare one. */
  function Targets(s: Stmt): set<string> {
    match s
    case Break(l) => {l}
    case Continue(l) => {l}
    case Seq(a, b) => Targets(a) + Targets(b)
    case If(_, _, a, b) => Targets(a) + Targets(b)
    case For(l, _, _, _, b) => Targets(b) - {"", l}
    case Range(l, _, _, b) => Targets(b) - {"", l}
    case _ => {}
  }

  predicate HasReturn(s: Stmt) {
    match s
    case Return(_) => true
    case Seq(a, b) => HasReturn(a) || HasReturn(b)
    case If(_, _, a, b) => HasReturn(a) || HasReturn(b)
    case For(_, _, _, _, b) => HasReturn(b)
    case Range(_, _, _, b) => HasReturn(b)
    case _ => false
  }

  /** What go/types and the lowering have already settled about a body: an initialiser or a post
      clause is a simple statement, calls name functions below k, and are given the arguments those
      take. */
  predicate Formed(P: seq<Func>, k: nat, s: Stmt) {
    match s
    case Skip => true
    case Barrier => true
    case ExprStmt(e) => FormedE(P, k, e)
    case Assign(_, e) => FormedE(P, k, e)
    case IncDec(_, _) => true
    case Seq(a, b) => Formed(P, k, a) && Formed(P, k, b)
    case If(i, c, a, b) => Simple(i) && Formed(P, k, i) && FormedE(P, k, c) && Formed(P, k, a) && Formed(P, k, b)
    case For(_, i, c, p, b) =>
      Simple(i) && Simple(p) && Formed(P, k, i) && FormedE(P, k, c) && Formed(P, k, p) && Formed(P, k, b)
    case Range(_, _, e, b) => FormedE(P, k, e) && Formed(P, k, b)
    case Break(_) => true
    case Continue(_) => true
    case Return(e) => FormedE(P, k, e)
  }

  predicate Simple(s: Stmt) { s.Skip? || s.Assign? || s.IncDec? }

  predicate FormedE(P: seq<Func>, k: nat, e: Expr) {
    match e
    case Un(_, a) => FormedE(P, k, a)
    case Bin(_, a, b) => FormedE(P, k, a) && FormedE(P, k, b)
    case AndAlso(a, b) => FormedE(P, k, a) && FormedE(P, k, b)
    case OrElse(a, b) => FormedE(P, k, a) && FormedE(P, k, b)
    case Load(_, a) => FormedE(P, k, a)
    case Warp(_, a) => FormedE(P, k, a)
    case Call(f, args) => f < k && f < |P| && |args| == |P[f].params| && FormedEs(P, k, args)
    case _ => true
  }

  predicate FormedEs(P: seq<Func>, k: nat, es: seq<Expr>) {
    es == [] || (FormedE(P, k, es[0]) && FormedEs(P, k, es[1..]))
  }

  /** A list of device functions, callees first, whose bodies only break and continue loops of
      their own. */
  ghost predicate Program(P: seq<Func>) {
    forall k :: 0 <= k < |P| ==> Formed(P, k, P[k].body) && Targets(P[k].body) == {}
  }

  lemma {:induction false} BranchIsTarget(P: seq<Func>, m: Machine, s: Stmt, st: State, n: nat)
    requires Run(P, m, s, st, n).Done?
    ensures Run(P, m, s, st, n).o.Brk? ==> Run(P, m, s, st, n).o.l in Targets(s)
    ensures Run(P, m, s, st, n).o.Cnt? ==> Run(P, m, s, st, n).o.l in Targets(s)
    ensures Run(P, m, s, st, n).o.Ret? ==> HasReturn(s)
    decreases n, s, 1
  {
    match s
    case Seq(a, b) =>
      BranchIsTarget(P, m, a, st, n);
      var r := Run(P, m, a, st, n);
      if r.o == Next { BranchIsTarget(P, m, b, r.st, n); }
    case If(init, c, a, b) =>
      var i := Run(P, m, init, st, n);
      var r := ValueOf(P, m, c, i.st.env, i.st.trace, n);
      BranchIsTarget(P, m, if r.v != 0 then a else b, i.st.(trace := r.trace), n);
    case For(_, init, _, _, _) =>
      LoopBranches(P, m, s, Run(P, m, init, st, n).st, n);
    case Range(_, _, limit, _) =>
      var r := ValueOf(P, m, limit, st.env, st.trace, n);
      CountBranches(P, m, s, 0, r.v, st.(trace := r.trace), n);
    case _ =>
  }

  lemma {:induction false} LoopBranches(P: seq<Func>, m: Machine, s: Stmt, st: State, n: nat)
    requires s.For? && Loop(P, m, s, st, n).Done?
    ensures var o := Loop(P, m, s, st, n).o;
      (o.Brk? ==> o.l in Targets(s)) && (o.Cnt? ==> o.l in Targets(s)) && (o.Ret? ==> HasReturn(s))
    decreases n, s, 0
  {
    var c := ValueOf(P, m, s.cond, st.env, st.trace, n);
    if c.v != 0 {
      BranchIsTarget(P, m, s.body, st.(trace := c.trace), n);
      var b := Run(P, m, s.body, st.(trace := c.trace), n);
      if LoopCtrl(b.o, s.lbl).0 {
        LoopBranches(P, m, s, Run(P, m, s.post, b.st, n).st, n - 1);
      }
    }
  }

  lemma {:induction false} CountBranches(P: seq<Func>, m: Machine, s: Stmt, i: int, limit: int, st: State, n: nat)
    requires s.Range? && Count(P, m, s, i, limit, st, n).Done?
    ensures var o := Count(P, m, s, i, limit, st, n).o;
      (o.Brk? ==> o.l in Targets(s)) && (o.Cnt? ==> o.l in Targets(s)) && (o.Ret? ==> HasReturn(s))
    decreases n, s, 0
  {
    if i < limit {
      var st1 := st.(env := st.env[s.key := i]);
      BranchIsTarget(P, m, s.body, st1, n);
      var b := Run(P, m, s.body, st1, n);
      if LoopCtrl(b.o, s.lbl).0 {
        CountBranches(P, m, s, i + 1, limit, b.st, n - 1);
      }
    }
  }
}
