/** The statements of a kernel, their meaning in Go (internal/fuzz/closure_stmt.go), and the C they
    are lowered to with its gotos. */
module StmtLang {
  import opened Basics

  /** Expressions are pure and total; a primitive operator is whatever the machine says it is. */
  datatype Expr =
    | Lit(v: int)
    | Var(x: string)
    | Load(buf: string, i: Expr)
    | Len(buf: string)
    | Prim(f: nat, a: Expr, b: Expr)
    | Less(a: Expr, b: Expr)
    | Eq(a: Expr, b: Expr)
    | Or(a: Expr, b: Expr)
    | Next(a: Expr)

  /** Which memory a buffer name denotes, how long it is, and what the primitives compute.  Two names
      may denote the same memory. */
  datatype Machine = Machine(base: string -> nat, len: string -> int, prim: (nat, int, int) -> int)

  datatype State = State(vars: map<string, int>, mem: map<(nat, int), int>, trace: seq<int>)

  function Get(s: State, x: string): int { if x in s.vars then s.vars[x] else 0 }

  function Put(s: State, x: string, v: int): State { s.(vars := s.vars[x := v]) }

  function Cell(m: Machine, s: State, buf: string, i: int): int {
    if (m.base(buf), i) in s.mem then s.mem[(m.base(buf), i)] else 0
  }

  function PutCell(m: Machine, s: State, buf: string, i: int, v: int): State {
    s.(mem := s.mem[(m.base(buf), i) := v])
  }

  function Truth(b: bool): int { if b then 1 else 0 }

  function Eval(m: Machine, e: Expr, s: State): int {
    match e
    case Lit(v) => v
    case Var(x) => Get(s, x)
    case Load(b, i) => Cell(m, s, b, Eval(m, i, s))
    case Len(b) => m.len(b)
    case Prim(f, a, b) => m.prim(f, Eval(m, a, s), Eval(m, b, s))
    case Less(a, b) => Truth(Eval(m, a, s) < Eval(m, b, s))
    case Eq(a, b) => Truth(Eval(m, a, s) == Eval(m, b, s))
    case Or(a, b) => Truth(Eval(m, a, s) != 0 || Eval(m, b, s) != 0)
    case Next(a) => Eval(m, a, s) + 1
  }

  function Reads(e: Expr): set<string> {
    match e
    case Lit(_) => {}
    case Var(x) => {x}
    case Load(_, i) => Reads(i)
    case Len(_) => {}
    case Prim(_, a, b) => Reads(a) + Reads(b)
    case Less(a, b) => Reads(a) + Reads(b)
    case Eq(a, b) => Reads(a) + Reads(b)
    case Or(a, b) => Reads(a) + Reads(b)
    case Next(a) => Reads(a)
  }

  // Go

  datatype Target = Scalar(x: string) | Elem(buf: string, i: Expr)

  datatype Over = Upto(limit: Expr) | Each(buf: string)

  datatype Stmt =
    | Skip
    | Seq(a: Stmt, b: Stmt)
    | Scope(s: Stmt)
    | Assign(t: Target, e: Expr)
    | Par(ts: seq<Target>, es: seq<Expr>)
    | Effect(e: Expr)
    | If(c: Expr, a: Stmt, b: Stmt)
    | For(lbl: Option<string>, init: Stmt, cond: Option<Expr>, post: Stmt, body: Stmt)
    | Range(lbl: Option<string>, key: Option<string>, val: Option<string>, over: Over, body: Stmt)
    | Switch(tag: Option<Expr>, integral: bool, cs: Clauses)
    | Break(to: Option<string>)
    | Continue(to: Option<string>)
    | Return(v: Option<Expr>)

  /** The clauses of a switch.  A clause without values is the default. */
  datatype Clauses = End | Clause(vals: seq<Expr>, body: Stmt, falls: bool, rest: Clauses)

  datatype Out =
    | Done(s: State)
    | Brk(to: Option<string>, s: State)
    | Cnt(to: Option<string>, s: State)
    | Ret(v: int, s: State)
    | Timeout

  function Store(m: Machine, t: Target, at: int, v: int, s: State): State {
    match t
    case Scalar(x) => Put(s, x, v)
    case Elem(b, _) => PutCell(m, s, b, at, v)
  }

  /** A store is read back where it was made, under any name of that memory, and nowhere else. */
  lemma StoreIs(m: Machine, t: Target, at: int, v: int, s: State, x: string, b: string, i: int)
    ensures var r := Store(m, t, at, v, s);
      && Get(r, x) == (if t == Scalar(x) then v else Get(s, x))
      && Cell(m, r, b, i) == (if t.Elem? && m.base(b) == m.base(t.buf) && i == at then v else Cell(m, s, b, i))
      && r.trace == s.trace
  {
  }

  /** The subscript of a target, 0 where it has none. */
  function At(m: Machine, t: Target, s: State): int { if t.Elem? then Eval(m, t.i, s) else 0 }

  function EvalAll(m: Machine, es: seq<Expr>, s: State): (vs: seq<int>)
    ensures |vs| == |es|
  {
    seq(|es|, k requires 0 <= k < |es| => Eval(m, es[k], s))
  }

  function AtAll(m: Machine, ts: seq<Target>, s: State): (at: seq<int>)
    ensures |at| == |ts|
  {
    seq(|ts|, k requires 0 <= k < |ts| => At(m, ts[k], s))
  }

  /** Left to right. */
  function StoreAll(m: Machine, ts: seq<Target>, at: seq<int>, vs: seq<int>, s: State): State
    requires |at| == |vs| == |ts|
  {
    if ts == [] then s else StoreAll(m, ts[1..], at[1..], vs[1..], Store(m, ts[0], at[0], vs[0], s))
  }

  /** loopCtrl: what a loop passes outwards, or None to go round again. */
  function LoopCtrl(r: Out, lbl: Option<string>): Option<Out> {
    match r
    case Done(_) => None
    case Cnt(l, _) => if l.None? || l == lbl then None else Some(r)
    case Brk(l, s) => if l.None? || l == lbl then Some(Done(s)) else Some(r)
    case _ => Some(r)
  }

  function Bind(m: Machine, s: Stmt, i: int, g: State): State
    requires s.Range?
  {
    var k := if s.key.Some? then Put(g, s.key.value, i) else g;
    if s.val.Some? && s.over.Each? then Put(k, s.val.value, Cell(m, k, s.over.buf, i)) else k
  }

  function Bound(m: Machine, over: Over, g: State): int {
    match over
    case Upto(e) => Eval(m, e, g)
    case Each(b) => m.len(b)
  }

  predicate Holds(m: Machine, c: Option<Expr>, g: State) { c.None? || Eval(m, c.value, g) != 0 }

  predicate Matches(m: Machine, tag: Option<Expr>, vals: seq<Expr>, g: State) {
    if tag.Some? then exists k :: 0 <= k < |vals| && Eval(m, vals[k], g) == Eval(m, tag.value, g)
    else exists k :: 0 <= k < |vals| && Eval(m, vals[k], g) != 0
  }

  /** switchPick: the clauses from the first that matches on. */
  function Picked(m: Machine, tag: Option<Expr>, cs: Clauses, g: State): (r: Clauses)
    ensures r == cs || r < cs
  {
    if cs.End? || Matches(m, tag, cs.vals, g) then cs else Picked(m, tag, cs.rest, g)
  }

  function Default(cs: Clauses): (r: Clauses)
    ensures r == cs || r < cs
  {
    if cs.End? || cs.vals == [] then cs else Default(cs.rest)
  }

  function Chosen(m: Machine, tag: Option<Expr>, cs: Clauses, g: State): (r: Clauses)
    ensures r == cs || r < cs
  {
    if Picked(m, tag, cs, g).End? then Default(cs) else Picked(m, tag, cs, g)
  }

  /** What s does within n rounds of any loop. */
  function Run(m: Machine, n: nat, s: Stmt, g: State): Out
    decreases n, s, 1
  {
    match s
    case Skip => Done(g)
    case Seq(a, b) =>
      var r := Run(m, n, a, g);
      if r.Done? then Run(m, n, b, r.s) else r
    case Scope(b) => Run(m, n, b, g)
    case Assign(t, e) => Done(Store(m, t, At(m, t, g), Eval(m, e, g), g))
    case Par(ts, es) => if |ts| != |es| then Done(g) else Done(StoreAll(m, ts, AtAll(m, ts, g), EvalAll(m, es, g), g))
    case Effect(e) => Done(g.(trace := g.trace + [Eval(m, e, g)]))
    case If(c, a, b) => if Eval(m, c, g) != 0 then Run(m, n, a, g) else Run(m, n, b, g)
    case For(_, init, _, _, _) =>
      var r := Run(m, n, init, g);
      if r.Done? then Loop(m, n, s, r.s) else r
    case Range(_, _, _, over, _) => Count(m, n, s, 0, Bound(m, over, g), g)
    case Switch(tag, _, cs) => RunClauses(m, n, Chosen(m, tag, cs, g), g)
    case Break(l) => Brk(l, g)
    case Continue(l) => Cnt(l, g)
    case Return(v) => Ret(if v.Some? then Eval(m, v.value, g) else 0, g)
  }

  function Loop(m: Machine, n: nat, s: Stmt, g: State): Out
    requires s.For?
    decreases n, s, 0
  {
    if n == 0 then Timeout
    else if !Holds(m, s.cond, g) then Done(g)
    else
      var r := Run(m, n - 1, s.body, g);
      if LoopCtrl(r, s.lbl).Some? then LoopCtrl(r, s.lbl).value
      else
        var p := Run(m, n - 1, s.post, r.s);
        if p.Done? then Loop(m, n - 1, s, p.s) else p
  }

  function Count(m: Machine, n: nat, s: Stmt, i: int, limit: int, g: State): Out
    requires s.Range?
    decreases n, s, 0
  {
    if n == 0 then Timeout
    else if i >= limit then Done(g)
    else
      var r := Run(m, n - 1, s.body, Bind(m, s, i, g));
      if LoopCtrl(r, s.lbl).Some? then LoopCtrl(r, s.lbl).value else Count(m, n - 1, s, i + 1, limit, r.s)
  }

  /** The chosen clause, and those it falls through to. */
  function RunClauses(m: Machine, n: nat, cs: Clauses, g: State): Out
    decreases n, cs, 0
  {
    if cs.End? then Done(g)
    else
      var r := Run(m, n, cs.body, g);
      if r.Brk? && r.to.None? then Done(r.s)
      else if r.Done? && cs.falls then RunClauses(m, n, cs.rest, r.s)
      else r
  }

  // C

  datatype Label = BreakOf(l: string) | ContinueOf(l: string)

  datatype CStmt =
    | Nop
    | Then(a: CStmt, b: CStmt)
    | Block(c: CStmt)
    | Set(x: string, e: Expr)
    | SetElem(buf: string, i: Expr, e: Expr)
    | Do(e: Expr)
    | IfC(test: Expr, a: CStmt, b: CStmt)
    | While(cond: Option<Expr>, body: CStmt)
    | ForC(init: CStmt, cond: Option<Expr>, post: CStmt, body: CStmt)
    | SwitchC(tag: Expr, arms: Arms)
    | LabelC(l: Label)
    | Goto(l: Label)
    | BreakC
    | ContinueC
    | ReturnC(v: Option<Expr>)

  datatype Arms = NoArm | Arm(cases: seq<int>, dflt: bool, body: CStmt, rest: Arms)

  datatype COut =
    | CDone(s: State)
    | CBrk(s: State)
    | CCnt(s: State)
    | CGoto(l: Label, s: State)
    | CRet(v: int, s: State)
    | CTimeout

  /** The labels of a statement list that are not inside a block of their own. */
  function Labels(c: CStmt): set<Label> {
    match c
    case Then(a, b) => Labels(a) + Labels(b)
    case LabelC(l) => {l}
    case _ => {}
  }

  function CasePicked(v: int, arms: Arms): (r: Arms)
    ensures r == arms || r < arms
  {
    if arms.NoArm? || v in arms.cases then arms else CasePicked(v, arms.rest)
  }

  function DefaultArm(arms: Arms): (r: Arms)
    ensures r == arms || r < arms
  {
    if arms.NoArm? || arms.dflt then arms else DefaultArm(arms.rest)
  }

  function ChosenArm(v: int, arms: Arms): (r: Arms)
    ensures r == arms || r < arms
  {
    if CasePicked(v, arms).NoArm? then DefaultArm(arms) else CasePicked(v, arms)
  }

  function RunC(m: Machine, n: nat, c: CStmt, s: State): COut
    decreases n, c, 2
  {
    match c
    case Nop => CDone(s)
    case Then(a, b) => Onward(m, n, c, RunC(m, n, a, s))
    case Block(b) => RunC(m, n, b, s)
    case Set(x, e) => CDone(Put(s, x, Eval(m, e, s)))
    case SetElem(b, i, e) => CDone(PutCell(m, s, b, Eval(m, i, s), Eval(m, e, s)))
    case Do(e) => CDone(s.(trace := s.trace + [Eval(m, e, s)]))
    case IfC(cond, a, b) => if Eval(m, cond, s) != 0 then RunC(m, n, a, s) else RunC(m, n, b, s)
    case While(cond, body) => LoopC(m, n, cond, Nop, body, s)
    case ForC(init, cond, post, body) =>
      var r := RunC(m, n, init, s);
      if r.CDone? then LoopC(m, n, cond, post, body, r.s) else r
    case SwitchC(tag, arms) => RunArms(m, n, ChosenArm(Eval(m, tag, s), arms), s)
    case LabelC(_) => CDone(s)
    case Goto(l) => CGoto(l, s)
    case BreakC => CBrk(s)
    case ContinueC => CCnt(s)
    case ReturnC(v) => CRet(if v.Some? then Eval(m, v.value, s) else 0, s)
  }

  /** The second half of a list, entered at its start or at a label the first half went to; then back
      to a label of the first half, if it went there. */
  function Onward(m: Machine, n: nat, c: CStmt, r: COut): COut
    requires c.Then?
    decreases n, c, 1
  {
    if r.CDone? then Back(m, n, c, RunC(m, n, c.b, r.s))
    else if r.CGoto? && r.l in Labels(c.b) then Back(m, n, c, From(m, n, c.b, r.l, r.s))
    else r
  }

  function Back(m: Machine, n: nat, c: CStmt, r: COut): COut
    requires c.Then?
    decreases n, c, 0
  {
    if r.CGoto? && r.l in Labels(c.a) then (if n == 0 then CTimeout else From(m, n - 1, c, r.l, r.s)) else r
  }

  /** From a label of the list on. */
  function From(m: Machine, n: nat, c: CStmt, l: Label, s: State): COut
    requires l in Labels(c)
    decreases n, c, 2
  {
    match c
    case Then(a, b) =>
      if l in Labels(a) then Onward(m, n, c, From(m, n, a, l, s)) else Back(m, n, c, From(m, n, b, l, s))
    case _ => CDone(s)
  }

  function LoopC(m: Machine, n: nat, cond: Option<Expr>, post: CStmt, body: CStmt, s: State): COut
    decreases n, body, 3
  {
    if n == 0 then CTimeout
    else if !Holds(m, cond, s) then CDone(s)
    else
      var r := RunC(m, n - 1, body, s);
      if r.CBrk? then CDone(r.s)
      else if r.CDone? || r.CCnt? then
        var p := RunC(m, n - 1, post, r.s);
        if p.CDone? then LoopC(m, n - 1, cond, post, body, p.s) else p
      else r
  }

  function RunArms(m: Machine, n: nat, arms: Arms, s: State): COut
    decreases n, arms, 3
  {
    if arms.NoArm? then CDone(s)
    else
      var r := RunC(m, n, arms.body, s);
      if r.CDone? then RunArms(m, n, arms.rest, r.s)
      else if r.CBrk? then CDone(r.s)
      else r
  }
}
