/** The statement lowering of internal/lower/stmt.go. */
module StmtLower {
  import opened Basics
  import opened StmtLang
  import opened Decimal

  // Generated names

  function Candidate(base: string, i: nat): string { if i <= 1 then base else base + Dec(i) }

  lemma CandidatesDiffer(base: string, i: nat, j: nat)
    requires 1 <= i < j
    ensures Candidate(base, i) != Candidate(base, j)
  {
    if Candidate(base, i) == Candidate(base, j) {
      assert |Candidate(base, j)| == |base| + |Dec(j)|;
      assert (base + Dec(i))[|base|..] == Dec(i) && (base + Dec(j))[|base|..] == Dec(j);
      if i > 1 { DecInjective(i, j); }
    }
  }

  /** The first candidate from the i-th on that is not taken. */
  function FirstFree(base: string, i: nat, taken: set<string>): (r: nat)
    requires i >= 1
    ensures r >= i
    decreases |taken|
  {
    var c := Candidate(base, i);
    if c in taken then FirstFree(base, i + 1, taken - {c}) else i
  }

  lemma {:induction false} FirstFreeIsNew(base: string, i: nat, taken: set<string>)
    requires i >= 1
    ensures Candidate(base, FirstFree(base, i, taken)) !in taken
    decreases |taken|
  {
    var c := Candidate(base, i);
    if c in taken {
      FirstFreeIsNew(base, i + 1, taken - {c});
      CandidatesDiffer(base, i, FirstFree(base, i + 1, taken - {c}));
    }
  }

  /** Every candidate passed over is taken. */
  lemma {:induction false} FirstFreeIsFirst(base: string, i: nat, taken: set<string>, j: nat)
    requires 1 <= i <= j < FirstFree(base, i, taken)
    ensures Candidate(base, j) in taken
    decreases |taken|
  {
    if j > i { FirstFreeIsFirst(base, i + 1, taken - {Candidate(base, i)}, j); }
  }

  /** reserve: base, or base with the least number from 2 that makes it new. */
  function Reserve(base: string, taken: set<string>): (name: string)
    ensures name !in taken
  {
    FirstFreeIsNew(base, 1, taken);
    Candidate(base, FirstFree(base, 1, taken))
  }

  // What the lowering asks of a statement

  /** Labels named by the breaks in s. */
  function Breaks(s: Stmt): set<string> {
    match s
    case Seq(a, b) => Breaks(a) + Breaks(b)
    case Scope(b) => Breaks(b)
    case If(_, a, b) => Breaks(a) + Breaks(b)
    case For(_, _, _, _, b) => Breaks(b)
    case Range(_, _, _, _, b) => Breaks(b)
    case Switch(_, _, cs) => ClauseBreaks(cs)
    case Break(l) => if l.Some? then {l.value} else {}
    case _ => {}
  }

  function ClauseBreaks(cs: Clauses): set<string> {
    if cs.End? then {} else Breaks(cs.body) + ClauseBreaks(cs.rest)
  }

  /** Labels named by the continues in s. */
  function Continues(s: Stmt): set<string> {
    match s
    case Seq(a, b) => Continues(a) + Continues(b)
    case Scope(b) => Continues(b)
    case If(_, a, b) => Continues(a) + Continues(b)
    case For(_, _, _, _, b) => Continues(b)
    case Range(_, _, _, _, b) => Continues(b)
    case Switch(_, _, cs) => ClauseContinues(cs)
    case Continue(l) => if l.Some? then {l.value} else {}
    case _ => {}
  }

  function ClauseContinues(cs: Clauses): set<string> {
    if cs.End? then {} else Continues(cs.body) + ClauseContinues(cs.rest)
  }

  /** assignsToIdent */
  predicate Assigns(s: Stmt, x: string) {
    match s
    case Seq(a, b) => Assigns(a, x) || Assigns(b, x)
    case Scope(b) => Assigns(b, x)
    case Assign(t, _) => t == Scalar(x)
    case Par(ts, _) => Scalar(x) in ts
    case If(_, a, b) => Assigns(a, x) || Assigns(b, x)
    case For(_, i, _, p, b) => Assigns(i, x) || Assigns(p, x) || Assigns(b, x)
    case Range(_, _, _, _, b) => Assigns(b, x)
    case Switch(_, _, cs) => ClauseAssigns(cs, x)
    case _ => false
  }

  predicate ClauseAssigns(cs: Clauses, x: string) {
    !cs.End? && (Assigns(cs.body, x) || ClauseAssigns(cs.rest, x))
  }

  /** constantCases */
  predicate ConstantCases(cs: Clauses) {
    cs.End? || ((forall k :: 0 <= k < |cs.vals| ==> cs.vals[k].Lit?) && ConstantCases(cs.rest))
  }

  predicate IsCSwitch(s: Stmt)
    requires s.Switch?
  {
    s.tag.Some? && s.integral && ConstantCases(s.cs)
  }

  // The translation

  function Continued(lbl: Option<string>, body: Stmt): bool { lbl.Some? && lbl.value in Continues(body) }

  /** loopBody: a labelled continue goes to the end of the body, from a scope of its own. */
  function LoopBody(head: CStmt, c: CStmt, lbl: Option<string>, body: Stmt): CStmt {
    if Continued(lbl, body) then Block(Then(Block(Then(head, c)), LabelC(ContinueOf(lbl.value))))
    else Block(Then(head, c))
  }

  /** labeled: the break target follows the loop, if a break names it. */
  function Labeled(lbl: Option<string>, body: Stmt, loop: CStmt): CStmt {
    if lbl.Some? && lbl.value in Breaks(body) then Then(loop, LabelC(BreakOf(lbl.value))) else loop
  }

  /** The counter of a range loop, and whether its name is generated: the key is the counter unless it
      is blank or the body assigns to it. */
  function Counter(s: Stmt, names: set<string>): (string, bool)
    requires s.Range?
  {
    if s.key.None? then (Reserve((if s.val.Some? then s.val.value else "range") + "_i", names), true)
    else if Assigns(s.body, s.key.value) then (Reserve(s.key.value + "_i", names), true)
    else (s.key.value, false)
  }

  /** What a range loop does before its body. */
  function Head(s: Stmt, counter: string): CStmt
    requires s.Range?
  {
    Then(if s.key.Some? && s.key.value != counter then Set(s.key.value, Var(counter)) else Nop,
         if s.val.Some? && s.over.Each? then Set(s.val.value, Load(s.over.buf, Var(counter))) else Nop)
  }

  function LimitOf(over: Over): Expr { if over.Upto? then over.limit else Len(over.buf) }

  function RangeC(s: Stmt, counter: string, body: CStmt): CStmt
    requires s.Range?
  {
    ForC(Set(counter, Lit(0)), Some(Less(Var(counter), LimitOf(s.over))), Set(counter, Next(Var(counter))),
         LoopBody(Head(s, counter), body, s.lbl, s.body))
  }

  function StoreTo(t: Target, e: Expr): CStmt {
    match t
    case Scalar(x) => Set(x, e)
    case Elem(b, i) => SetElem(b, i, e)
  }

  /** baseName */
  function BaseName(t: Target): string { if t.Scalar? then t.x else t.buf }

  /** stableIndex: a constant, or a variable the statement does not assign. */
  predicate Stable(i: Expr, ts: seq<Target>) { i.Lit? || (i.Var? && Scalar(i.x) !in ts) }

  datatype Targets = Targets(code: CStmt, ts: seq<Target>, names: set<string>)

  /** assignTarget, for each target: an index that could change is lifted into a temporary. */
  function LowerTargets(ts: seq<Target>, all: seq<Target>, names: set<string>): (r: Targets)
    ensures |r.ts| == |ts|
  {
    if ts == [] then Targets(Nop, [], names)
    else if ts[0].Elem? && !Stable(ts[0].i, all) then
      var tmp := Reserve(BaseName(ts[0]) + "_idx", names);
      var r := LowerTargets(ts[1..], all, names + {tmp});
      Targets(Then(Set(tmp, ts[0].i), r.code), [Elem(ts[0].buf, Var(tmp))] + r.ts, r.names)
    else
      var r := LowerTargets(ts[1..], all, names);
      Targets(r.code, [ts[0]] + r.ts, r.names)
  }

  datatype Temps = Temps(code: CStmt, temps: seq<string>, names: set<string>)

  /** The values, each into a temporary of its own. */
  function LowerValues(ts: seq<Target>, es: seq<Expr>, names: set<string>): (r: Temps)
    requires |ts| == |es|
    ensures |r.temps| == |es|
  {
    if es == [] then Temps(Nop, [], names)
    else
      var tmp := Reserve(BaseName(ts[0]) + "_tmp", names);
      var r := LowerValues(ts[1..], es[1..], names + {tmp});
      Temps(Then(Set(tmp, es[0]), r.code), [tmp] + r.temps, r.names)
  }

  function LowerStores(ts: seq<Target>, temps: seq<string>): CStmt
    requires |ts| == |temps|
  {
    if ts == [] then Nop else Then(StoreTo(ts[0], Var(temps[0])), LowerStores(ts[1..], temps[1..]))
  }

  /** What a clause of a for loop may hold. */
  predicate Simple(s: Stmt) { s.Skip? || s.Assign? }

  /** simple */
  function SimpleC(s: Stmt): CStmt { if s.Assign? then StoreTo(s.t, s.e) else Nop }

  /** parallelAssign: indices, then values, then stores. */
  function LowerPar(ts: seq<Target>, es: seq<Expr>, names: set<string>): (CStmt, set<string>)
    requires |ts| == |es|
  {
    var at := LowerTargets(ts, ts, names);
    var vs := LowerValues(ts, es, at.names);
    (Then(at.code, Then(vs.code, LowerStores(at.ts, vs.temps))), vs.names)
  }

  /** caseCond: the case values or-ed together. */
  function CaseCond(tag: Option<string>, vals: seq<Expr>): Expr
    requires vals != []
  {
    var last := vals[|vals| - 1];
    var one := if tag.Some? then Eq(Var(tag.value), last) else last;
    if |vals| == 1 then one else Or(CaseCond(tag, vals[..|vals| - 1]), one)
  }

  function CaseValues(vals: seq<Expr>): (r: seq<int>)
    ensures |r| == |vals|
  {
    seq(|vals|, k requires 0 <= k < |vals| => if vals[k].Lit? then vals[k].v else 0)
  }

  /** A statement in C, and the names taken once it is written. */
  function Lower(s: Stmt, names: set<string>): (CStmt, set<string>)
    decreases s, 0
  {
    match s
    case Skip => (Nop, names)
    case Seq(a, b) =>
      var x := Lower(a, names);
      var y := Lower(b, x.1);
      (Then(x.0, y.0), y.1)
    case Scope(b) => (Block(Lower(b, names).0), Lower(b, names).1)
    case Assign(t, e) => (StoreTo(t, e), names)
    case Par(ts, es) => if |ts| == |es| then LowerPar(ts, es, names) else (Nop, names)
    case Effect(e) => (Do(e), names)
    case If(c, a, b) =>
      var x := Lower(a, names);
      var y := Lower(b, x.1);
      (IfC(c, Block(x.0), Block(y.0)), y.1)
    case For(lbl, init, cond, post, body) =>
      var x := Lower(body, names);
      var b := LoopBody(Nop, x.0, lbl, body);
      var loop := if init.Skip? && post.Skip? then While(cond, b)
        else ForC(SimpleC(init), cond, SimpleC(post), b);
      (Labeled(lbl, body, loop), x.1)
    case Range(lbl, _, _, _, body) =>
      var c := Counter(s, names);
      var x := Lower(body, names + {c.0});
      (Labeled(lbl, body, RangeC(s, c.0, x.0)), if c.1 then x.1 - {c.0} else x.1)
    case Switch(tag, _, cs) =>
      if IsCSwitch(s) then
        var x := LowerArms(cs, names);
        (SwitchC(tag.value, x.0), x.1)
      else if tag.None? then LowerChain(cs, cs, None, names)
      else
        var tmp := Reserve("switch_tag", names);
        var x := LowerChain(cs, cs, Some(tmp), names + {tmp});
        (Block(Then(Set(tmp, tag.value), x.0)), x.1 - {tmp})
    case Break(l) => (if l.Some? then Goto(BreakOf(l.value)) else BreakC, names)
    case Continue(l) => (if l.Some? then Goto(ContinueOf(l.value)) else ContinueC, names)
    case Return(v) => (ReturnC(v), names)
  }

  /** cSwitch: a break closes every clause that does not fall through. */
  function LowerArms(cs: Clauses, names: set<string>): (Arms, set<string>)
    decreases cs, 0
  {
    if cs.End? then (NoArm, names)
    else
      var x := Lower(cs.body, names);
      var y := LowerArms(cs.rest, x.1);
      (Arm(CaseValues(cs.vals), cs.vals == [], Block(if cs.falls then x.0 else Then(x.0, BreakC)), y.0), y.1)
  }

  /** chainSwitch: the clauses in order as an if/else chain, the default held back to the end. */
  function LowerChain(all: Clauses, cs: Clauses, tag: Option<string>, names: set<string>): (CStmt, set<string>)
    requires cs == all || cs < all
    decreases all, cs
  {
    if cs.End? then
      if Default(all).End? then (Nop, names)
      else (Block(Lower(Default(all).body, names).0), Lower(Default(all).body, names).1)
    else if cs.vals == [] then LowerChain(all, cs.rest, tag, names)
    else
      var x := Lower(cs.body, names);
      var y := LowerChain(all, cs.rest, tag, x.1);
      (IfC(CaseCond(tag, cs.vals), Block(x.0), y.0), y.1)
  }

  // What it refuses

  /** What a bare break would leave. */
  datatype Breakable = BreakLoop | BreakCSwitch | BreakIfSwitch

  /** Nothing in s is refused. */
  predicate Accepted(s: Stmt, encl: Breakable)
    decreases s, 0
  {
    match s
    case Seq(a, b) => Accepted(a, encl) && Accepted(b, encl)
    case Scope(b) => Accepted(b, encl)
    case Par(ts, es) => |ts| == |es|
    case If(_, a, b) => Accepted(a, encl) && Accepted(b, encl)
    case For(_, i, _, p, b) => Simple(i) && Simple(p) && Accepted(b, BreakLoop)
    case Range(_, _, val, over, b) => (val.Some? ==> over.Each?) && Accepted(b, BreakLoop)
    case Switch(_, _, cs) => if IsCSwitch(s) then ArmsAccepted(cs) else ChainAccepted(cs, cs)
    case Break(l) => l.None? ==> !encl.BreakIfSwitch?
    case _ => true
  }

  predicate ArmsAccepted(cs: Clauses)
    decreases cs, 0
  {
    cs.End? || (Accepted(cs.body, BreakCSwitch) && ArmsAccepted(cs.rest))
  }

  /** A clause of a chain has nothing to fall through to. */
  predicate ChainAccepted(all: Clauses, cs: Clauses)
    requires cs == all || cs < all
    decreases all, cs
  {
    if cs.End? then Default(all).End? || (Accepted(Default(all).body, BreakIfSwitch) && !Default(all).falls)
    else (cs.vals == [] || (Accepted(cs.body, BreakIfSwitch) && !cs.falls)) && ChainAccepted(all, cs.rest)
  }
}
