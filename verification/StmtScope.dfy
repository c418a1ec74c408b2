/** Jumps and declarations of the emitted C: C++ refuses a jump into the scope of an initialised variable
    (ISO C++17 section 9.7), and no goto or case label that is emitted makes one. */
module StmtScope {
  import opened Basics
  import opened StmtLang
  import opened StmtLower
  import opened StmtSound

  /** What a statement declares in the list it stands in.  Every assignment to a variable is counted as a
      declaration, which can only make a jump worse. */
  function Decls(c: CStmt): seq<string> {
    match c
    case Then(a, b) => Decls(a) + Decls(b)
    case Set(x, _) => [x]
    case _ => []
  }

  /** The declarations in scope at a label of a list. */
  function LabelScope(c: CStmt, scope: seq<string>, l: Label): seq<string> {
    match c
    case Then(a, b) => if l in Labels(a) then LabelScope(a, scope, l) else LabelScope(b, scope + Decls(a), l)
    case _ => scope
  }

  /** Every goto that leaves c for l stands where the declarations of target are all in scope. */
  predicate Reaches(c: CStmt, scope: seq<string>, l: Label, target: seq<string>) {
    match c
    case Goto(k) => k == l ==> target <= scope
    case Then(a, b) => l in Labels(c) || (Reaches(a, scope, l, target) && Reaches(b, scope + Decls(a), l, target))
    case Block(b) => Reaches(b, scope, l, target)
    case IfC(_, a, b) => Reaches(a, scope, l, target) && Reaches(b, scope, l, target)
    case While(_, b) => Reaches(b, scope, l, target)
    case ForC(init, _, post, b) =>
      && Reaches(init, scope, l, target)
      && Reaches(post, scope + Decls(init), l, target) && Reaches(b, scope + Decls(init), l, target)
    case SwitchC(_, arms) => ArmsReach(arms, scope, l, target)
    case _ => true
  }

  predicate ArmsReach(arms: Arms, scope: seq<string>, l: Label, target: seq<string>) {
    arms.NoArm? || (Reaches(arms.body, scope, l, target) && ArmsReach(arms.rest, scope + Decls(arms.body), l, target))
  }

  /** Wherever control can jump in c, to a label of a list from either side of it or to a case of a
      switch, every declaration in scope there is in scope where it comes from. */
  predicate NoJumpIn(c: CStmt, scope: seq<string>) {
    match c
    case Then(a, b) =>
      && NoJumpIn(a, scope) && NoJumpIn(b, scope + Decls(a))
      && (forall l :: l in Labels(b) ==> Reaches(a, scope, l, LabelScope(b, scope + Decls(a), l)))
      && (forall l :: l in Labels(a) ==> Reaches(b, scope + Decls(a), l, LabelScope(a, scope, l)))
    case Block(b) => NoJumpIn(b, scope)
    case IfC(_, a, b) => NoJumpIn(a, scope) && NoJumpIn(b, scope)
    case While(_, b) => NoJumpIn(b, scope)
    case ForC(init, _, post, b) =>
      NoJumpIn(init, scope) && NoJumpIn(post, scope + Decls(init)) && NoJumpIn(b, scope + Decls(init))
    case SwitchC(_, arms) => NoCaseIn(arms, scope)
    case _ => true
  }

  /** The cases share the scope of the switch: no clause declares anything in it. */
  predicate NoCaseIn(arms: Arms, scope: seq<string>) {
    arms.NoArm? || (Decls(arms.body) == [] && NoJumpIn(arms.body, scope) && NoCaseIn(arms.rest, scope))
  }

  // Jumps outward

  /** Nothing is entered where the label's scope encloses all of c. */
  lemma {:induction false} OutwardReaches(c: CStmt, scope: seq<string>, l: Label, target: seq<string>)
    requires target <= scope
    ensures Reaches(c, scope, l, target)
    decreases c
  {
    match c
    case Then(a, b) => OutwardReaches(a, scope, l, target); OutwardReaches(b, scope + Decls(a), l, target);
    case Block(b) => OutwardReaches(b, scope, l, target);
    case IfC(_, a, b) => OutwardReaches(a, scope, l, target); OutwardReaches(b, scope, l, target);
    case While(_, b) => OutwardReaches(b, scope, l, target);
    case ForC(init, _, post, b) =>
      OutwardReaches(init, scope, l, target);
      OutwardReaches(post, scope + Decls(init), l, target);
      OutwardReaches(b, scope + Decls(init), l, target);
    case SwitchC(_, arms) => OutwardArms(arms, scope, l, target);
    case _ =>
  }

  lemma {:induction false} OutwardArms(arms: Arms, scope: seq<string>, l: Label, target: seq<string>)
    requires target <= scope
    ensures ArmsReach(arms, scope, l, target)
    decreases arms
  {
    if arms.Arm? {
      OutwardReaches(arms.body, scope, l, target);
      OutwardArms(arms.rest, scope + Decls(arms.body), l, target);
    }
  }

  /** The labels c goes to and does not hold. */
  function Leaving(c: CStmt): set<Label> {
    match c
    case Goto(l) => {l}
    case Then(a, b) => Leaving(a) + Leaving(b) - Labels(c)
    case Block(b) => Leaving(b)
    case IfC(_, a, b) => Leaving(a) + Leaving(b)
    case While(_, b) => Leaving(b)
    case ForC(init, _, post, b) => Leaving(init) + Leaving(post) + Leaving(b)
    case SwitchC(_, arms) => ArmsLeaving(arms)
    case _ => {}
  }

  function ArmsLeaving(arms: Arms): set<Label> {
    if arms.NoArm? then {} else Leaving(arms.body) + ArmsLeaving(arms.rest)
  }

  lemma {:induction false} UnnamedReaches(c: CStmt, scope: seq<string>, l: Label, target: seq<string>)
    requires l !in Leaving(c)
    ensures Reaches(c, scope, l, target)
    decreases c
  {
    match c
    case Then(a, b) =>
      if l !in Labels(c) { UnnamedReaches(a, scope, l, target); UnnamedReaches(b, scope + Decls(a), l, target); }
    case Block(b) => UnnamedReaches(b, scope, l, target);
    case IfC(_, a, b) => UnnamedReaches(a, scope, l, target); UnnamedReaches(b, scope, l, target);
    case While(_, b) => UnnamedReaches(b, scope, l, target);
    case ForC(init, _, post, b) =>
      UnnamedReaches(init, scope, l, target);
      UnnamedReaches(post, scope + Decls(init), l, target);
      UnnamedReaches(b, scope + Decls(init), l, target);
    case SwitchC(_, arms) => UnnamedArms(arms, scope, l, target);
    case _ =>
  }

  lemma {:induction false} UnnamedArms(arms: Arms, scope: seq<string>, l: Label, target: seq<string>)
    requires l !in ArmsLeaving(arms)
    ensures ArmsReach(arms, scope, l, target)
    decreases arms
  {
    if arms.Arm? {
      UnnamedReaches(arms.body, scope, l, target);
      UnnamedArms(arms.rest, scope + Decls(arms.body), l, target);
    }
  }

  // What is emitted

  /** A labelled branch names a loop around it, and no loop reuses the label of one around it. */
  predicate Branched(s: Stmt, encl: set<string>) {
    match s
    case Seq(a, b) => Branched(a, encl) && Branched(b, encl)
    case Scope(b) => Branched(b, encl)
    case If(_, a, b) => Branched(a, encl) && Branched(b, encl)
    case For(l, i, _, p, b) => Simple(i) && Simple(p) && Maybe(l) !! encl && Branched(b, encl + Maybe(l))
    case Range(l, _, _, _, b) => Maybe(l) !! encl && Branched(b, encl + Maybe(l))
    case Switch(_, _, cs) => ClausesBranched(cs, encl)
    case Break(l) => Maybe(l) <= encl
    case Continue(l) => Maybe(l) <= encl
    case _ => true
  }

  predicate ClausesBranched(cs: Clauses, encl: set<string>) {
    cs.End? || (Branched(cs.body, encl) && ClausesBranched(cs.rest, encl))
  }

  /** Labels of loops around, that the source names in a break or a continue. */
  predicate Named(ls: set<Label>, breaks: set<string>, continues: set<string>, encl: set<string>) {
    forall l :: l in ls ==> l.l in encl && l.l in (if l.BreakOf? then breaks else continues)
  }

  /** What is known of an emitted statement: where it goes, and which labels it holds. */
  predicate Emitted(c: CStmt, breaks: set<string>, continues: set<string>, encl: set<string>) {
    Named(Leaving(c), breaks, continues, encl) && Inner(c, encl)
  }

  /** A list of stores and temporaries. */
  predicate Straight(c: CStmt) {
    match c
    case Then(a, b) => Straight(a) && Straight(b)
    case Nop => true
    case Set(_, _) => true
    case SetElem(_, _, _) => true
    case _ => false
  }

  lemma {:induction false} StraightFacts(c: CStmt, scope: seq<string>)
    requires Straight(c)
    ensures Labels(c) == {} && Leaving(c) == {} && NoJumpIn(c, scope)
  {
    match c
    case Then(a, b) => StraightFacts(a, scope); StraightFacts(b, scope + Decls(a));
    case _ =>
  }

  lemma {:induction false} TargetsStraight(ts: seq<Target>, all: seq<Target>, names: set<string>)
    ensures Straight(LowerTargets(ts, all, names).code)
  {
    if ts != [] {
      var lifted := ts[0].Elem? && !Stable(ts[0].i, all);
      TargetsStraight(ts[1..], all, if lifted then names + {Reserve(BaseName(ts[0]) + "_idx", names)} else names);
    }
  }

  lemma {:induction false} ValuesStraight(ts: seq<Target>, es: seq<Expr>, names: set<string>)
    requires |ts| == |es|
    ensures Straight(LowerValues(ts, es, names).code)
  {
    if es != [] { ValuesStraight(ts[1..], es[1..], names + {Reserve(BaseName(ts[0]) + "_tmp", names)}); }
  }

  lemma {:induction false} StoresStraight(ts: seq<Target>, temps: seq<string>)
    requires |ts| == |temps|
    ensures Straight(LowerStores(ts, temps))
  {
    if ts != [] { StoresStraight(ts[1..], temps[1..]); }
  }

  lemma ParStraight(ts: seq<Target>, es: seq<Expr>, names: set<string>)
    requires |ts| == |es|
    ensures Straight(LowerPar(ts, es, names).0)
  {
    var at := LowerTargets(ts, ts, names);
    TargetsStraight(ts, ts, names);
    ValuesStraight(ts, es, at.names);
    StoresStraight(at.ts, LowerValues(ts, es, at.names).temps);
  }

  /** Out of a loop control goes to its own break label or to a loop around it. */
  predicate OwnOrOuter(l: Label, lbl: Option<string>, body: Stmt, encl: set<string>) {
    if l.l in encl then l.l in (if l.BreakOf? then Breaks(body) else Continues(body))
    else l.BreakOf? && lbl == Some(l.l) && l.l in Breaks(body)
  }

  lemma BodyEmitted(head: CStmt, c: CStmt, lbl: Option<string>, body: Stmt, encl: set<string>)
    requires Straight(head) && Emitted(c, Breaks(body), Continues(body), encl + Maybe(lbl)) && Maybe(lbl) !! encl
    ensures var b := LoopBody(head, c, lbl, body);
      Labels(b) == {} && Decls(b) == [] && forall l :: l in Leaving(b) ==> OwnOrOuter(l, lbl, body, encl)
  {
    StraightFacts(head, []);
    var b := LoopBody(head, c, lbl, body);
    var list := Then(head, c);
    assert Leaving(list) <= Leaving(c);
    if Continued(lbl, body) {
      var last := LabelC(ContinueOf(lbl.value));
      assert Leaving(Block(list)) == Leaving(list) && Labels(Block(list)) == {};
      assert Leaving(last) == {} && Labels(last) == {ContinueOf(lbl.value)} && Labels(Then(Block(list), last)) == Labels(last);
      assert Leaving(Then(Block(list), last)) == Leaving(Block(list)) - {ContinueOf(lbl.value)};
      assert Leaving(b) == Leaving(Then(Block(list), last));
    } else {
      assert Leaving(b) == Leaving(list);
    }
  }

  lemma LoopEmitted(lbl: Option<string>, body: Stmt, loop: CStmt, encl: set<string>)
    requires Labels(loop) == {} && Maybe(lbl) !! encl && forall l :: l in Leaving(loop) ==> OwnOrOuter(l, lbl, body, encl)
    ensures Emitted(Labeled(lbl, body, loop), Breaks(body), Continues(body), encl)
  {
  }

  /** The inner scope of the body is why its end can be labelled: what the head and the body declare is
      out of scope there. */
  lemma BodyNoJump(head: CStmt, c: CStmt, lbl: Option<string>, body: Stmt, scope: seq<string>)
    requires Straight(head) && NoJumpIn(c, scope + Decls(head))
    ensures NoJumpIn(LoopBody(head, c, lbl, body), scope)
  {
    StraightFacts(head, scope);
    forall l | l in Labels(c) ensures Reaches(head, scope, l, LabelScope(c, scope + Decls(head), l)) {
      UnnamedReaches(head, scope, l, LabelScope(c, scope + Decls(head), l));
    }
    var list := Then(head, c);
    assert NoJumpIn(list, scope);
    if Continued(lbl, body) {
      var last := LabelC(ContinueOf(lbl.value));
      assert scope + [] == scope;
      OutwardReaches(Block(list), scope, ContinueOf(lbl.value), scope);
      assert Decls(Block(list)) == [] && Labels(Block(list)) == {} && NoJumpIn(Block(list), scope);
      assert Labels(last) == {ContinueOf(lbl.value)} && LabelScope(last, scope, ContinueOf(lbl.value)) == scope;
      assert NoJumpIn(last, scope) && NoJumpIn(Then(Block(list), last), scope);
    }
  }

  /** And the loop is why what follows it can be. */
  lemma LabeledNoJump(lbl: Option<string>, body: Stmt, loop: CStmt, scope: seq<string>)
    requires NoJumpIn(loop, scope) && Decls(loop) == [] && Labels(loop) == {}
    ensures NoJumpIn(Labeled(lbl, body, loop), scope)
  {
    if lbl.Some? && lbl.value in Breaks(body) {
      assert scope + [] == scope;
      OutwardReaches(loop, scope, BreakOf(lbl.value), scope);
    }
  }

  /** Labels and gotos of what a statement becomes. */
  lemma {:induction false} LowerEmitted(s: Stmt, encl: set<string>, names: set<string>)
    requires Branched(s, encl)
    ensures Emitted(Lower(s, names).0, Breaks(s), Continues(s), encl)
    decreases s, 1
  {
    match s
    case Seq(a, b) => LowerEmitted(a, encl, names); LowerEmitted(b, encl, Lower(a, names).1);
    case Scope(b) => LowerEmitted(b, encl, names);
    case Par(ts, es) => if |ts| == |es| { ParStraight(ts, es, names); StraightFacts(LowerPar(ts, es, names).0, []); }
    case If(_, a, b) => LowerEmitted(a, encl, names); LowerEmitted(b, encl, Lower(a, names).1);
    case For(_, _, _, _, _) => ForEmitted(s, encl, names);
    case Range(_, _, _, _, _) => RangeEmitted(s, encl, names);
    case Switch(tag, _, cs) =>
      if IsCSwitch(s) {
        ArmsEmitted(cs, encl, names);
      } else if tag.None? {
        ChainEmitted(cs, cs, None, encl, names);
      } else {
        var tmp := Reserve("switch_tag", names);
        ChainEmitted(cs, cs, Some(tmp), encl, names + {tmp});
        TaggedEmitted(tmp, tag.value, LowerChain(cs, cs, Some(tmp), names + {tmp}).0);
      }
    case _ =>
  }

  lemma {:induction false} ForEmitted(s: Stmt, encl: set<string>, names: set<string>)
    requires s.For? && Branched(s, encl)
    ensures Emitted(Lower(s, names).0, Breaks(s), Continues(s), encl)
    decreases s, 0
  {
    var c := Lower(s.body, names).0;
    var b := LoopBody(Nop, c, s.lbl, s.body);
    LowerEmitted(s.body, encl + Maybe(s.lbl), names);
    BodyEmitted(Nop, c, s.lbl, s.body, encl);
    StraightFacts(SimpleC(s.init), []);
    StraightFacts(SimpleC(s.post), []);
    LoopEmitted(s.lbl, s.body,
      if s.init.Skip? && s.post.Skip? then While(s.cond, b) else ForC(SimpleC(s.init), s.cond, SimpleC(s.post), b), encl);
  }

  lemma {:induction false} RangeEmitted(s: Stmt, encl: set<string>, names: set<string>)
    requires s.Range? && Branched(s, encl)
    ensures Emitted(Lower(s, names).0, Breaks(s), Continues(s), encl)
    decreases s, 0
  {
    var k := Counter(s, names).0;
    var c := Lower(s.body, names + {k}).0;
    LowerEmitted(s.body, encl + Maybe(s.lbl), names + {k});
    BodyEmitted(Head(s, k), c, s.lbl, s.body, encl);
    LoopEmitted(s.lbl, s.body, RangeC(s, k, c), encl);
  }

  lemma TaggedEmitted(tmp: string, tag: Expr, chain: CStmt)
    requires Labels(chain) == {}
    ensures Leaving(Block(Then(Set(tmp, tag), chain))) == Leaving(chain)
  {
    assert Leaving(Set(tmp, tag)) == {} && Labels(Set(tmp, tag)) == {};
    assert Leaving(Then(Set(tmp, tag), chain)) == Leaving(chain);
  }

  /** A clause of a C switch. */
  lemma ArmEmitted(c: CStmt, falls: bool, scope: seq<string>)
    ensures var b := Block(if falls then c else Then(c, BreakC));
      Leaving(b) <= Leaving(c) && Labels(b) == {} && Decls(b) == [] && (NoJumpIn(c, scope) ==> NoJumpIn(b, scope))
  {
    assert Leaving(Then(c, BreakC)) <= Leaving(c);
    assert Labels(BreakC) == {} && NoJumpIn(BreakC, scope + Decls(c)) && forall l, t :: Reaches(BreakC, scope + Decls(c), l, t);
    assert NoJumpIn(c, scope) ==> NoJumpIn(Then(c, BreakC), scope);
  }

  lemma {:induction false} ArmsEmitted(cs: Clauses, encl: set<string>, names: set<string>)
    requires ClausesBranched(cs, encl)
    ensures Named(ArmsLeaving(LowerArms(cs, names).0), ClauseBreaks(cs), ClauseContinues(cs), encl)
    decreases cs, 0
  {
    if cs.Clause? {
      LowerEmitted(cs.body, encl, names);
      ArmEmitted(Lower(cs.body, names).0, cs.falls, []);
      ArmsEmitted(cs.rest, encl, Lower(cs.body, names).1);
    }
  }

  lemma {:induction false} DefaultBranched(cs: Clauses, encl: set<string>)
    requires ClausesBranched(cs, encl)
    ensures ClausesBranched(Default(cs), encl)
    ensures ClauseBreaks(Default(cs)) <= ClauseBreaks(cs) && ClauseContinues(Default(cs)) <= ClauseContinues(cs)
  {
    if cs.Clause? { DefaultBranched(cs.rest, encl); }
  }

  lemma {:induction false} ChainEmitted(all: Clauses, cs: Clauses, tag: Option<string>, encl: set<string>, names: set<string>)
    requires (cs == all || cs < all) && ClausesBranched(all, encl) && ClausesBranched(cs, encl)
    requires ClauseBreaks(cs) <= ClauseBreaks(all) && ClauseContinues(cs) <= ClauseContinues(all)
    ensures Named(Leaving(LowerChain(all, cs, tag, names).0), ClauseBreaks(all), ClauseContinues(all), encl)
    ensures Labels(LowerChain(all, cs, tag, names).0) == {}
    decreases all, cs
  {
    if cs.End? {
      DefaultBranched(all, encl);
      if Default(all).Clause? { LowerEmitted(Default(all).body, encl, names); }
    } else if cs.vals == [] {
      ChainEmitted(all, cs.rest, tag, encl, names);
    } else {
      LowerEmitted(cs.body, encl, names);
      ChainEmitted(all, cs.rest, tag, encl, Lower(cs.body, names).1);
    }
  }

  // The theorem

  /** A goto of one half of a list to a label of the other: there is none. */
  lemma ListNoJump(a: CStmt, b: CStmt, scope: seq<string>, encl: set<string>)
    requires NoJumpIn(a, scope) && NoJumpIn(b, scope + Decls(a))
    requires Inner(a, encl) && Inner(b, encl)
    requires forall l :: l in Leaving(a) + Leaving(b) ==> l.l in encl
    ensures NoJumpIn(Then(a, b), scope)
  {
    forall l | l in Labels(b) ensures Reaches(a, scope, l, LabelScope(b, scope + Decls(a), l)) {
      UnnamedReaches(a, scope, l, LabelScope(b, scope + Decls(a), l));
    }
    forall l | l in Labels(a) ensures Reaches(b, scope + Decls(a), l, LabelScope(a, scope, l)) {
      UnnamedReaches(b, scope + Decls(a), l, LabelScope(a, scope, l));
    }
  }

  /** In the C of any body no goto, forward or back, and no case of a switch enters the scope of a
      variable that is declared between it and its target. */
  lemma {:induction false} NoJumpEntersScope(s: Stmt, encl: set<string>, names: set<string>, scope: seq<string>)
    requires Branched(s, encl)
    ensures NoJumpIn(Lower(s, names).0, scope)
    decreases s, 1
  {
    match s
    case Seq(a, b) =>
      var m := Lower(a, names).1;
      LowerEmitted(a, encl, names);
      LowerEmitted(b, encl, m);
      NoJumpEntersScope(a, encl, names, scope);
      NoJumpEntersScope(b, encl, m, scope + Decls(Lower(a, names).0));
      ListNoJump(Lower(a, names).0, Lower(b, m).0, scope, encl);
    case Scope(b) => NoJumpEntersScope(b, encl, names, scope);
    case Par(ts, es) => if |ts| == |es| { ParStraight(ts, es, names); StraightFacts(LowerPar(ts, es, names).0, scope); }
    case If(_, a, b) => NoJumpEntersScope(a, encl, names, scope); NoJumpEntersScope(b, encl, Lower(a, names).1, scope);
    case For(lbl, i, cond, p, b) => ForNoJump(s, encl, names, scope);
    case Range(_, _, _, _, _) => RangeNoJump(s, encl, names, scope);
    case Switch(tag, _, cs) =>
      if IsCSwitch(s) {
        ArmsNoJump(cs, encl, names, scope);
      } else if tag.None? {
        ChainNoJump(cs, cs, None, encl, names, scope);
      } else {
        var tmp := Reserve("switch_tag", names);
        ChainNoJump(cs, cs, Some(tmp), encl, names + {tmp}, scope + [tmp]);
        ChainEmitted(cs, cs, Some(tmp), encl, names + {tmp});
      }
    case _ =>
  }

  lemma {:induction false} ForNoJump(s: Stmt, encl: set<string>, names: set<string>, scope: seq<string>)
    requires s.For? && Branched(s, encl)
    ensures NoJumpIn(Lower(s, names).0, scope)
    decreases s, 0
  {
    var c := Lower(s.body, names).0;
    var b := LoopBody(Nop, c, s.lbl, s.body);
    var init, post := SimpleC(s.init), SimpleC(s.post);
    var inner := if s.init.Skip? && s.post.Skip? then scope else scope + Decls(init);
    NoJumpEntersScope(s.body, encl + Maybe(s.lbl), names, inner + Decls(Nop));
    BodyNoJump(Nop, c, s.lbl, s.body, inner);
    StraightFacts(init, scope);
    StraightFacts(post, scope + Decls(init));
    LabeledNoJump(s.lbl, s.body, if s.init.Skip? && s.post.Skip? then While(s.cond, b) else ForC(init, s.cond, post, b), scope);
  }

  lemma {:induction false} RangeNoJump(s: Stmt, encl: set<string>, names: set<string>, scope: seq<string>)
    requires s.Range? && Branched(s, encl)
    ensures NoJumpIn(Lower(s, names).0, scope)
    decreases s, 0
  {
    var k := Counter(s, names).0;
    var c := Lower(s.body, names + {k}).0;
    NoJumpEntersScope(s.body, encl + Maybe(s.lbl), names + {k}, scope + [k] + Decls(Head(s, k)));
    BodyNoJump(Head(s, k), c, s.lbl, s.body, scope + [k]);
    LabeledNoJump(s.lbl, s.body, RangeC(s, k, c), scope);
  }

  lemma {:induction false} ArmsNoJump(cs: Clauses, encl: set<string>, names: set<string>, scope: seq<string>)
    requires ClausesBranched(cs, encl)
    ensures NoCaseIn(LowerArms(cs, names).0, scope)
    decreases cs, 0
  {
    if cs.Clause? {
      NoJumpEntersScope(cs.body, encl, names, scope);
      ArmEmitted(Lower(cs.body, names).0, cs.falls, scope);
      ArmsNoJump(cs.rest, encl, Lower(cs.body, names).1, scope);
    }
  }

  lemma {:induction false} ChainNoJump(all: Clauses, cs: Clauses, tag: Option<string>, encl: set<string>, names: set<string>, scope: seq<string>)
    requires (cs == all || cs < all) && ClausesBranched(all, encl) && ClausesBranched(cs, encl)
    ensures NoJumpIn(LowerChain(all, cs, tag, names).0, scope)
    decreases all, cs
  {
    if cs.End? {
      DefaultBranched(all, encl);
      if Default(all).Clause? { NoJumpEntersScope(Default(all).body, encl, names, scope); }
    } else if cs.vals == [] {
      ChainNoJump(all, cs.rest, tag, encl, names, scope);
    } else {
      NoJumpEntersScope(cs.body, encl, names, scope);
      ChainNoJump(all, cs.rest, tag, encl, Lower(cs.body, names).1, scope);
    }
  }

  /** Without the inner scope there would be one: a declared value stands between the continue and the
      label at the end of the same list. */
  lemma ScopeIsNeeded(v: string, e: Expr, lbl: string, test: Expr, scope: seq<string>)
    ensures var go := IfC(test, Block(Goto(ContinueOf(lbl))), Block(Nop));
      var end := LabelC(ContinueOf(lbl));
      && !NoJumpIn(Then(go, Then(Set(v, e), end)), scope)
      && NoJumpIn(Then(Block(Then(go, Set(v, e))), end), scope)
  {
    var l := ContinueOf(lbl);
    var go := IfC(test, Block(Goto(l)), Block(Nop));
    var end := LabelC(l);
    var rest, list := Then(Set(v, e), end), Then(go, Set(v, e));
    assert scope + [] == scope;
    assert Labels(Set(v, e)) == {} && Decls(Set(v, e)) == [v] && Labels(end) == {l} && LabelScope(end, scope + [v], l) == scope + [v];
    assert Labels(rest) == {l} && LabelScope(rest, scope, l) == scope + [v];
    assert !Reaches(Block(Goto(l)), scope, l, scope + [v]);
    assert !Reaches(go, scope, l, scope + [v]);
    OutwardReaches(Block(list), scope, l, scope);
    assert Labels(go) == {} && Labels(Set(v, e)) == {} && NoJumpIn(Block(Goto(l)), scope) && NoJumpIn(Block(Nop), scope);
    assert NoJumpIn(go, scope) && NoJumpIn(list, scope);
    assert Labels(Block(list)) == {} && NoJumpIn(Block(list), scope);
  }
}
