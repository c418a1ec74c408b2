/** The lowering as stmt.go runs it: fields for the names taken and for what a bare break leaves,
    updated as statements are written, and refusals recorded as they are met. */
module StmtWriter {
  import opened Basics
  import opened Decimal
  import opened StmtLang
  import opened StmtLower

  class Transpiler {
    var names: set<string>
    var breakables: seq<Breakable>
    var failed: bool

    constructor (spelled: set<string>)
      ensures names == spelled && breakables == [] && !failed
    {
      names, breakables, failed := spelled, [], false;
    }

    function Enclosing(): Breakable
      reads this
    {
      if breakables == [] then BreakLoop else breakables[|breakables| - 1]
    }

    method NewName(base: string) returns (name: string)
      modifies this`names
      ensures name == Reserve(base, old(names)) && name !in old(names)
      ensures names == old(names) + {name}
    {
      name := base;
      var i := 2;
      ghost var left := names;
      while name in names
        invariant i >= 2 && names == old(names)
        invariant left <= names && name == Candidate(base, i - 1)
        invariant FirstFree(base, 1, names) == FirstFree(base, i - 1, left)
        invariant forall j :: i - 1 <= j && Candidate(base, j) in names ==> Candidate(base, j) in left
        decreases |left|
      {
        left := left - {name};
        forall j | i <= j && Candidate(base, j) in names ensures Candidate(base, j) in left {
          CandidatesDiffer(base, i - 1, j);
        }
        name := base + Dec(i);
        i := i + 1;
      }
      names := names + {name};
    }

    method Release(name: string)
      modifies this`names
      ensures names == old(names) - {name}
    {
      names := names - {name};
    }

    /** Indices that could change, then the values, then the stores. */
    method ParallelAssign(ts: seq<Target>, es: seq<Expr>) returns (c: CStmt)
      modifies this`names, this`failed
      ensures failed == (old(failed) || |ts| != |es|)
      ensures (c, names) == if |ts| == |es| then LowerPar(ts, es, old(names)) else (Nop, old(names))
    {
      if |ts| != |es| {
        failed := true;
        return Nop;
      }
      var at, us := AssignTargets(ts);
      var values, temps := AssignValues(ts, es);
      var stores := AssignStores(us, temps);
      c := Then(at, Then(values, stores));
    }

    method AssignTargets(ts: seq<Target>) returns (code: CStmt, us: seq<Target>)
      modifies this`names
      ensures Targets(code, us, names) == LowerTargets(ts, ts, old(names))
    {
      var lines: seq<CStmt> := [];
      us := [];
      for i := 0 to |ts|
        invariant TargetsFrom(lines, us, ts, i, names) == LowerTargets(ts, ts, old(names))
      {
        var t := ts[i];
        NextTarget(lines, us, ts, i, names);
        if t.Elem? && !Stable(t.i, ts) {
          var tmp := NewName(BaseName(t) + "_idx");
          lines := lines + [Set(tmp, t.i)];
          us := us + [Elem(t.buf, Var(tmp))];
        } else {
          us := us + [t];
        }
      }
      code := Lines(lines);
    }

    method AssignValues(ts: seq<Target>, es: seq<Expr>) returns (code: CStmt, temps: seq<string>)
      requires |ts| == |es|
      modifies this`names
      ensures Temps(code, temps, names) == LowerValues(ts, es, old(names))
    {
      var lines: seq<CStmt> := [];
      temps := [];
      for i := 0 to |es|
        invariant ValuesFrom(lines, temps, ts, es, i, names) == LowerValues(ts, es, old(names))
      {
        NextValue(lines, temps, ts, es, i, names);
        var tmp := NewName(BaseName(ts[i]) + "_tmp");
        lines := lines + [Set(tmp, es[i])];
        temps := temps + [tmp];
      }
      code := Lines(lines);
    }

    method AssignStores(us: seq<Target>, temps: seq<string>) returns (code: CStmt)
      requires |us| == |temps|
      ensures code == LowerStores(us, temps)
    {
      var lines: seq<CStmt> := [];
      for i := 0 to |us|
        invariant LowerStores(us, temps) == Before(lines, LowerStores(us[i..], temps[i..]))
      {
        assert us[i..][1..] == us[i + 1..] && temps[i..][1..] == temps[i + 1..];
        BeforeLast(lines, StoreTo(us[i], Var(temps[i])), LowerStores(us[i + 1..], temps[i + 1..]));
        lines := lines + [StoreTo(us[i], Var(temps[i]))];
      }
      code := Lines(lines);
    }

    /** The body of a loop, in which a bare break is the loop's. */
    method BodyOf(body: Stmt) returns (c: CStmt)
      modifies this
      ensures (c, names) == Lower(body, old(names)) && breakables == old(breakables)
      ensures failed == (old(failed) || !Accepted(body, BreakLoop))
      decreases body, 2
    {
      var saved := breakables;
      breakables := breakables + [BreakLoop];
      c := StmtOf(body);
      breakables := saved;
    }

    method RangeStmt(s: Stmt) returns (c: CStmt)
      requires s.Range?
      modifies this
      ensures (c, names) == Lower(s, old(names)) && breakables == old(breakables)
      ensures failed == (old(failed) || !Accepted(s, old(Enclosing())))
      decreases s, 0
    {
      if s.val.Some? && s.over.Upto? { failed := true; }
      var counter;
      var generated := true;
      if s.key.None? {
        counter := NewName((if s.val.Some? then s.val.value else "range") + "_i");
      } else if Assigns(s.body, s.key.value) {
        counter := NewName(s.key.value + "_i");
      } else {
        counter, generated := s.key.value, false;
        names := names + {counter};
      }
      var b := BodyOf(s.body);
      if generated { Release(counter); }
      c := Labeled(s.lbl, s.body, RangeC(s, counter, b));
    }

    method SwitchStmt(s: Stmt) returns (c: CStmt)
      requires s.Switch?
      modifies this
      ensures (c, names) == Lower(s, old(names)) && breakables == old(breakables)
      ensures failed == (old(failed) || !Accepted(s, old(Enclosing())))
      decreases s, 0
    {
      var saved := breakables;
      if IsCSwitch(s) {
        breakables := breakables + [BreakCSwitch];
        var arms := CSwitch(s.cs);
        c := SwitchC(s.tag.value, arms);
      } else {
        breakables := breakables + [BreakIfSwitch];
        if s.tag.None? {
          c := ChainSwitch(s.cs, s.cs, None);
        } else {
          var tmp := NewName("switch_tag");
          c := ChainSwitch(s.cs, s.cs, Some(tmp));
          Release(tmp);
          c := Block(Then(Set(tmp, s.tag.value), c));
        }
      }
      breakables := saved;
    }

    method CSwitch(cs: Clauses) returns (arms: Arms)
      requires Enclosing().BreakCSwitch?
      modifies this
      ensures (arms, names) == LowerArms(cs, old(names)) && breakables == old(breakables)
      ensures failed == (old(failed) || !ArmsAccepted(cs))
      decreases cs, 0
    {
      if cs.End? { return NoArm; }
      var b := StmtOf(cs.body);
      var rest := CSwitch(cs.rest);
      arms := Arm(CaseValues(cs.vals), cs.vals == [], Block(if cs.falls then b else Then(b, BreakC)), rest);
    }

    method ChainSwitch(all: Clauses, cs: Clauses, tag: Option<string>) returns (c: CStmt)
      requires Enclosing().BreakIfSwitch? && (cs == all || cs < all)
      modifies this
      ensures (c, names) == LowerChain(all, cs, tag, old(names)) && breakables == old(breakables)
      ensures failed == (old(failed) || !ChainAccepted(all, cs))
      decreases all, cs
    {
      if cs.End? {
        var dflt := Default(all);
        if dflt.End? { return Nop; }
        c := ChainClause(dflt.body, dflt.falls);
      } else if cs.vals == [] {
        c := ChainSwitch(all, cs.rest, tag);
      } else {
        var b := ChainClause(cs.body, cs.falls);
        var rest := ChainSwitch(all, cs.rest, tag);
        c := IfC(CaseCond(tag, cs.vals), b, rest);
      }
    }

    method ChainClause(body: Stmt, falls: bool) returns (c: CStmt)
      requires Enclosing().BreakIfSwitch?
      modifies this
      ensures c == Block(Lower(body, old(names)).0) && names == Lower(body, old(names)).1
      ensures breakables == old(breakables)
      ensures failed == (old(failed) || falls || !Accepted(body, BreakIfSwitch))
      decreases body, 2
    {
      c := StmtOf(body);
      c := Block(c);
      if falls { failed := true; }
    }

    method StmtOf(s: Stmt) returns (c: CStmt)
      modifies this
      ensures (c, names) == Lower(s, old(names)) && breakables == old(breakables)
      ensures failed == (old(failed) || !Accepted(s, old(Enclosing())))
      decreases s, 1
    {
      match s {
        case Skip => c := Nop;
        case Seq(a, b) =>
          var x := StmtOf(a);
          var y := StmtOf(b);
          c := Then(x, y);
        case Scope(b) =>
          c := StmtOf(b);
          c := Block(c);
        case Assign(t, e) => c := StoreTo(t, e);
        case Par(ts, es) => c := ParallelAssign(ts, es);
        case Effect(e) => c := Do(e);
        case If(e, a, b) =>
          var x := StmtOf(a);
          var y := StmtOf(b);
          c := IfC(e, Block(x), Block(y));
        case For(lbl, init, cond, post, body) =>
          if !Simple(init) || !Simple(post) { failed := true; }
          var b := BodyOf(body);
          b := LoopBody(Nop, b, lbl, body);
          c := Labeled(lbl, body, if init.Skip? && post.Skip? then While(cond, b)
            else ForC(SimpleC(init), cond, SimpleC(post), b));
        case Range(_, _, _, _, _) => c := RangeStmt(s);
        case Switch(_, _, _) => c := SwitchStmt(s);
        case Break(l) =>
          if l.Some? {
            c := Goto(BreakOf(l.value));
          } else {
            if Enclosing().BreakIfSwitch? { failed := true; }
            c := BreakC;
          }
        case Continue(l) => c := if l.Some? then Goto(ContinueOf(l.value)) else ContinueC;
        case Return(v) => c := ReturnC(v);
      }
    }
  }

  // A buffer of lines as one statement list

  function Before(lines: seq<CStmt>, c: CStmt): CStmt {
    if lines == [] then c else Then(lines[0], Before(lines[1..], c))
  }

  function Lines(lines: seq<CStmt>): CStmt { Before(lines, Nop) }

  /** What is lowered once the first i targets have been, into these lines. */
  function TargetsFrom(lines: seq<CStmt>, us: seq<Target>, ts: seq<Target>, i: nat, names: set<string>): Targets
    requires i <= |ts|
  {
    var r := LowerTargets(ts[i..], ts, names);
    Targets(Before(lines, r.code), us + r.ts, r.names)
  }

  lemma NextTarget(lines: seq<CStmt>, us: seq<Target>, ts: seq<Target>, i: nat, names: set<string>)
    requires i < |ts|
    ensures TargetsFrom(lines, us, ts, i, names) ==
      if ts[i].Elem? && !Stable(ts[i].i, ts) then
        var tmp := Reserve(BaseName(ts[i]) + "_idx", names);
        TargetsFrom(lines + [Set(tmp, ts[i].i)], us + [Elem(ts[i].buf, Var(tmp))], ts, i + 1, names + {tmp})
      else TargetsFrom(lines, us + [ts[i]], ts, i + 1, names)
  {
    assert ts[i..][1..] == ts[i + 1..];
    if ts[i].Elem? && !Stable(ts[i].i, ts) {
      var tmp := Reserve(BaseName(ts[i]) + "_idx", names);
      BeforeLast(lines, Set(tmp, ts[i].i), LowerTargets(ts[i + 1..], ts, names + {tmp}).code);
    }
  }

  /** The same for the values. */
  function ValuesFrom(lines: seq<CStmt>, temps: seq<string>, ts: seq<Target>, es: seq<Expr>, i: nat, names: set<string>): Temps
    requires i <= |ts| == |es|
  {
    var r := LowerValues(ts[i..], es[i..], names);
    Temps(Before(lines, r.code), temps + r.temps, r.names)
  }

  lemma NextValue(lines: seq<CStmt>, temps: seq<string>, ts: seq<Target>, es: seq<Expr>, i: nat, names: set<string>)
    requires i < |ts| == |es|
    ensures var tmp := Reserve(BaseName(ts[i]) + "_tmp", names);
      ValuesFrom(lines, temps, ts, es, i, names) == ValuesFrom(lines + [Set(tmp, es[i])], temps + [tmp], ts, es, i + 1, names + {tmp})
  {
    var tmp := Reserve(BaseName(ts[i]) + "_tmp", names);
    assert ts[i..][1..] == ts[i + 1..] && es[i..][1..] == es[i + 1..];
    var r := LowerValues(ts[i + 1..], es[i + 1..], names + {tmp});
    BeforeLast(lines, Set(tmp, es[i]), r.code);
    assert temps + ([tmp] + r.temps) == (temps + [tmp]) + r.temps;
  }

  lemma {:induction false} BeforeLast(lines: seq<CStmt>, x: CStmt, c: CStmt)
    ensures Before(lines + [x], c) == Before(lines, Then(x, c))
  {
    if lines != [] {
      BeforeLast(lines[1..], x, c);
      assert (lines + [x])[1..] == lines[1..] + [x];
    }
  }
}
