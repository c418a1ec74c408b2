/** What the statement lowering refuses: exactly the bodies in which one of five things stands somewhere,
    named by the way down to it. */
module StmtRefusal {
  import opened Basics
  import opened StmtLang
  import opened StmtLower

  // The clauses of a switch by number

  function Count(cs: Clauses): nat { if cs.End? then 0 else 1 + Count(cs.rest) }

  function Nth(cs: Clauses, k: nat): (r: Clauses)
    requires k < Count(cs)
    ensures r.Clause? && (r == cs || r < cs)
  {
    if k == 0 then cs else Nth(cs.rest, k - 1)
  }

  /** A clause with values, or the default; there is one default. */
  predicate Counts(cs: Clauses, k: nat)
    requires k < Count(cs)
  {
    Nth(cs, k).vals != [] || forall j :: 0 <= j < k ==> Nth(cs, j).vals != []
  }

  predicate ConstantClause(cs: Clauses, k: nat)
    requires k < Count(cs)
  {
    forall j :: 0 <= j < |Nth(cs, k).vals| ==> Nth(cs, k).vals[j].Lit?
  }

  /** An integral tag and only constants to compare it with: what C has a switch for. */
  predicate HasCSwitch(s: Stmt)
    requires s.Switch?
  {
    s.tag.Some? && s.integral && forall k :: 0 <= k < Count(s.cs) ==> ConstantClause(s.cs, k)
  }

  // The way down

  /** A statement, and what a bare break would leave there. */
  datatype Spot = Spot(s: Stmt, around: Breakable)

  /** The k-th statement directly inside. */
  function Direct(at: Spot, k: nat): Option<Spot> {
    match at.s
    case Seq(a, b) => if k == 0 then Some(at.(s := a)) else if k == 1 then Some(at.(s := b)) else None
    case Scope(b) => if k == 0 then Some(at.(s := b)) else None
    case If(_, a, b) => if k == 0 then Some(at.(s := a)) else if k == 1 then Some(at.(s := b)) else None
    case For(_, _, _, _, b) => if k == 0 then Some(Spot(b, BreakLoop)) else None
    case Range(_, _, _, _, b) => if k == 0 then Some(Spot(b, BreakLoop)) else None
    case Switch(_, _, cs) =>
      if k >= Count(cs) then None
      else if HasCSwitch(at.s) then Some(Spot(Nth(cs, k).body, BreakCSwitch))
      else if Counts(cs, k) then Some(Spot(Nth(cs, k).body, BreakIfSwitch))
      else None
    case _ => None
  }

  function Deep(at: Spot, path: seq<nat>): Option<Spot>
    decreases |path|
  {
    if path == [] then Some(at)
    else
      var d := Direct(at, path[0]);
      if d.None? then None else Deep(d.value, path[1..])
  }

  /** Unequal counts on the two sides of an assignment, a loop clause that is not simple, a value over an
      integer, a bare break directly in a clause of a switch that becomes an if chain, and a fallthrough in
      one. */
  predicate Cause(at: Spot) {
    match at.s
    case Par(ts, es) => |ts| != |es|
    case For(_, i, _, p, _) => !(i.Skip? || i.Assign?) || !(p.Skip? || p.Assign?)
    case Range(_, _, val, over, _) => val.Some? && over.Upto?
    case Break(l) => l.None? && at.around.BreakIfSwitch?
    case Switch(_, _, cs) => !HasCSwitch(at.s) && exists k :: 0 <= k < Count(cs) && Counts(cs, k) && Nth(cs, k).falls
    case _ => false
  }

  ghost predicate Refused(at: Spot) { exists path, d :: Deep(at, path) == Some(d) && Cause(d) }

  // It is what the lowering refuses.

  lemma NthNext(cs: Clauses, k: nat)
    requires !cs.End? && k < Count(cs.rest)
    ensures Nth(cs, k + 1) == Nth(cs.rest, k)
  {
  }

  lemma {:induction false} ConstantsAre(cs: Clauses)
    ensures ConstantCases(cs) <==> forall k :: 0 <= k < Count(cs) ==> ConstantClause(cs, k)
  {
    if !cs.End? {
      ConstantsAre(cs.rest);
      if ConstantCases(cs) {
        forall k | 0 <= k < Count(cs) ensures ConstantClause(cs, k) {
          if k > 0 {
            NthNext(cs, k - 1);
            assert ConstantClause(cs.rest, k - 1);
          }
        }
      } else if ConstantClause(cs, 0) {
        assert Nth(cs, 0) == cs;
        var k :| 0 <= k < Count(cs.rest) && !ConstantClause(cs.rest, k);
        NthNext(cs, k);
        assert !ConstantClause(cs, k + 1);
      } else {
        assert !ConstantClause(cs, 0);
      }
    }
  }

  predicate ArmAccepted(cs: Clauses, k: nat)
    requires k < Count(cs)
  {
    Accepted(Nth(cs, k).body, BreakCSwitch)
  }

  lemma {:induction false} ArmsAre(cs: Clauses)
    ensures ArmsAccepted(cs) <==> forall k :: 0 <= k < Count(cs) ==> ArmAccepted(cs, k)
  {
    if !cs.End? {
      ArmsAre(cs.rest);
      assert Nth(cs, 0) == cs;
      if ArmsAccepted(cs) {
        forall k | 0 <= k < Count(cs) ensures ArmAccepted(cs, k) {
          if k > 0 {
            NthNext(cs, k - 1);
            assert ArmAccepted(cs.rest, k - 1);
          }
        }
      } else if ArmAccepted(cs, 0) {
        var k :| 0 <= k < Count(cs.rest) && !ArmAccepted(cs.rest, k);
        NthNext(cs, k);
        assert !ArmAccepted(cs, k + 1);
      } else {
        assert !ArmAccepted(cs, 0);
      }
    }
  }

  /** A clause of a chain that is not refused. */
  predicate ClauseAccepted(c: Clauses)
    requires c.Clause?
  {
    Accepted(c.body, BreakIfSwitch) && !c.falls
  }

  predicate ValuedAccepted(cs: Clauses, k: nat)
    requires k < Count(cs)
  {
    Nth(cs, k).vals != [] ==> ClauseAccepted(Nth(cs, k))
  }

  lemma {:induction false} ValuedAre(all: Clauses, cs: Clauses)
    requires cs == all || cs < all
    ensures ChainAccepted(all, cs) <==>
      (Default(all).End? || ClauseAccepted(Default(all))) && forall k :: 0 <= k < Count(cs) ==> ValuedAccepted(cs, k)
    decreases cs
  {
    if !cs.End? {
      ValuedAre(all, cs.rest);
      if ChainAccepted(all, cs) {
        forall k | 0 <= k < Count(cs) ensures ValuedAccepted(cs, k) { if k > 0 { NthNext(cs, k - 1); assert ValuedAccepted(cs.rest, k - 1); } }
      } else if ValuedAccepted(cs, 0) && (Default(all).End? || ClauseAccepted(Default(all))) {
        var k :| 0 <= k < Count(cs.rest) && !ValuedAccepted(cs.rest, k);
        NthNext(cs, k);
        assert !ValuedAccepted(cs, k + 1);
      }
    }
  }

  /** The default, by number. */
  lemma {:induction false} DefaultAt(cs: Clauses) returns (d: nat)
    ensures if d < Count(cs) then Default(cs) == Nth(cs, d) && Nth(cs, d).vals == [] && Counts(cs, d) else Default(cs).End?
    ensures forall k :: 0 <= k < Count(cs) && k < d ==> Nth(cs, k).vals != []
  {
    d := 0;
    if !cs.End? && cs.vals != [] {
      var e := DefaultAt(cs.rest);
      d := e + 1;
      forall k | 0 <= k < Count(cs) && k < d ensures Nth(cs, k).vals != [] { if k > 0 { NthNext(cs, k - 1); } }
      if e < Count(cs.rest) { NthNext(cs, e); }
    }
  }

  lemma ChainsAre(cs: Clauses)
    ensures ChainAccepted(cs, cs) <==> forall k :: 0 <= k < Count(cs) && Counts(cs, k) ==> ClauseAccepted(Nth(cs, k))
  {
    ValuedAre(cs, cs);
    var d := DefaultAt(cs);
    if ChainAccepted(cs, cs) {
      forall k | 0 <= k < Count(cs) && Counts(cs, k) ensures ClauseAccepted(Nth(cs, k)) {
        assert ValuedAccepted(cs, k);
        if Nth(cs, k).vals == [] { OneDefault(cs, k, d); }
      }
    } else if Default(cs).End? || ClauseAccepted(Default(cs)) {
      var k :| 0 <= k < Count(cs) && !ValuedAccepted(cs, k);
      assert Counts(cs, k) && !ClauseAccepted(Nth(cs, k));
    } else {
      assert Counts(cs, d) && !ClauseAccepted(Nth(cs, d));
    }
  }

  lemma OneDefault(cs: Clauses, k: nat, d: nat)
    requires k < Count(cs) && Counts(cs, k) && Nth(cs, k).vals == []
    requires d < Count(cs) ==> Nth(cs, d).vals == []
    requires forall j :: 0 <= j < Count(cs) && j < d ==> Nth(cs, j).vals != []
    ensures k == d
  {
  }

  /** A statement is accepted if nothing is wrong with it itself and every statement directly inside is. */
  lemma AcceptedIs(at: Spot)
    ensures Accepted(at.s, at.around) <==>
      !Cause(at) && forall k :: Direct(at, k).Some? ==> Accepted(Direct(at, k).value.s, Direct(at, k).value.around)
  {
    match at.s
    case Seq(a, b) => assert Direct(at, 0) == Some(at.(s := a)) && Direct(at, 1) == Some(at.(s := b));
    case Scope(b) => assert Direct(at, 0) == Some(at.(s := b));
    case If(_, a, b) => assert Direct(at, 0) == Some(at.(s := a)) && Direct(at, 1) == Some(at.(s := b));
    case For(_, _, _, _, b) => assert Direct(at, 0) == Some(Spot(b, BreakLoop));
    case Range(_, _, _, _, b) => assert Direct(at, 0) == Some(Spot(b, BreakLoop));
    case Switch(_, _, _) => SwitchIs(at);
    case _ =>
  }

  lemma CSwitchIs(s: Stmt)
    requires s.Switch?
    ensures IsCSwitch(s) <==> HasCSwitch(s)
  {
    ConstantsAre(s.cs);
  }

  lemma SwitchIs(at: Spot)
    requires at.s.Switch?
    ensures Accepted(at.s, at.around) <==>
      !Cause(at) && forall k :: Direct(at, k).Some? ==> Accepted(Direct(at, k).value.s, Direct(at, k).value.around)
  {
    var cs := at.s.cs;
    CSwitchIs(at.s);
    if HasCSwitch(at.s) {
      ArmsAre(cs);
      forall k: nat ensures Direct(at, k) == if k < Count(cs) then Some(Spot(Nth(cs, k).body, BreakCSwitch)) else None {}
      assert Accepted(at.s, at.around) == ArmsAccepted(cs);
      if k :| 0 <= k < Count(cs) && !ArmAccepted(cs, k) {
        assert Direct(at, k).Some?;
      } else {
        forall k: nat | Direct(at, k).Some? ensures Accepted(Direct(at, k).value.s, Direct(at, k).value.around) {
          assert ArmAccepted(cs, k);
        }
      }
    } else {
      ChainsAre(cs);
      forall k: nat
        ensures Direct(at, k) == if k < Count(cs) && Counts(cs, k) then Some(Spot(Nth(cs, k).body, BreakIfSwitch)) else None {}
      assert Accepted(at.s, at.around) == ChainAccepted(cs, cs);
      if k :| 0 <= k < Count(cs) && Counts(cs, k) && !ClauseAccepted(Nth(cs, k)) { assert Direct(at, k).Some?; }
    }
  }

  lemma {:induction false} AcceptedDeep(at: Spot, path: seq<nat>, d: Spot)
    requires Accepted(at.s, at.around) && Deep(at, path) == Some(d)
    ensures !Cause(d)
    decreases |path|
  {
    AcceptedIs(at);
    if path != [] { AcceptedDeep(Direct(at, path[0]).value, path[1..], d); }
  }

  lemma DirectIsLess(at: Spot, k: nat)
    requires Direct(at, k).Some?
    ensures Direct(at, k).value.s < at.s
  {
  }

  lemma {:induction false} WayToCause(at: Spot) returns (path: seq<nat>, d: Spot)
    requires !Accepted(at.s, at.around)
    ensures Deep(at, path) == Some(d) && Cause(d)
    decreases at.s
  {
    AcceptedIs(at);
    if Cause(at) {
      path, d := [], at;
    } else {
      var k: nat :| Direct(at, k).Some? && !Accepted(Direct(at, k).value.s, Direct(at, k).value.around);
      DirectIsLess(at, k);
      var rest, e := WayToCause(Direct(at, k).value);
      path, d := [k] + rest, e;
      assert path[1..] == rest;
    }
  }

  /** The lowering refuses a statement exactly if one of the five causes stands in it. */
  lemma RefusedExactly(s: Stmt, around: Breakable)
    ensures !Accepted(s, around) <==> Refused(Spot(s, around))
  {
    if !Accepted(s, around) {
      var path, d := WayToCause(Spot(s, around));
    }
    if Refused(Spot(s, around)) {
      var path, d :| Deep(Spot(s, around), path) == Some(d) && Cause(d);
      if Accepted(s, around) { AcceptedDeep(Spot(s, around), path, d); }
    }
  }
}
