/** Bodies whose names are always safe, and the inputs at which they are not. */
module NameLimits {
  import opened Basics
  import opened Decimal
  import opened NameScope
  import ExprEmit
  import StmtLower

  // What is safe

  /** Declarations of one variable, and range clauses whose variables are not named like what they read:
      a := a + 1, at any depth. */
  predicate Ordinary(s: Stmt) {
    match s
    case Seq(a, b) => Ordinary(a) && Ordinary(b)
    case Decl(specs) => |specs| <= 1
    case Scope(b) => Ordinary(b)
    case Range(key, value, _, over, body) =>
      && Ordinary(body)
      && (over.Int? && !Generated(s) ==> NotNamed(key.value.name, over.uses))
      && (value.Some? ==> NotNamed(value.value.name, Source(over)) && (key.Some? ==> NotNamed(key.value.name, Source(over))))
    case _ => true
  }

  predicate NotNamed(name: string, uses: seq<Use>) { forall k :: 0 <= k < |uses| ==> uses[k].name != name }

  function NamesIn(uses: seq<Use>): set<string> { set u | u in uses :: u.name }

  /** The lengths that are read, and the names of the device, as they are spelled. */
  function Outer(s: Stmt): set<string> {
    match s
    case Skip => {}
    case Seq(a, b) => Outer(a) + Outer(b)
    case Expr(uses) => OuterIn(uses)
    case Set(target, rhs) => OuterIn([target] + rhs)
    case Decl(specs) => set d, u | d in specs && u in d.rhs && !u.kind.Variable? :: OuterName(u)
    case Scope(b) => Outer(b)
    case Range(_, _, _, over, body) => OuterIn(Source(over) + Limit(over)) + Outer(body)
  }

  function OuterIn(uses: seq<Use>): set<string> { set u | u in uses && !u.kind.Variable? :: OuterName(u) }

  function Ranged(s: Stmt): set<string> {
    match s
    case Seq(a, b) => Ranged(a) + Ranged(b)
    case Scope(b) => Ranged(b)
    case Range(_, _, _, over, body) => NamesIn(Source(over)) + Ranged(body)
    case _ => {}
  }

  /** No variable is spelled like one of them, and none ends as a name made up or escaped does.  For the
      length of a slice parameter the first is what is refused, and the second always holds. */
  predicate OuterApart(names: set<string>, declared: set<string>) { forall w :: w in names ==> w !in declared && OuterEnd(w) }

  predicate OuterEnd(w: string) { w != "" && w[|w| - 1] != '_' && !GeneratedEnd(w) }

  lemma LengthEnd(name: string)
    ensures OuterEnd(LengthOf(name))
  {
    var l := LengthOf(name);
    assert l[|l| - 1] == "_len"[3];
  }

  /** The names every thread reads its place in the grid from. */
  const INDEX_NAMES := {"threadIdx", "blockIdx", "blockDim", "gridDim"}

  lemma IndexEnd(w: string)
    requires w in INDEX_NAMES
    ensures OuterEnd(w)
  {
  }

  /** Renamed variables and what is in scope are named by the function or by the emitter. */
  predicate Tidy(n: Names, env: seq<Binding>, declared: set<string>) {
    && declared <= n.taken
    && (forall o :: o in n.renamed ==> GeneratedEnd(n.renamed[o]))
    && forall k :: 0 <= k < |env| ==> env[k].name in declared || GeneratedEnd(env[k].name)
  }

  lemma NotHidden(n: Names, env: seq<Binding>, declared: set<string>, w: string)
    requires Tidy(n, env, declared) && w !in declared && OuterEnd(w)
    ensures !Hidden(n, env, w)
  {
    forall k | 0 <= k < |env| ensures NameOf(n, env[k].name, env[k].obj) != w {
      CNameIs(env[k].name);
      if env[k].obj !in n.renamed && GeneratedEnd(env[k].name) { NoKeyword(env[k].name); }
    }
  }

  lemma Unblocked(n: Names, env: seq<Binding>, later: seq<Binding>, declared: set<string>, uses: seq<Use>)
    requires Tidy(n, env, declared) && OuterApart(OuterIn(uses), declared)
    requires forall k :: 0 <= k < |uses| && uses[k].kind.Variable? ==> Unnamed(later, uses[k].name)
    ensures NoneBlocked(n, env, later, uses)
  {
    forall k | 0 <= k < |uses| ensures !Blocked(n, env, later, uses[k]) {
      if !uses[k].kind.Variable? {
        assert uses[k] in uses;
        NotHidden(n, env, declared, OuterName(uses[k]));
      }
    }
  }

  lemma {:induction false} StaysTidy(s: Stmt, n: Names, declared: set<string>)
    requires Tidy(n, [], declared) && Declared(s) <= declared
    ensures Tidy(Emit(s, n).1, [], declared) && n.taken <= Emit(s, n).1.taken
  {
    match s
    case Seq(a, b) =>
      StaysTidy(a, n, declared);
      StaysTidy(b, Emit(a, n).1, declared);
    case Decl(specs) =>
      forall k | 0 <= k < |specs| ensures specs[k].x in declared { assert specs[k] in specs; assert specs[k].x in Declared(s); }
      SpecsTidy(specs, n, declared);
    case Scope(b) => StaysTidy(b, n, declared);
    case Range(_, _, _, _, body) => StaysTidy(body, Counting(s, n), declared);
    case _ =>
  }

  lemma RenamedTidy(n: Names, declared: set<string>, d: Spec)
    requires Tidy(n, [], declared) && d.x in declared
    ensures var m := Renamed(n, d.x, d.obj, d.rhs); Tidy(m, [], declared) && n.taken <= m.taken
  {
    if Shadows(d.x, d.obj, d.rhs) { SpareIs(d.x, n.taken); }
  }

  lemma {:induction false} SpecsTidy(specs: seq<Spec>, n: Names, declared: set<string>)
    requires Tidy(n, [], declared) && forall k :: 0 <= k < |specs| ==> specs[k].x in declared
    ensures Tidy(EmitSpecs(specs, n).1, [], declared) && n.taken <= EmitSpecs(specs, n).1.taken
    decreases |specs|
  {
    if specs != [] {
      RenamedTidy(n, declared, specs[0]);
      SpecsTidy(specs[1..], Renamed(n, specs[0].x, specs[0].obj, specs[0].rhs), declared);
    }
  }

  lemma {:induction false} OrdinaryIsSafe(s: Stmt, n: Names, env: seq<Binding>, declared: set<string>)
    requires Ordinary(s) && Declared(s) <= declared && Ranged(s) <= n.taken
    requires Tidy(n, env, declared) && OuterApart(Outer(s), declared)
    ensures Safe(s, n, env)
    decreases s, 1
  {
    match s
    case Skip =>
    case Seq(a, b) =>
      OrdinaryIsSafe(a, n, env, declared);
      StaysTidy(a, n, declared);
      AfterIs(a, env);
      forall k | 0 <= k < |After(a, env)| ensures After(a, env)[k].name in declared || GeneratedEnd(After(a, env)[k].name) {
        if k >= |env| { assert After(a, env)[k] == Added(a)[k - |env|]; }
      }
      OrdinaryIsSafe(b, Emit(a, n).1, After(a, env), declared);
    case Expr(uses) => Unblocked(n, env, [], declared, uses);
    case Set(target, rhs) => Unblocked(n, env, [], declared, [target] + rhs);
    case Decl(specs) => if specs != [] { OrdinaryDecl(s, n, env, declared); }
    case Scope(b) => OrdinaryIsSafe(b, n, env, declared);
    case Range(_, _, _, _, _) => OrdinaryRange(s, n, env, declared);
  }

  lemma OrdinaryDecl(s: Stmt, n: Names, env: seq<Binding>, declared: set<string>)
    requires s.Decl? && |s.specs| == 1 && Declared(s) <= declared
    requires Tidy(n, env, declared) && OuterApart(Outer(s), declared)
    ensures Safe(s, n, env)
  {
    var d := s.specs[0];
    assert d in s.specs && d.x in Declared(s);
    RenamedTidy(n, declared, d);
    assert [] + [Binding(d.x, d.obj)] == [Binding(d.x, d.obj)];
    forall w | w in OuterIn(d.rhs) ensures w !in declared && OuterEnd(w) { assert w in Outer(s); }
    Unblocked(Renamed(n, d.x, d.obj, d.rhs), env + [Binding(d.x, d.obj)], [], declared, d.rhs);
  }

  lemma HeadNames(s: Stmt, declared: set<string>, k: nat)
    requires s.Range? && Declared(s) <= declared && k < |Head(s)|
    ensures Head(s)[k].name in declared
  {
    var made := One(s.key) + One(s.value);
    assert Head(s)[k] in made;
    forall j | 0 <= j < |made| ensures made[j].name in declared { assert made[j] in made; }
  }

  lemma LoopVarName(s: Stmt, n: Names, declared: set<string>)
    requires s.Range? && Declared(s) <= declared
    ensures LoopVar(s, n).name in declared || GeneratedEnd(LoopVar(s, n).name)
  {
    if Generated(s) {
      CounterOf(s, n);
    } else {
      assert (One(s.key) + One(s.value))[0] == s.key.value;
      assert s.key.value in One(s.key) + One(s.value);
    }
  }

  /** What a range clause brings into scope has declared names, or the counter's. */
  lemma OrdinaryInside(s: Stmt, n: Names, env: seq<Binding>, declared: set<string>)
    requires s.Range? && Declared(s) <= declared && Tidy(n, env, declared)
    ensures Tidy(Counting(s, n), Inside(s, LoopVar(s, n), env), declared)
  {
    var all := Inside(s, LoopVar(s, n), env);
    forall k | |env| <= k < |all| ensures all[k].name in declared || GeneratedEnd(all[k].name) {
      if k == |env| {
        LoopVarName(s, n, declared);
      } else {
        assert all[k] == Head(s)[k - |env| - 1];
        HeadNames(s, declared, k - |env| - 1);
      }
    }
  }

  lemma CounterOf(s: Stmt, n: Names)
    requires s.Range? && Generated(s)
    ensures LoopVar(s, n).name !in n.taken && GeneratedEnd(LoopVar(s, n).name)
  {
    CounterIs(if s.key.Some? then CName(s.key.value.name) else if s.value.Some? then CName(s.value.value.name) else "range", n.taken);
  }

  /** A counter made up is not spelled as what the clause reads. */
  lemma OrdinaryCounter(s: Stmt, n: Names)
    requires s.Range? && Generated(s) && Ranged(s) <= n.taken
    ensures forall k :: 0 <= k < |Source(s.over)| ==> Source(s.over)[k].name != LoopVar(s, n).name
  {
    CounterOf(s, n);
    forall k | 0 <= k < |Source(s.over)| ensures Source(s.over)[k].name in n.taken { assert Source(s.over)[k] in Source(s.over); }
  }

  /** Nor is what it reads from outside spelled as a declared name. */
  lemma OrdinaryOuter(s: Stmt, declared: set<string>)
    requires s.Range? && OuterApart(Outer(s), declared)
    ensures OuterApart(OuterIn(Source(s.over)), declared) && OuterApart(OuterIn(Limit(s.over)), declared)
  {
    forall w | w in OuterIn(Source(s.over)) || w in OuterIn(Limit(s.over)) ensures w !in declared && OuterEnd(w) {
      assert w in OuterIn(Source(s.over) + Limit(s.over));
    }
  }

  lemma TidyPart(n: Names, env: seq<Binding>, rest: seq<Binding>, declared: set<string>, whole: seq<Binding>)
    requires Tidy(n, whole, declared) && whole == env + rest
    ensures Tidy(n, env, declared)
  {
    assert forall k :: 0 <= k < |env| ==> whole[k] == env[k];
  }

  lemma OrdinaryLimit(s: Stmt, l: Binding, n: Names, env: seq<Binding>, declared: set<string>)
    requires s.Range? && Ordinary(s) && Tidy(n, Inside(s, l, env), declared) && OuterApart(OuterIn(Limit(s.over)), declared)
    requires if Generated(s) then forall k :: 0 <= k < |Source(s.over)| ==> Source(s.over)[k].name != l.name else l == s.key.value
    ensures NoneBlocked(n, env + [l], [l], Limit(s.over))
  {
    assert Inside(s, l, env) == (env + [l]) + Head(s);
    TidyPart(n, env + [l], Head(s), declared, Inside(s, l, env));
    forall k | 0 <= k < |Limit(s.over)| && Limit(s.over)[k].kind.Variable? ensures Unnamed([l], Limit(s.over)[k].name) {
      assert Source(s.over)[k] == Limit(s.over)[k];
    }
    Unblocked(n, env + [l], [l], declared, Limit(s.over));
  }

  lemma OrdinarySource(s: Stmt, l: Binding, n: Names, env: seq<Binding>, declared: set<string>)
    requires s.Range? && s.value.Some? && Ordinary(s) && Tidy(n, Inside(s, l, env), declared)
    requires OuterApart(OuterIn(Source(s.over)), declared)
    requires if Generated(s) then forall k :: 0 <= k < |Source(s.over)| ==> Source(s.over)[k].name != l.name else l == s.key.value
    ensures NoneBlocked(n, Inside(s, l, env), [l] + Head(s), Source(s.over))
  {
    Unblocked(n, Inside(s, l, env), [l] + Head(s), declared, Source(s.over));
  }

  lemma {:induction false} OrdinaryRange(s: Stmt, n: Names, env: seq<Binding>, declared: set<string>)
    requires s.Range? && Ordinary(s) && Declared(s) <= declared && Ranged(s) <= n.taken
    requires Tidy(n, env, declared) && OuterApart(Outer(s), declared)
    ensures Safe(s, n, env)
    decreases s, 0
  {
    var l, m := LoopVar(s, n), Counting(s, n);
    OrdinaryInside(s, n, env, declared);
    OrdinaryOuter(s, declared);
    if Generated(s) { OrdinaryCounter(s, n); }
    OrdinaryLimit(s, l, m, env, declared);
    if s.value.Some? { OrdinarySource(s, l, m, env, declared); }
    OrdinaryIsSafe(s.body, m, Inside(s, l, env), declared);
  }

  /** What the refusals give: the length of a slice parameter is no variable of the function. */
  lemma SlicesApart(declared: set<string>, slices: seq<string>)
    requires NamesOk(declared, slices)
    ensures OuterApart(set x | x in slices :: LengthOf(x), declared)
  {
    forall x | x in slices ensures LengthOf(x) !in declared && OuterEnd(LengthOf(x)) { LengthEnd(x); }
  }

  // Inputs

  /** var x, y = e, x after an outer x: Go's y reads the outer x, the emitted one the new x. */
  lemma VarListReadsTooLate(x: string, y: string, outer: nat, p: nat, q: nat, e: seq<Use>, declared: set<string>, spelled: set<string>)
    requires x != y && outer != p && outer != q && p != q && {x, y} <= declared <= spelled && NoCollision(declared)
    requires e == []
    ensures var s := Decl([Spec(x, p, e), Spec(y, q, [Use(x, outer, Variable)])]);
      var env := [Binding(x, outer)];
      var n := Names(spelled, map[]);
      GoResolves(s, env) && !CResolves(Emit(s, n).0, InC(n, env))
  {
    var specs := [Spec(x, p, e), Spec(y, q, [Use(x, outer, Variable)])];
    var s := Decl(specs);
    var env := [Binding(x, outer)];
    var n := Names(spelled, map[]);
    assert Lookup(env, x) == Some(outer);
    assert AllResolve(specs[0].rhs, env) && AllResolve(specs[1].rhs, env);
    NamesDenote(s, env, declared, spelled);
    UnsafeList(specs, env, n);
  }

  lemma UnsafeList(specs: seq<Spec>, env: seq<Binding>, n: Names)
    requires |specs| == 2 && specs[0].rhs == [] && n.renamed == map[]
    requires specs[0].x != specs[1].x && specs[0].obj != specs[1].obj
    requires |specs[1].rhs| == 1 && specs[1].rhs[0].name == specs[0].x && specs[1].rhs[0].kind.Variable?
    ensures !SafeSpecs(specs, env, [], n)
  {
    var d, f := specs[0], specs[1];
    var before := [Binding(d.x, d.obj)];
    assert Renamed(n, d.x, d.obj, d.rhs) == n && Renamed(n, f.x, f.obj, f.rhs) == n;
    assert [] + before == before && specs[1..][0] == f;
    assert before[0].name == f.rhs[0].name;
    assert Captured(n, before, f.rhs[0]);
    assert !SafeSpecs(specs[1..], env, before, n);
  }

  /** One range clause over an outer variable, with nothing renamed. */
  lemma ClauseDenotes(s: Stmt, env: seq<Binding>, declared: set<string>, spelled: set<string>, n: Names)
    requires s.Range? && DeclaredOnce(s) && n == Names(spelled, map[])
    requires Declared(s) <= declared <= spelled && NoCollision(declared) && Proper(env, declared)
    requires GoResolves(s, env) && forall o :: o in Objects(s) ==> Unbound(env, o)
    ensures var l, m := LoopVar(s, n), Counting(s, n);
      CResolves(Emit(s, n).0, InC(n, env)) <==> (RangeSafe(s, l, m, env) && Safe(s.body, m, Inside(s, l, env)))
  {
    NamesDenote(s, env, declared, spelled);
  }

  /** for i, x := range x: Go's clause reads the outer x, the emitted x its own element. */
  lemma RangeValueReadsItself(i: string, x: string, outer: nat, p: nat, q: nat, counter: nat, declared: set<string>, spelled: set<string>)
    requires i != x && outer !in {p, q, counter} && counter !in {p, q} && p != q && {i, x} <= declared <= spelled && NoCollision(declared)
    ensures var s := Range(Some(Binding(i, p)), Some(Binding(x, q)), counter, Slice(Binding(x, outer)), Skip);
      var env := [Binding(x, outer)];
      var n := Names(spelled, map[]);
      GoResolves(s, env) && !CResolves(Emit(s, n).0, InC(n, env))
  {
    var s := Range(Some(Binding(i, p)), Some(Binding(x, q)), counter, Slice(Binding(x, outer)), Skip);
    var env := [Binding(x, outer)];
    var n := Names(spelled, map[]);
    assert Lookup(env, x) == Some(outer);
    ClauseDenotes(s, env, declared, spelled, n);
    ValueCaptures(s, LoopVar(s, n), Counting(s, n), env, Source(s.over)[0]);
  }

  lemma ValueCaptures(s: Stmt, l: Binding, n: Names, env: seq<Binding>, u: Use)
    requires s.Range? && s.value.Some? && n.renamed == map[] && u in Source(s.over) && u.kind.Variable? && u.name == s.value.value.name
    ensures !RangeSafe(s, l, n, env)
  {
    var later := [l] + Head(s);
    assert later[|later| - 1] == s.value.value;
    assert Captured(n, later, u);
  }

  /** for x := range x over an integer: the counter captures the limit, unless the body writes the key,
      which is then a copy. */
  lemma KeyHidesLimit(x: string, outer: nat, p: nat, counter: nat, writes: bool, declared: set<string>, spelled: set<string>)
    requires outer != p && outer != counter && p != counter && {x} <= declared <= spelled && NoCollision(declared)
    ensures var s := Range(Some(Binding(x, p)), None, counter, Int([Use(x, outer, Variable)]), if writes then Set(Use(x, p, Variable), []) else Skip);
      var env := [Binding(x, outer)];
      var n := Names(spelled, map[]);
      GoResolves(s, env) && (CResolves(Emit(s, n).0, InC(n, env)) <==> writes)
  {
    var s := Range(Some(Binding(x, p)), None, counter, Int([Use(x, outer, Variable)]), if writes then Set(Use(x, p, Variable), []) else Skip);
    var env := [Binding(x, outer)];
    var n := Names(spelled, map[]);
    KeyResolves(s, env, Binding(x, p), writes);
    ClauseDenotes(s, env, declared, spelled, n);
    assert Generated(s) == writes;
    var l := LoopVar(s, n);
    if writes {
      CounterIs(CName(x), n.taken);
      assert NoneBlocked(n, env + [l], [l], Limit(s.over));
      assert NoneBlocked(Counting(s, n), Inside(s, l, env), [], [s.body.target]);
    } else {
      assert [l][0].name == x;
      assert Captured(n, [l], Limit(s.over)[0]);
    }
  }

  lemma KeyResolves(s: Stmt, env: seq<Binding>, key: Binding, writes: bool)
    requires |env| == 1 && env[0].name == key.name && env[0].obj != key.obj
    requires s.Range? && s.key == Some(key) && s.value == None && s.over == Int([Use(key.name, env[0].obj, Variable)])
    requires s.counter != key.obj && s.body == if writes then Set(Use(key.name, key.obj, Variable), []) else Skip
    ensures GoResolves(s, env) && Declared(s) == {key.name} && DeclaredOnce(s) && Objects(s) == {key.obj, s.counter}
  {
    var made := One(s.key) + One(s.value);
    assert made == [key] && (set b | b in made :: b.name) == {key.name} && (set b | b in made :: b.obj) == {key.obj};
    LookupLast(env, key, key.name);
    assert writes ==> s.body.rhs == [] && [s.body.target] + s.body.rhs == [s.body.target];
  }

  /** for x := range x over a slice: the limit is the length, which x does not hide. */
  lemma SliceKeyIsFine(x: string, outer: nat, p: nat, counter: nat, declared: set<string>, spelled: set<string>)
    requires outer != p && outer != counter && p != counter && {x} <= declared <= spelled && NoCollision(declared)
    ensures var s := Range(Some(Binding(x, p)), None, counter, Slice(Binding(x, outer)), Skip);
      var env := [Binding(x, outer)];
      var n := Names(spelled, map[]);
      GoResolves(s, env) && CResolves(Emit(s, n).0, InC(n, env))
  {
    var s := Range(Some(Binding(x, p)), None, counter, Slice(Binding(x, outer)), Skip);
    var env := [Binding(x, outer)];
    var n := Names(spelled, map[]);
    assert Lookup(env, x) == Some(outer);
    ClauseDenotes(s, env, declared, spelled, n);
    var all := env + [LoopVar(s, n)];
    assert forall k :: 0 <= k < |all| ==> NameOf(n, all[k].name, all[k].obj) == CName(x);
    assert CName(x) != LengthOf(x);
    assert !Hidden(n, all, LengthOf(x));
  }

  lemma LengthIsPlain(name: string)
    ensures CName(LengthOf(name)) == LengthOf(name)
  {
    var l := LengthOf(name);
    assert l[|l| - 4] == "_len"[0];
    if l in ExprEmit.KEYWORDS { KeywordsAreLetters(l); }
  }

  lemma KeywordsAreLetters(w: string)
    requires w in ExprEmit.KEYWORDS
    ensures |w| < 4 || w[|w| - 4] != '_'
  {
  }

  /** The length of a tile sized by the launch is compared with the parameters only: a variable of an
      inner block spelled like it hides it.  For a slice parameter the same function is refused. */
  lemma TileLengthIsHidden(t: string, tile: nat, p: nat, zero: seq<Use>, spelled: set<string>)
    requires tile != p && zero == [] && {t, LengthOf(t)} <= spelled && NoCollision({t, LengthOf(t)})
    requires !HasPrefix(t, RESERVED) && !HasPrefix(LengthOf(t), RESERVED)
    ensures NamesOk({t, LengthOf(t)}, []) && !NamesOk({t, LengthOf(t)}, [t])
    ensures var s := Scope(Seq(Decl([Spec(LengthOf(t), p, zero)]), Expr([Use(t, tile, Length)])));
      var env := [Binding(t, tile)];
      var n := Names(spelled, map[]);
      GoResolves(s, env) && !CResolves(Emit(s, n).0, InC(n, env))
  {
    var d := Decl([Spec(LengthOf(t), p, zero)]);
    var e := Expr([Use(t, tile, Length)]);
    var s := Scope(Seq(d, e));
    var env := [Binding(t, tile)];
    var n := Names(spelled, map[]);
    LengthIsPlain(t);
    assert [t][0] == t;
    OneVariable(LengthOf(t), p, zero, env, n);
    LookupLast(env, Binding(LengthOf(t), p), t);
    assert Lookup(env, t) == Some(tile);
    assert LengthOf(t) != t by { CNameIs(t); }
    assert Declared(e) == {} && Objects(e) == {} && DeclaredOnce(e) && GoResolves(e, After(d, env));
    assert Declared(s.s) == Declared(d) + {} && Objects(s.s) == Objects(d) + {} && DeclaredOnce(s.s);
    NamesDenote(s, env, {t, LengthOf(t)}, spelled);
    assert After(d, env)[1] == Binding(LengthOf(t), p);
    OuterBlocked(n, After(d, env), Use(t, tile, Length), 1);
  }

  lemma OuterBlocked(n: Names, env: seq<Binding>, u: Use, k: nat)
    requires k < |env| && !u.kind.Variable? && NameOf(n, env[k].name, env[k].obj) == OuterName(u)
    ensures !Safe(Expr([u]), n, env)
  {
    assert Hidden(n, env, OuterName(u));
    assert Blocked(n, env, [], [u][0]);
  }

  /** var x = 0 */
  lemma OneVariable(x: string, p: nat, zero: seq<Use>, env: seq<Binding>, n: Names)
    requires zero == []
    ensures var d := Decl([Spec(x, p, zero)]);
      && Declared(d) == {x} && Objects(d) == {p} && DeclaredOnce(d) && GoResolves(d, env)
      && After(d, env) == env + [Binding(x, p)] && Emit(d, n).1 == n
  {
    var specs := [Spec(x, p, zero)];
    assert specs[0] in specs;
    assert Renamed(n, x, p, zero) == n;
    assert EmitSpecs(specs[1..], n).1 == n;
  }

  lemma IndexIsPlain(w: string)
    requires w in INDEX_NAMES
    ensures CName(w) == w && !HasPrefix(w, RESERVED)
  {
    assert RESERVED[0] == 's' && w[0] != 's';
    if w in ExprEmit.KEYWORDS { KeywordsAreShort(w); }
  }

  /** No keyword is an index name. */
  lemma KeywordsAreShort(w: string)
    requires w in ExprEmit.KEYWORDS
    ensures w !in INDEX_NAMES
  {
  }

  /** threadIdx := c.ThreadIdx(): nothing refuses the name, and in C the initialiser reads the variable it
      initialises. */
  lemma IndexNameIsHidden(w: string, p: nat, place: seq<Use>, spelled: set<string>)
    requires w in INDEX_NAMES && place == [Use(w, 0, Device)] && w in spelled
    ensures NamesOk({w}, [])
    ensures var s := Decl([Spec(w, p, place)]);
      var n := Names(spelled, map[]);
      GoResolves(s, []) && !CResolves(Emit(s, n).0, InC(n, []))
  {
    var specs := [Spec(w, p, place)];
    var n := Names(spelled, map[]);
    IndexIsPlain(w);
    assert Renamed(n, w, p, place) == n;
    NamesDenote(Decl(specs), [], {w}, spelled);
    var next := [] + [Binding(w, p)];
    assert next[0] == Binding(w, p) && [] + next == next;
    OuterBlocked(n, next, place[0], 0);
    assert Blocked(n, next, [], place[0]);
    assert !SafeSpecs(specs, [], [], n);
  }
}
