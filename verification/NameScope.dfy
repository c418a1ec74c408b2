/** Name resolution: Go brings a variable into scope after its declaration, C++ from its declarator on
    (ISO C++17 section 6.3.2), and the emitted names still denote the Go objects. */
module NameScope {
  import opened Basics
  import opened Decimal
  import StmtLower
  import ExprEmit

  function CName(x: string): string { ExprEmit.CName(x) }

  /** An identifier in an expression: of a variable, with the object go/types resolved it to; of a variable
      that is only asked for its length, which C has in a generated parameter; or written by the emitter
      itself for a name the device declares outside every function, such as threadIdx. */
  datatype Kind = Variable | Length | Device

  datatype Use = Use(name: string, obj: nat, kind: Kind)

  /** One variable of a declaration with its initialiser. */
  datatype Spec = Spec(x: string, obj: nat, rhs: seq<Use>)

  /** What is ranged over: an integer, a slice whose length is a generated parameter, or an array whose
      length is a literal. */
  datatype Over = Int(uses: seq<Use>) | Slice(buf: Binding) | Array(uses: seq<Use>)

  datatype Stmt =
    | Skip
    | Seq(a: Stmt, b: Stmt)
    | Expr(uses: seq<Use>)
    | Set(target: Use, rhs: seq<Use>)                                   // x = e, x += e, x++
    | Decl(specs: seq<Spec>)                                            // x := e; var x, y = e, f
    | Scope(s: Stmt)
    | Range(key: Option<Binding>, value: Option<Binding>, counter: nat, over: Over, body: Stmt)
      // for key, value := range over, with the C variable that counts where the key does not

  /** What is in scope, innermost last. */
  datatype Binding = Binding(name: string, obj: nat)

  function Lookup(env: seq<Binding>, name: string): Option<nat> {
    if env == [] then None
    else if env[|env| - 1].name == name then Some(env[|env| - 1].obj)
    else Lookup(env[..|env| - 1], name)
  }

  /** What a name denotes is the innermost variable of that name. */
  lemma {:induction false} LookupIs(env: seq<Binding>, name: string, obj: nat)
    ensures Lookup(env, name) == Some(obj) <==>
      exists k :: 0 <= k < |env| && env[k] == Binding(name, obj) && forall j :: k < j < |env| ==> env[j].name != name
  {
    var n := |env| - 1;
    if env != [] && env[n].name != name {
      LookupIs(env[..n], name, obj);
      assert forall k :: 0 <= k < n ==> env[..n][k] == env[k];
      if k :| 0 <= k < n && env[..n][k] == Binding(name, obj) && forall j :: k < j < n ==> env[..n][j].name != name {
        assert env[k] == Binding(name, obj) && forall j :: k < j < |env| ==> env[j].name != name;
      }
      if k :| 0 <= k < |env| && env[k] == Binding(name, obj) && forall j :: k < j < |env| ==> env[j].name != name {
        assert env[..n][k] == Binding(name, obj) && forall j :: k < j < n ==> env[..n][j].name != name;
      }
    }
  }

  predicate AllResolve(uses: seq<Use>, env: seq<Binding>) {
    forall k :: 0 <= k < |uses| && !uses[k].kind.Device? ==> Lookup(env, uses[k].name) == Some(uses[k].obj)
  }

  function Bindings(specs: seq<Spec>): (r: seq<Binding>)
    ensures |r| == |specs|
  {
    seq(|specs|, k requires 0 <= k < |specs| => Binding(specs[k].x, specs[k].obj))
  }

  // Go

  /** What the clause reads each round, for a value, and before every round, for the limit. */
  function Source(over: Over): seq<Use> { if over.Slice? then [Use(over.buf.name, over.buf.obj, Variable)] else over.uses }

  function Limit(over: Over): seq<Use> {
    match over
    case Int(uses) => uses
    case Slice(buf) => [Use(buf.name, buf.obj, Length)]
    case Array(_) => []
  }

  function One(b: Option<Binding>): seq<Binding> { if b.Some? then [b.value] else [] }

  function After(s: Stmt, env: seq<Binding>): seq<Binding> {
    match s
    case Seq(a, b) => After(b, After(a, env))
    case Decl(specs) => env + Bindings(specs)
    case _ => env
  }

  /** Every identifier denotes its object under Go's scopes: a declaration is in scope from its end on. */
  predicate GoResolves(s: Stmt, env: seq<Binding>) {
    match s
    case Skip => true
    case Seq(a, b) => GoResolves(a, env) && GoResolves(b, After(a, env))
    case Expr(uses) => AllResolve(uses, env)
    case Set(target, rhs) => AllResolve([target] + rhs, env)
    case Decl(specs) => forall k :: 0 <= k < |specs| ==> AllResolve(specs[k].rhs, env)
    case Scope(b) => GoResolves(b, env)
    case Range(key, value, _, over, body) => AllResolve(Source(over), env) && GoResolves(body, env + (One(key) + One(value)))
  }

  /** collectDeclared */
  function Declared(s: Stmt): set<string> {
    match s
    case Seq(a, b) => Declared(a) + Declared(b)
    case Decl(specs) => set d | d in specs :: d.x
    case Scope(b) => Declared(b)
    case Range(key, value, _, _, body) => (set b | b in One(key) + One(value) :: b.name) + Declared(body)
    case _ => {}
  }

  function Objects(s: Stmt): set<nat> {
    match s
    case Seq(a, b) => Objects(a) + Objects(b)
    case Decl(specs) => set d | d in specs :: d.obj
    case Scope(b) => Objects(b)
    case Range(key, value, counter, _, body) => {counter} + (set b | b in One(key) + One(value) :: b.obj) + Objects(body)
    case _ => {}
  }

  /** A declaration makes an object of its own. */
  predicate DeclaredOnce(s: Stmt) {
    match s
    case Seq(a, b) => DeclaredOnce(a) && DeclaredOnce(b) && Objects(a) !! Objects(b)
    case Decl(specs) => forall j, k :: 0 <= j < k < |specs| ==> specs[j].obj != specs[k].obj && specs[j].x != specs[k].x
    case Scope(b) => DeclaredOnce(b)
    case Range(key, value, counter, over, body) =>
      && DeclaredOnce(body) && counter !in Objects(body)
      && (key.Some? ==> key.value.obj !in Objects(body) && key.value.obj != counter)
      && (value.Some? ==> value.value.obj !in Objects(body) && value.value.obj != counter && !over.Int?)
      && (key.Some? && value.Some? ==> key.value.obj != value.value.obj && key.value.name != value.value.name)
    case _ => true
  }

  /** assignsToIdent */
  predicate Writes(s: Stmt, obj: nat) {
    match s
    case Seq(a, b) => Writes(a, obj) || Writes(b, obj)
    case Set(target, _) => target.obj == obj
    case Scope(b) => Writes(b, obj)
    case Range(_, _, _, _, body) => Writes(body, obj)
    case _ => false
  }

  // C

  datatype CStmt =
    | CSkip
    | CSeq(a: CStmt, b: CStmt)
    | CExpr(uses: seq<Use>)
    | CDecl(x: string, obj: nat, init: seq<Use>)
    | CScope(s: CStmt)
    | CFor(x: string, obj: nat, limit: seq<Use>, body: CStmt)

  function CAfter(c: CStmt, env: seq<Binding>): seq<Binding> {
    match c
    case CSeq(a, b) => CAfter(b, CAfter(a, env))
    case CDecl(x, obj, _) => env + [Binding(x, obj)]
    case _ => env
  }

  /** What the emitted identifier is to denote: its object, or the generated length parameter or the name
      of the device, which no variable may hide. */
  predicate Denotes(u: Use, env: seq<Binding>) { Lookup(env, u.name) == if u.kind.Variable? then Some(u.obj) else None }

  predicate AllDenote(uses: seq<Use>, env: seq<Binding>) { forall k :: 0 <= k < |uses| ==> Denotes(uses[k], env) }

  /** A declared name is in scope in its own initialiser, and a for variable in its condition. */
  predicate CResolves(c: CStmt, env: seq<Binding>) {
    match c
    case CSkip => true
    case CSeq(a, b) => CResolves(a, env) && CResolves(b, CAfter(a, env))
    case CExpr(uses) => AllDenote(uses, env)
    case CDecl(x, obj, init) => AllDenote(init, env + [Binding(x, obj)])
    case CScope(b) => CResolves(b, env)
    case CFor(x, obj, limit, body) => AllDenote(limit, env + [Binding(x, obj)]) && CResolves(body, env + [Binding(x, obj)])
  }

  // The emitter

  datatype Names = Names(taken: set<string>, renamed: map<nat, string>)

  /** cnameOf */
  function NameOf(n: Names, name: string, obj: nat): string { if obj in n.renamed then n.renamed[obj] else CName(name) }

  /** The parameter that carries the length of a slice or of the tile sized by the launch. */
  function LengthOf(name: string): string { CName(name) + "_len" }

  /** How a name that is no variable's is spelled. */
  function OuterName(u: Use): string { if u.kind.Length? then LengthOf(u.name) else u.name }

  function SpelledAs(n: Names, u: Use): string { if u.kind.Variable? then NameOf(n, u.name, u.obj) else OuterName(u) }

  function Spelled(n: Names, uses: seq<Use>): (r: seq<Use>)
    ensures |r| == |uses|
  {
    seq(|uses|, k requires 0 <= k < |uses| => uses[k].(name := SpelledAs(n, uses[k])))
  }

  lemma SpelledAlike(n: Names, m: Names, uses: seq<Use>)
    requires n.renamed == m.renamed
    ensures Spelled(n, uses) == Spelled(m, uses)
  {
  }

  /** Whether the initialiser reads an outer variable of the same name. */
  predicate Shadows(x: string, obj: nat, rhs: seq<Use>) {
    exists k :: 0 <= k < |rhs| && !rhs[k].kind.Device? && rhs[k].name == x && rhs[k].obj != obj
  }

  /** shadowRename */
  function Renamed(n: Names, x: string, obj: nat, rhs: seq<Use>): Names {
    if !Shadows(x, obj, rhs) then n
    else
      var spare := StmtLower.Reserve(x, n.taken);
      Names(n.taken + {spare}, n.renamed[obj := CName(spare)])
  }

  function Emit(s: Stmt, n: Names): (CStmt, Names) {
    match s
    case Skip => (CSkip, n)
    case Seq(a, b) =>
      var x := Emit(a, n);
      var y := Emit(b, x.1);
      (CSeq(x.0, y.0), y.1)
    case Expr(uses) => (CExpr(Spelled(n, uses)), n)
    case Set(target, rhs) => (CExpr(Spelled(n, [target] + rhs)), n)
    case Decl(specs) => EmitSpecs(specs, n)
    case Scope(b) => (CScope(Emit(b, n).0), Emit(b, n).1)
    case Range(_, _, _, over, body) =>
      var l, m := LoopVar(s, n), Counting(s, n);
      var b := Emit(body, m);
      (CFor(LoopName(s, l), l.obj, Spelled(m, Limit(over)), CSeq(CSeq(CopyKey(s, l), ReadValue(s, l, m)), b.0)),
       if Generated(s) then b.1.(taken := b.1.taken - {CounterName(s, n)}) else b.1)
  }

  // rangeStmt

  /** The key does not count: there is none, or the body writes its own copy. */
  predicate Generated(s: Stmt)
    requires s.Range?
  {
    s.key.None? || Writes(s.body, s.key.value.obj)
  }

  function CounterName(s: Stmt, n: Names): string
    requires s.Range?
  {
    var base := if s.key.Some? then CName(s.key.value.name) else if s.value.Some? then CName(s.value.value.name) else "range";
    StmtLower.Reserve(base + "_i", n.taken)
  }

  /** The name is held while the body is written. */
  function Counting(s: Stmt, n: Names): Names
    requires s.Range?
  {
    if Generated(s) then n.(taken := n.taken + {CounterName(s, n)}) else n
  }

  /** The variable of the C loop, and what it is called. */
  function LoopVar(s: Stmt, n: Names): Binding
    requires s.Range?
  {
    if Generated(s) then Binding(CounterName(s, n), s.counter) else s.key.value
  }

  function LoopName(s: Stmt, l: Binding): string
    requires s.Range?
  {
    if Generated(s) then l.name else CName(l.name)
  }

  function Index(s: Stmt, l: Binding): Use
    requires s.Range?
  {
    Use(LoopName(s, l), l.obj, Variable)
  }

  /** int key = counter; */
  function CopyKey(s: Stmt, l: Binding): CStmt
    requires s.Range?
  {
    if s.key.Some? && Generated(s) then CDecl(CName(s.key.value.name), s.key.value.obj, [Index(s, l)]) else CSkip
  }

  /** T value = over[index]; */
  function ReadValue(s: Stmt, l: Binding, n: Names): CStmt
    requires s.Range?
  {
    if s.value.Some? then CDecl(CName(s.value.value.name), s.value.value.obj, Spelled(n, Source(s.over)) + [Index(s, l)])
    else CSkip
  }

  /** define, decl: each initialiser is rendered once its variable has its name. */
  function EmitSpecs(specs: seq<Spec>, n: Names): (CStmt, Names)
    decreases |specs|
  {
    if specs == [] then (CSkip, n)
    else
      var d := specs[0];
      var m := Renamed(n, d.x, d.obj, d.rhs);
      var rest := EmitSpecs(specs[1..], m);
      (CSeq(CDecl(NameOf(m, d.x, d.obj), d.obj, Spelled(m, d.rhs)), rest.0), rest.1)
  }

  class Namer {
    var taken: set<string>
    var renamed: map<nat, string>

    constructor (spelled: set<string>)
      ensures Table() == Names(spelled, map[])
    {
      taken, renamed := spelled, map[];
    }

    function Table(): Names
      reads this
    {
      Names(taken, renamed)
    }

    method ShadowRename(x: string, obj: nat, rhs: seq<Use>)
      modifies this
      ensures Table() == Renamed(old(Table()), x, obj, rhs)
      ensures (forall k :: 0 <= k < |rhs| && rhs[k].name == x && rhs[k].obj != obj ==> rhs[k].kind.Device?) ==>
        taken == old(taken) && renamed == old(renamed)
      ensures (exists k :: 0 <= k < |rhs| && rhs[k].name == x && rhs[k].obj != obj && !rhs[k].kind.Device?) ==>
        exists spare :: spare !in old(taken) && taken == old(taken) + {spare} && renamed == old(renamed)[obj := CName(spare)]
    {
      for k := 0 to |rhs|
        invariant Table() == old(Table())
        invariant forall j :: 0 <= j < k ==> !(!rhs[j].kind.Device? && rhs[j].name == x && rhs[j].obj != obj)
      {
        if !rhs[k].kind.Device? && rhs[k].name == x && rhs[k].obj != obj {
          var spare := StmtLower.Reserve(x, taken);
          taken := taken + {spare};
          renamed := renamed[obj := CName(spare)];
          return;
        }
      }
    }

    method Declare(specs: seq<Spec>, k: nat) returns (c: CStmt)
      requires k <= |specs|
      modifies this
      ensures (c, Table()) == EmitSpecs(specs[k..], old(Table()))
      decreases |specs| - k
    {
      if k == |specs| { return CSkip; }
      var d := specs[k];
      assert specs[k..][1..] == specs[k + 1..];
      ShadowRename(d.x, d.obj, d.rhs);
      var decl := CDecl(NameOf(Table(), d.x, d.obj), d.obj, Spelled(Table(), d.rhs));
      var rest := Declare(specs, k + 1);
      c := CSeq(decl, rest);
    }

    method Write(s: Stmt) returns (c: CStmt)
      modifies this
      ensures (c, Table()) == Emit(s, old(Table()))
      decreases s, 1
    {
      match s {
        case Skip => c := CSkip;
        case Seq(a, b) =>
          var x := Write(a);
          var y := Write(b);
          c := CSeq(x, y);
        case Expr(uses) => c := CExpr(Spelled(Table(), uses));
        case Set(target, rhs) => c := CExpr(Spelled(Table(), [target] + rhs));
        case Decl(specs) => c := Declare(specs, 0);
        case Scope(b) =>
          c := Write(b);
          c := CScope(c);
        case Range(_, _, _, _, _) => c := WriteRange(s);
      }
    }

    method WriteRange(s: Stmt) returns (c: CStmt)
      requires s.Range?
      modifies this
      ensures (c, Table()) == Emit(s, old(Table()))
      decreases s, 0
    {
      var limit := Spelled(Table(), Limit(s.over));
      var from := Spelled(Table(), Source(s.over));
      var head := CSkip;
      var b: CStmt;
      if s.key.Some? && !Writes(s.body, s.key.value.obj) {
        var key := s.key.value;
        if s.value.Some? {
          head := CDecl(CName(s.value.value.name), s.value.value.obj, from + [Use(CName(key.name), key.obj, Variable)]);
        }
        b := Write(s.body);
        c := CFor(CName(key.name), key.obj, limit, CSeq(CSeq(CSkip, head), b));
      } else {
        var base := "range";
        if s.key.Some? { base := CName(s.key.value.name); } else if s.value.Some? { base := CName(s.value.value.name); }
        var counter := StmtLower.Reserve(base + "_i", taken);
        taken := taken + {counter};
        SpelledAlike(old(Table()), Table(), Limit(s.over));
        SpelledAlike(old(Table()), Table(), Source(s.over));
        var index := Use(counter, s.counter, Variable);
        var copy := CSkip;
        if s.key.Some? { copy := CDecl(CName(s.key.value.name), s.key.value.obj, [index]); }
        if s.value.Some? { head := CDecl(CName(s.value.value.name), s.value.value.obj, from + [index]); }
        b := Write(s.body);
        taken := taken - {counter};
        c := CFor(counter, s.counter, limit, CSeq(CSeq(copy, head), b));
      }
    }
  }

  // The refusals

  /** No keyword is declared beside the name it is escaped to. */
  predicate NoCollision(declared: set<string>) {
    forall x :: x in declared && CName(x) != x ==> CName(x) !in declared
  }

  function Spellings(xs: seq<string>): set<string> { set x | x in xs }

  const RESERVED := "simtgo_"

  predicate NamesOk(declared: set<string>, slices: seq<string>) {
    && NoCollision(declared)
    && (forall k :: 0 <= k < |slices| ==> CName(slices[k]) + "_len" !in declared)
    && (forall x :: x in declared ==> !HasPrefix(x, RESERVED))
  }

  /** checkGeneratedNames: lengths of slice parameters, escaped keywords, reserved names. */
  method CheckGeneratedNames(spellings: seq<string>, slices: seq<string>) returns (ok: bool)
    ensures ok <==> NamesOk(Spellings(spellings), slices)
    ensures ok <==>
      && (forall x :: x in spellings && CName(x) != x ==> CName(x) !in spellings)
      && (forall y :: y in slices ==> CName(y) + "_len" !in spellings)
      && (forall x :: x in spellings ==> !(|RESERVED| <= |x| && x[..|RESERVED|] == RESERVED))
  {
    var declared := Spellings(spellings);
    ok := true;
    for k := 0 to |slices|
      invariant ok <==> forall j :: 0 <= j < k ==> CName(slices[j]) + "_len" !in declared
    {
      if CName(slices[k]) + "_len" in declared { ok := false; }
    }
    ghost var lengths := ok;
    for k := 0 to |spellings|
      invariant ok <==> (lengths &&
        forall j :: 0 <= j < k ==> (CName(spellings[j]) != spellings[j] ==> CName(spellings[j]) !in declared))
    {
      if CName(spellings[k]) != spellings[k] && CName(spellings[k]) in declared { ok := false; }
    }
    ghost var escaped := ok;
    for k := 0 to |spellings|
      invariant ok <==> (escaped && forall j :: 0 <= j < k ==> !HasPrefix(spellings[j], RESERVED))
    {
      if HasPrefix(spellings[k], RESERVED) { ok := false; }
    }
    RefusalsAre(spellings);
  }

  /** The refusals, with the sets as sequences and the reserved prefix spelt out. */
  lemma RefusalsAre(spellings: seq<string>)
    ensures NoCollision(Spellings(spellings)) <==> forall x :: x in spellings && CName(x) != x ==> CName(x) !in spellings
    ensures (forall x :: x in Spellings(spellings) ==> !HasPrefix(x, RESERVED)) <==>
      forall x :: x in spellings ==> !(|RESERVED| <= |x| && x[..|RESERVED|] == RESERVED)
  {
    var declared := Spellings(spellings);
    assert forall x :: x in declared <==> x in spellings;
  }

  // Generated names are new.

  lemma CNameIs(x: string)
    ensures CName(x) == x || CName(x) == x + "_"
  {
  }

  /** How every generated name ends, as no keyword, escaped keyword or length does. */
  predicate GeneratedEnd(w: string) { w != "" && (IsDigit(w[|w| - 1]) || w[|w| - 1] == 'i') }

  lemma NoKeyword(w: string)
    requires GeneratedEnd(w)
    ensures CName(w) == w
  {
    if w in ExprEmit.KEYWORDS { KeywordEnds(w); }
  }

  lemma KeywordEnds(w: string)
    requires w in ExprEmit.KEYWORDS
    ensures !GeneratedEnd(w)
  {
  }

  /** A spare name ends in a digit, so it is no keyword and no escaped one. */
  lemma SpareIs(x: string, taken: set<string>)
    requires x in taken
    ensures var w := StmtLower.Reserve(x, taken); w != "" && IsDigit(w[|w| - 1]) && CName(w) == w && w !in taken
  {
    var i := StmtLower.FirstFree(x, 1, taken);
    var w := StmtLower.Reserve(x, taken);
    assert i != 1;
    assert w == x + Dec(i) && w[|w| - 1] == Dec(i)[|Dec(i)| - 1];
    NoKeyword(w);
  }

  /** So is the name of a counter. */
  lemma CounterIs(base: string, taken: set<string>)
    ensures var w := StmtLower.Reserve(base + "_i", taken); GeneratedEnd(w) && CName(w) == w && w !in taken
  {
    var i := StmtLower.FirstFree(base + "_i", 1, taken);
    var w := StmtLower.Reserve(base + "_i", taken);
    if i == 1 {
      assert w[|w| - 1] == "_i"[1];
    } else {
      assert w == base + "_i" + Dec(i) && w[|w| - 1] == Dec(i)[|Dec(i)| - 1];
    }
    NoKeyword(w);
  }

  lemma NotEscaped(w: string, d: string)
    requires GeneratedEnd(w) && w != d
    ensures CName(d) != w
  {
    CNameIs(d);
    assert (d + "_")[|d|] == '_';
  }

  lemma NamesApart(declared: set<string>, y: string, z: string)
    requires NoCollision(declared) && y in declared && z in declared && y != z
    ensures CName(y) != CName(z)
  {
    CNameIs(y);
    CNameIs(z);
    assert (y + "_")[..|y|] == y && (z + "_")[..|z|] == z;
  }

  // The invariant

  /** The names of a function: declared variables do not collide, and a renamed object has a name that
      is no variable's and no other object's. */
  predicate Sound(n: Names, declared: set<string>) {
    && declared <= n.taken && NoCollision(declared)
    && (forall o :: o in n.renamed ==> n.renamed[o] in n.taken)
    && (forall o, d :: o in n.renamed && d in declared ==> n.renamed[o] != CName(d))
    && (forall o, q :: o in n.renamed && q in n.renamed && o != q ==> n.renamed[o] != n.renamed[q])
  }

  /** An environment of that function. */
  predicate Proper(env: seq<Binding>, declared: set<string>) {
    && (forall k :: 0 <= k < |env| ==> env[k].name in declared)
    && (forall j, k :: 0 <= j < k < |env| ==> env[j].obj != env[k].obj)
  }

  predicate Unbound(env: seq<Binding>, obj: nat) { forall k :: 0 <= k < |env| ==> env[k].obj != obj }

  /** The same variables as C has them in scope. */
  function InC(n: Names, env: seq<Binding>): (r: seq<Binding>)
    ensures |r| == |env|
  {
    seq(|env|, k requires 0 <= k < |env| => Binding(NameOf(n, env[k].name, env[k].obj), env[k].obj))
  }

  /** Two objects share a C name exactly if they share a Go name and neither was renamed. */
  lemma SharedName(n: Names, declared: set<string>, y: string, o: nat, z: string, q: nat)
    requires Sound(n, declared) && y in declared && z in declared && o != q
    ensures NameOf(n, y, o) == NameOf(n, z, q) <==> y == z && o !in n.renamed && q !in n.renamed
  {
    if y != z { NamesApart(declared, y, z); }
  }

  lemma {:induction false} FoundIn(env: seq<Binding>, name: string, obj: nat)
    requires Lookup(env, name) == Some(obj)
    ensures !Unbound(env, obj) && exists k :: 0 <= k < |env| && env[k] == Binding(name, obj)
  {
    var n := |env| - 1;
    if env[n].name == name {
      assert env[n] == Binding(name, obj);
    } else {
      FoundIn(env[..n], name, obj);
      var k :| 0 <= k < n && env[..n][k] == Binding(name, obj);
      assert env[k] == Binding(name, obj);
    }
  }

  lemma InCPrefix(n: Names, env: seq<Binding>, k: nat)
    requires k <= |env|
    ensures InC(n, env)[..k] == InC(n, env[..k])
  {
  }

  /** What Go finds, C finds under its own name. */
  lemma {:induction false} LookupInC(n: Names, declared: set<string>, env: seq<Binding>, y: string, o: nat)
    requires Sound(n, declared) && Proper(env, declared) && y in declared && Lookup(env, y) == Some(o)
    ensures Lookup(InC(n, env), NameOf(n, y, o)) == Some(o)
    decreases |env|
  {
    var last := env[|env| - 1];
    if last.name != y {
      var rest := env[..|env| - 1];
      FoundIn(rest, y, o);
      SharedName(n, declared, y, o, last.name, last.obj);
      InCPrefix(n, env, |env| - 1);
      LookupInC(n, declared, rest, y, o);
    }
  }

  /** One of the later bindings takes the name the use is spelled with. */
  predicate Captured(n: Names, later: seq<Binding>, u: Use) {
    u.obj !in n.renamed && exists k :: 0 <= k < |later| && later[k].name == u.name && later[k].obj !in n.renamed
  }

  /** Something in scope is spelled like the length, or the name of the device. */
  predicate Hidden(n: Names, all: seq<Binding>, w: string) {
    exists k :: 0 <= k < |all| && NameOf(n, all[k].name, all[k].obj) == w
  }

  /** In the scope all, of which later was added since the use was resolved, the emitted name denotes
      something else. */
  predicate Blocked(n: Names, all: seq<Binding>, later: seq<Binding>, u: Use) {
    if u.kind.Variable? then Captured(n, later, u) else Hidden(n, all, OuterName(u))
  }

  predicate NoneBlocked(n: Names, all: seq<Binding>, later: seq<Binding>, uses: seq<Use>) {
    forall k :: 0 <= k < |uses| ==> !Blocked(n, all, later, uses[k])
  }

  lemma {:induction false} LookupNone(env: seq<Binding>, name: string)
    ensures Lookup(env, name) == None <==> forall k :: 0 <= k < |env| ==> env[k].name != name
  {
    if env != [] {
      var rest := env[..|env| - 1];
      LookupNone(rest, name);
      if k :| 0 <= k < |env| && env[k].name == name { assert k < |rest| ==> rest[k] == env[k]; }
    }
  }

  lemma HiddenInC(n: Names, all: seq<Binding>, w: string)
    ensures Lookup(InC(n, all), w) == None <==> !Hidden(n, all, w)
  {
    LookupNone(InC(n, all), w);
    assert forall k :: 0 <= k < |all| ==> InC(n, all)[k].name == NameOf(n, all[k].name, all[k].obj);
  }

  lemma LookupLast(env: seq<Binding>, last: Binding, name: string)
    ensures Lookup(env + [last], name) == if last.name == name then Some(last.obj) else Lookup(env, name)
  {
    assert (env + [last])[..|env|] == env;
  }

  lemma InCLast(n: Names, env: seq<Binding>, last: Binding)
    ensures InC(n, env + [last]) == InC(n, env) + [Binding(NameOf(n, last.name, last.obj), last.obj)]
  {
  }

  lemma CapturedLast(n: Names, rest: seq<Binding>, last: Binding, u: Use)
    ensures Captured(n, rest + [last], u) <==>
      Captured(n, rest, u) || (u.obj !in n.renamed && last.name == u.name && last.obj !in n.renamed)
  {
    var later := rest + [last];
    assert later[|rest|] == last;
    assert forall k :: 0 <= k < |rest| ==> later[k] == rest[k];
  }

  lemma {:induction false} CapturedOrFound(n: Names, declared: set<string>, env: seq<Binding>, later: seq<Binding>, u: Use)
    requires Sound(n, declared) && Proper(env + later, declared) && u.name in declared && Lookup(env, u.name) == Some(u.obj)
    ensures Lookup(InC(n, env + later), NameOf(n, u.name, u.obj)) == Some(u.obj) <==> !Captured(n, later, u)
    decreases |later|
  {
    if later == [] {
      assert env + later == env;
      LookupInC(n, declared, env, u.name, u.obj);
    } else {
      var m := |later| - 1;
      var rest, last := later[..m], later[m];
      assert later == rest + [last] && env + later == (env + rest) + [last];
      LaterObject(env, rest, last, declared, u);
      SharedName(n, declared, u.name, u.obj, last.name, last.obj);
      InCLast(n, env + rest, last);
      LookupLast(InC(n, env + rest), Binding(NameOf(n, last.name, last.obj), last.obj), NameOf(n, u.name, u.obj));
      CapturedLast(n, rest, last, u);
      CapturedOrFound(n, declared, env, rest, u);
    }
  }

  lemma LaterObject(env: seq<Binding>, rest: seq<Binding>, last: Binding, declared: set<string>, u: Use)
    requires Proper((env + rest) + [last], declared) && Lookup(env, u.name) == Some(u.obj)
    ensures last.obj != u.obj && last.name in declared && Proper(env + rest, declared)
  {
    var all := (env + rest) + [last];
    FoundIn(env, u.name, u.obj);
    var i :| 0 <= i < |env| && env[i] == Binding(u.name, u.obj);
    assert all[i] == env[i] && all[|all| - 1] == last;
    assert forall k :: 0 <= k < |env + rest| ==> all[k] == (env + rest)[k];
  }

  lemma UseResolves(n: Names, declared: set<string>, env: seq<Binding>, later: seq<Binding>, u: Use)
    requires Sound(n, declared) && Proper(env + later, declared) && (!u.kind.Device? ==> Lookup(env, u.name) == Some(u.obj))
    ensures Denotes(u.(name := SpelledAs(n, u)), InC(n, env + later)) <==> !Blocked(n, env + later, later, u)
  {
    if !u.kind.Variable? {
      HiddenInC(n, env + later, OuterName(u));
    } else {
      UseInScope(declared, env, later, u);
      CapturedOrFound(n, declared, env, later, u);
    }
  }

  lemma UsesResolve(n: Names, declared: set<string>, env: seq<Binding>, later: seq<Binding>, uses: seq<Use>)
    requires Sound(n, declared) && Proper(env + later, declared) && AllResolve(uses, env)
    ensures AllDenote(Spelled(n, uses), InC(n, env + later)) <==> NoneBlocked(n, env + later, later, uses)
  {
    forall k | 0 <= k < |uses|
      ensures Denotes(Spelled(n, uses)[k], InC(n, env + later)) <==> !Blocked(n, env + later, later, uses[k])
    {
      UseResolves(n, declared, env, later, uses[k]);
    }
  }

  lemma UseInScope(declared: set<string>, env: seq<Binding>, later: seq<Binding>, u: Use)
    requires Proper(env + later, declared) && Lookup(env, u.name) == Some(u.obj)
    ensures u.name in declared
  {
    FoundIn(env, u.name, u.obj);
    var k :| 0 <= k < |env| && env[k] == Binding(u.name, u.obj);
    assert (env + later)[k] == env[k];
  }

  // Renaming

  lemma RenameSound(n: Names, declared: set<string>, x: string, obj: nat, rhs: seq<Use>)
    requires Sound(n, declared) && x in declared && obj !in n.renamed
    ensures Sound(Renamed(n, x, obj, rhs), declared)
    ensures obj in Renamed(n, x, obj, rhs).renamed <==> Shadows(x, obj, rhs)
  {
    if Shadows(x, obj, rhs) {
      var w := StmtLower.Reserve(x, n.taken);
      SpareIs(x, n.taken);
      forall d | d in declared ensures CName(d) != w { NotEscaped(w, d); }
    }
  }

  lemma RenameKeeps(n: Names, x: string, obj: nat, rhs: seq<Use>, env: seq<Binding>)
    requires Unbound(env, obj)
    ensures InC(Renamed(n, x, obj, rhs), env) == InC(n, env)
  {
  }

  /** While a loop is written its counter is a declared name like any other, and released after it. */
  lemma CounterSound(n: Names, declared: set<string>, w: string)
    requires Sound(n, declared) && GeneratedEnd(w) && CName(w) == w && w !in n.taken
    ensures Sound(n.(taken := n.taken + {w}), declared + {w})
  {
    forall x | x in declared ensures CName(x) != w { NotEscaped(w, x); }
  }

  lemma CounterDone(n: Names, declared: set<string>, w: string)
    requires Sound(n, declared + {w}) && w !in declared && CName(w) == w
    ensures Sound(n.(taken := n.taken - {w}), declared)
  {
  }

  /** A variable nothing names changes nothing Go finds. */
  lemma {:induction false} StillFound(a: seq<Binding>, b: seq<Binding>, w: Binding, name: string)
    requires name != w.name
    ensures Lookup(a + [w] + b, name) == Lookup(a + b, name)
    decreases |b|
  {
    if b == [] {
      assert a + [w] + b == a + [w] && a + b == a;
      LookupLast(a, w, name);
    } else {
      var rest, last := b[..|b| - 1], b[|b| - 1];
      assert a + [w] + b == (a + [w] + rest) + [last] && a + b == (a + rest) + [last];
      LookupLast(a + [w] + rest, last, name);
      LookupLast(a + rest, last, name);
      StillFound(a, rest, w, name);
    }
  }

  predicate Unnamed(env: seq<Binding>, name: string) { forall k :: 0 <= k < |env| ==> env[k].name != name }

  lemma AllStillFound(uses: seq<Use>, a: seq<Binding>, b: seq<Binding>, w: Binding)
    requires AllResolve(uses, a + b) && Unnamed(a + b, w.name)
    ensures AllResolve(uses, a + [w] + b)
  {
    forall k | 0 <= k < |uses| && !uses[k].kind.Device? ensures Lookup(a + [w] + b, uses[k].name) == Some(uses[k].obj) {
      FoundIn(a + b, uses[k].name, uses[k].obj);
      StillFound(a, b, w, uses[k].name);
    }
  }

  function Added(s: Stmt): seq<Binding> {
    match s
    case Seq(a, b) => Added(a) + Added(b)
    case Decl(specs) => Bindings(specs)
    case _ => []
  }

  lemma {:induction false} AfterIs(s: Stmt, env: seq<Binding>)
    ensures After(s, env) == env + Added(s)
    ensures forall k :: 0 <= k < |Added(s)| ==> Added(s)[k].name in Declared(s)
  {
    match s
    case Seq(a, b) =>
      AfterIs(a, env);
      AfterIs(b, env + Added(a));
    case Decl(specs) =>
      forall k | 0 <= k < |specs| ensures specs[k].x in Declared(s) { assert specs[k] in specs; }
    case _ =>
  }

  lemma {:induction false} StillResolves(s: Stmt, a: seq<Binding>, b: seq<Binding>, w: Binding)
    requires GoResolves(s, a + b) && Unnamed(a + b, w.name) && w.name !in Declared(s)
    ensures GoResolves(s, a + [w] + b)
    decreases s, 1
  {
    match s
    case Skip =>
    case Expr(uses) => AllStillFound(uses, a, b, w);
    case Set(target, rhs) => AllStillFound([target] + rhs, a, b, w);
    case Decl(specs) => forall k | 0 <= k < |specs| ensures AllResolve(specs[k].rhs, a + [w] + b) { AllStillFound(specs[k].rhs, a, b, w); }
    case Scope(c) => StillResolves(c, a, b, w);
    case Seq(_, _) => StillResolvesSeq(s, a, b, w);
    case Range(_, _, _, _, _) => StillResolvesRange(s, a, b, w);
  }

  lemma {:induction false} StillResolvesSeq(s: Stmt, a: seq<Binding>, b: seq<Binding>, w: Binding)
    requires s.Seq? && GoResolves(s, a + b) && Unnamed(a + b, w.name) && w.name !in Declared(s)
    ensures GoResolves(s, a + [w] + b)
    decreases s, 0
  {
    var c := b + Added(s.a);
    StillResolves(s.a, a, b, w);
    AfterIs(s.a, a + b);
    AfterIs(s.a, a + [w] + b);
    assert (a + b) + Added(s.a) == a + c && (a + [w] + b) + Added(s.a) == a + [w] + c;
    StillResolves(s.b, a, c, w);
  }

  lemma {:induction false} StillResolvesRange(s: Stmt, a: seq<Binding>, b: seq<Binding>, w: Binding)
    requires s.Range? && GoResolves(s, a + b) && Unnamed(a + b, w.name) && w.name !in Declared(s)
    ensures GoResolves(s, a + [w] + b)
    decreases s, 0
  {
    AllStillFound(Source(s.over), a, b, w);
    var made := One(s.key) + One(s.value);
    forall k | 0 <= k < |made| ensures made[k].name in Declared(s) { assert made[k] in made; }
    assert (a + b) + made == a + (b + made) && (a + [w] + b) + made == a + [w] + (b + made);
    StillResolves(s.body, a, b + made, w);
  }

  // Exactly when

  /** What stands in the head of the body. */
  function Copied(s: Stmt): seq<Binding>
    requires s.Range?
  {
    if Generated(s) then One(s.key) else []
  }

  function Head(s: Stmt): seq<Binding>
    requires s.Range?
  {
    Copied(s) + One(s.value)
  }

  function Inside(s: Stmt, l: Binding, env: seq<Binding>): seq<Binding>
    requires s.Range?
  {
    env + ([l] + Head(s))
  }

  /** A limit is read beside the loop variable, and what is ranged over beside every variable of the
      clause. */
  predicate RangeSafe(s: Stmt, l: Binding, n: Names, env: seq<Binding>)
    requires s.Range?
  {
    && NoneBlocked(n, env + [l], [l], Limit(s.over))
    && (s.value.Some? ==> NoneBlocked(n, Inside(s, l, env), [l] + Head(s), Source(s.over)))
  }

  /** Nothing a declaration or a range clause reads is captured by a variable it makes, and no length
      and no name of the device is read where a variable is spelled like it.  The variable of an initialiser itself never captures:
      it is renamed if it would. */
  predicate Safe(s: Stmt, n: Names, env: seq<Binding>) {
    match s
    case Skip => true
    case Seq(a, b) => Safe(a, n, env) && Safe(b, Emit(a, n).1, After(a, env))
    case Expr(uses) => NoneBlocked(n, env, [], uses)
    case Set(target, rhs) => NoneBlocked(n, env, [], [target] + rhs)
    case Decl(specs) => SafeSpecs(specs, env, [], n)
    case Scope(b) => Safe(b, n, env)
    case Range(_, _, _, _, body) =>
      var l, m := LoopVar(s, n), Counting(s, n);
      RangeSafe(s, l, m, env) && Safe(body, m, Inside(s, l, env))
  }

  predicate SafeSpecs(specs: seq<Spec>, env: seq<Binding>, before: seq<Binding>, n: Names)
    decreases |specs|
  {
    specs == [] ||
    var d := specs[0];
    var m := Renamed(n, d.x, d.obj, d.rhs);
    var next := before + [Binding(d.x, d.obj)];
    NoneBlocked(m, env + next, before, d.rhs) && SafeSpecs(specs[1..], env, next, m)
  }

  /** A variable does not capture what its own initialiser reads. */
  lemma OwnNeverCaptures(n: Names, d: Spec, before: seq<Binding>, u: Use)
    requires u in d.rhs && !u.kind.Device? && u.obj != d.obj && d.obj !in n.renamed
    ensures var m := Renamed(n, d.x, d.obj, d.rhs);
      Captured(m, before + [Binding(d.x, d.obj)], u) <==> Captured(m, before, u)
  {
    var m := Renamed(n, d.x, d.obj, d.rhs);
    var later := before + [Binding(d.x, d.obj)];
    if k :| 0 <= k < |later| && later[k].name == u.name && later[k].obj !in m.renamed {
      if k < |before| { assert before[k] == later[k]; }
    }
    if k :| 0 <= k < |before| && before[k].name == u.name && before[k].obj !in m.renamed { assert later[k] == before[k]; }
  }

  /** The objects of a declaration are all new. */
  predicate AllNew(specs: seq<Spec>, env: seq<Binding>, n: Names) {
    && (forall k :: 0 <= k < |specs| ==> Unbound(env, specs[k].obj) && specs[k].obj !in n.renamed)
    && (forall j, k :: 0 <= j < k < |specs| ==> specs[j].obj != specs[k].obj)
  }

  lemma ProperNext(env: seq<Binding>, declared: set<string>, x: string, obj: nat)
    requires Proper(env, declared) && x in declared && Unbound(env, obj)
    ensures Proper(env + [Binding(x, obj)], declared)
  {
  }

  lemma OneSpec(n: Names, declared: set<string>, env: seq<Binding>, before: seq<Binding>, d: Spec)
    requires Sound(n, declared) && Proper(env + before, declared) && d.x in declared
    requires Unbound(env + before, d.obj) && d.obj !in n.renamed && AllResolve(d.rhs, env)
    ensures var m := Renamed(n, d.x, d.obj, d.rhs);
      var next := before + [Binding(d.x, d.obj)];
      && Sound(m, declared) && Proper(env + next, declared)
      && InC(m, env + next) == InC(n, env + before) + [Binding(NameOf(m, d.x, d.obj), d.obj)]
      && (AllDenote(Spelled(m, d.rhs), InC(m, env + next)) <==> NoneBlocked(m, env + next, before, d.rhs))
  {
    var m := Renamed(n, d.x, d.obj, d.rhs);
    var next := before + [Binding(d.x, d.obj)];
    RenameSound(n, declared, d.x, d.obj, d.rhs);
    RenameKeeps(n, d.x, d.obj, d.rhs, env + before);
    ProperNext(env + before, declared, d.x, d.obj);
    assert env + next == (env + before) + [Binding(d.x, d.obj)];
    UsesResolve(m, declared, env, next, d.rhs);
    forall k | 0 <= k < |d.rhs| ensures Blocked(m, env + next, next, d.rhs[k]) <==> Blocked(m, env + next, before, d.rhs[k]) {
      if d.rhs[k].kind.Variable? {
        OtherObject(env, before, d, k);
        OwnNeverCaptures(n, d, before, d.rhs[k]);
      }
    }
  }

  lemma OtherObject(env: seq<Binding>, before: seq<Binding>, d: Spec, k: nat)
    requires Unbound(env + before, d.obj) && AllResolve(d.rhs, env) && k < |d.rhs| && !d.rhs[k].kind.Device?
    ensures d.rhs[k].obj != d.obj
  {
    FoundIn(env, d.rhs[k].name, d.rhs[k].obj);
    var i :| 0 <= i < |env| && env[i] == Binding(d.rhs[k].name, d.rhs[k].obj);
    assert (env + before)[i] == env[i];
  }

  /** A declaration renames its own objects only. */
  lemma {:induction false} SpecsRename(specs: seq<Spec>, n: Names)
    requires forall k :: 0 <= k < |specs| ==> specs[k].obj !in n.renamed
    requires forall j, k :: 0 <= j < k < |specs| ==> specs[j].obj != specs[k].obj
    ensures var r := EmitSpecs(specs, n).1;
      && (forall o :: o in r.renamed ==> o in n.renamed || exists k :: 0 <= k < |specs| && specs[k].obj == o)
      && (forall o :: o in n.renamed ==> o in r.renamed && r.renamed[o] == n.renamed[o])
    decreases |specs|
  {
    if specs != [] {
      var d := specs[0];
      var m := Renamed(n, d.x, d.obj, d.rhs);
      SpecsRename(specs[1..], m);
      forall o | o in EmitSpecs(specs, n).1.renamed && o !in n.renamed ensures exists k :: 0 <= k < |specs| && specs[k].obj == o {
        if o in m.renamed {
          assert specs[0].obj == o;
        } else {
          var k :| 0 <= k < |specs| - 1 && specs[1..][k].obj == o;
          assert specs[k + 1].obj == o;
        }
      }
    }
  }

  lemma {:induction false} SpecsResolve(specs: seq<Spec>, n: Names, declared: set<string>, env: seq<Binding>, before: seq<Binding>)
    requires Sound(n, declared) && Proper(env + before, declared) && AllNew(specs, env + before, n)
    requires forall k :: 0 <= k < |specs| ==> specs[k].x in declared && AllResolve(specs[k].rhs, env)
    ensures var r := EmitSpecs(specs, n);
      var all := env + before + Bindings(specs);
      && (CResolves(r.0, InC(n, env + before)) <==> SafeSpecs(specs, env, before, n))
      && CAfter(r.0, InC(n, env + before)) == InC(r.1, all) && Sound(r.1, declared) && Proper(all, declared)
    decreases |specs|
  {
    if specs == [] {
      assert env + before + Bindings(specs) == env + before;
    } else {
      var d := specs[0];
      var m := Renamed(n, d.x, d.obj, d.rhs);
      var next := before + [Binding(d.x, d.obj)];
      OneSpec(n, declared, env, before, d);
      StillNew(specs, env, before, n);
      SpecsResolve(specs[1..], m, declared, env, next);
      DeclResolves(NameOf(m, d.x, d.obj), d.obj, Spelled(m, d.rhs), EmitSpecs(specs[1..], m).0, InC(n, env + before), InC(m, env + next));
      assert env + before + Bindings(specs) == env + next + Bindings(specs[1..]);
    }
  }

  lemma DeclResolves(x: string, obj: nat, init: seq<Use>, rest: CStmt, env: seq<Binding>, next: seq<Binding>)
    requires next == env + [Binding(x, obj)]
    ensures CResolves(CSeq(CDecl(x, obj, init), rest), env) <==> AllDenote(init, next) && CResolves(rest, next)
    ensures CAfter(CSeq(CDecl(x, obj, init), rest), env) == CAfter(rest, next)
  {
  }

  lemma ForResolves(x: string, obj: nat, limit: seq<Use>, head: CStmt, body: CStmt, env: seq<Binding>, e: seq<Binding>)
    requires e == env + [Binding(x, obj)]
    ensures CResolves(CFor(x, obj, limit, CSeq(head, body)), env) <==>
      AllDenote(limit, e) && CResolves(head, e) && CResolves(body, CAfter(head, e))
  {
  }

  lemma StillNew(specs: seq<Spec>, env: seq<Binding>, before: seq<Binding>, n: Names)
    requires specs != [] && AllNew(specs, env + before, n)
    ensures var d := specs[0];
      AllNew(specs[1..], env + (before + [Binding(d.x, d.obj)]), Renamed(n, d.x, d.obj, d.rhs))
  {
    var d := specs[0];
    forall k | 0 <= k < |specs| - 1 ensures Unbound(env + (before + [Binding(d.x, d.obj)]), specs[1..][k].obj) {
      assert specs[1..][k] == specs[k + 1];
      assert env + (before + [Binding(d.x, d.obj)]) == (env + before) + [Binding(d.x, d.obj)];
    }
  }

  /** New objects stay new: a statement binds and renames only its own. */
  predicate Fresh(objs: set<nat>, env: seq<Binding>, n: Names) {
    forall o :: o in objs ==> Unbound(env, o) && o !in n.renamed
  }

  /** Between n and m only some objects have been renamed. */
  predicate OnlyRenames(n: Names, m: Names, objs: set<nat>) {
    && (forall o :: o in m.renamed ==> o in n.renamed || o in objs)
    && (forall o :: o in n.renamed ==> o in m.renamed && m.renamed[o] == n.renamed[o])
  }

  /** The names stand for what is in scope after s. */
  predicate Emitted(s: Stmt, n: Names, declared: set<string>, env: seq<Binding>) {
    var r := Emit(s, n);
    && (CResolves(r.0, InC(n, env)) <==> Safe(s, n, env))
    && CAfter(r.0, InC(n, env)) == InC(r.1, After(s, env)) && Sound(r.1, declared) && Proper(After(s, env), declared)
    && OnlyRenames(n, r.1, Objects(s))
    && (forall k :: 0 <= k < |After(s, env)| ==> After(s, env)[k] in env || After(s, env)[k].obj in Objects(s))
  }

  lemma SameInC(n: Names, m: Names, objs: set<nat>, env: seq<Binding>)
    requires OnlyRenames(n, m, objs) && forall o :: o in objs ==> Unbound(env, o)
    ensures InC(m, env) == InC(n, env)
  {
    forall k | 0 <= k < |env| ensures NameOf(m, env[k].name, env[k].obj) == NameOf(n, env[k].name, env[k].obj) {
      assert env[k].obj in objs ==> Unbound(env, env[k].obj);
    }
  }

  lemma UsesEmitted(uses: seq<Use>, n: Names, declared: set<string>, env: seq<Binding>)
    requires Sound(n, declared) && Proper(env, declared) && AllResolve(uses, env)
    ensures AllDenote(Spelled(n, uses), InC(n, env)) <==> NoneBlocked(n, env, [], uses)
  {
    assert env + [] == env;
    UsesResolve(n, declared, env, [], uses);
  }

  lemma DeclEmitted(s: Stmt, n: Names, declared: set<string>, env: seq<Binding>)
    requires s.Decl? && GoResolves(s, env) && DeclaredOnce(s) && Declared(s) <= declared
    requires Sound(n, declared) && Proper(env, declared) && Fresh(Objects(s), env, n)
    ensures Emitted(s, n, declared, env)
  {
    var specs := s.specs;
    forall k | 0 <= k < |specs| ensures specs[k].x in declared && specs[k].obj in Objects(s) {
      assert specs[k] in specs;
      assert specs[k].x in Declared(s);
    }
    assert env + [] == env;
    assert env + [] + Bindings(specs) == After(s, env);
    SpecsRename(specs, n);
    SpecsResolve(specs, n, declared, env, []);
    forall k | 0 <= k < |After(s, env)| ensures After(s, env)[k] in env || After(s, env)[k].obj in Objects(s) {
      if k >= |env| { assert After(s, env)[k] == Bindings(specs)[k - |env|]; }
    }
  }

  /** A range clause in scope: its variables are new, and named as the emitter names them. */
  lemma InsideProper(s: Stmt, n: Names, declared: set<string>, env: seq<Binding>) returns (all: set<string>)
    requires s.Range? && DeclaredOnce(s) && Declared(s) <= declared
    requires Sound(n, declared) && Proper(env, declared) && Fresh(Objects(s), env, n)
    ensures declared <= all && all == (if Generated(s) then declared + {CounterName(s, n)} else declared)
    ensures Generated(s) ==> CounterName(s, n) !in n.taken && CName(CounterName(s, n)) == CounterName(s, n)
    ensures Sound(Counting(s, n), all) && Proper(env + [LoopVar(s, n)], all) && Proper(Inside(s, LoopVar(s, n), env), all)
  {
    all := declared;
    var made := One(s.key) + One(s.value);
    forall k | 0 <= k < |made| ensures made[k].name in declared && made[k].obj in Objects(s) { assert made[k] in made; }
    if s.key.Some? { assert made[0] == s.key.value; }
    if s.value.Some? { assert made[|made| - 1] == s.value.value; }
    if Generated(s) {
      var base := if s.key.Some? then CName(s.key.value.name) else if s.value.Some? then CName(s.value.value.name) else "range";
      CounterIs(base, n.taken);
      CounterSound(n, declared, CounterName(s, n));
      all := declared + {CounterName(s, n)};
    }
    ProperNext(env, all, LoopVar(s, n).name, LoopVar(s, n).obj);
    HeadProper(s, LoopVar(s, n), all, env);
  }

  lemma HeadProper(s: Stmt, l: Binding, all: set<string>, env: seq<Binding>)
    requires s.Range? && DeclaredOnce(s) && Proper(env + [l], all)
    requires l.obj == (if Generated(s) then s.counter else s.key.value.obj)
    requires s.key.Some? ==> s.key.value.name in all && Unbound(env, s.key.value.obj)
    requires s.value.Some? ==> s.value.value.name in all && Unbound(env, s.value.value.obj)
    ensures Proper(Inside(s, l, env), all)
  {
    var a := env + [l];
    var b := a + Copied(s);
    if Generated(s) && s.key.Some? { ProperNext(a, all, s.key.value.name, s.key.value.obj); }
    if s.value.Some? { ProperNext(b, all, s.value.value.name, s.value.value.obj); }
    assert Inside(s, l, env) == b + One(s.value);
  }

  lemma {:induction false} EmitResolves(s: Stmt, n: Names, declared: set<string>, env: seq<Binding>)
    requires GoResolves(s, env) && DeclaredOnce(s) && Declared(s) <= declared
    requires Sound(n, declared) && Proper(env, declared) && Fresh(Objects(s), env, n)
    ensures Emitted(s, n, declared, env)
    decreases s, 1
  {
    match s
    case Skip =>
    case Seq(_, _) => SeqEmitted(s, n, declared, env);
    case Expr(uses) => UsesEmitted(uses, n, declared, env);
    case Set(target, rhs) => UsesEmitted([target] + rhs, n, declared, env);
    case Decl(_) => DeclEmitted(s, n, declared, env);
    case Scope(b) =>
      EmitResolves(b, n, declared, env);
      SameInC(n, Emit(b, n).1, Objects(b), env);
    case Range(_, _, _, _, _) => RangeEmitted(s, n, declared, env);
  }

  lemma {:induction false} SeqEmitted(s: Stmt, n: Names, declared: set<string>, env: seq<Binding>)
    requires s.Seq? && GoResolves(s, env) && DeclaredOnce(s) && Declared(s) <= declared
    requires Sound(n, declared) && Proper(env, declared) && Fresh(Objects(s), env, n)
    ensures Emitted(s, n, declared, env)
    decreases s, 0
  {
    var m, mid := Emit(s.a, n).1, After(s.a, env);
    EmitResolves(s.a, n, declared, env);
    forall o | o in Objects(s.b) ensures Unbound(mid, o) && o !in m.renamed {
      forall k | 0 <= k < |mid| ensures mid[k].obj != o {
        if mid[k] in env { assert Unbound(env, o); }
      }
    }
    EmitResolves(s.b, m, declared, mid);
  }

  lemma {:induction false} LookupPast(env: seq<Binding>, later: seq<Binding>, name: string)
    requires Unnamed(later, name)
    ensures Lookup(env + later, name) == Lookup(env, name)
    decreases |later|
  {
    if later == [] {
      assert env + later == env;
    } else {
      var rest, last := later[..|later| - 1], later[|later| - 1];
      assert env + later == (env + rest) + [last];
      LookupLast(env + rest, last, name);
      LookupPast(env, rest, name);
    }
  }

  /** What is known of a range clause and its loop variable while its parts are read. */
  predicate InRange(s: Stmt, l: Binding, n: Names, all: set<string>, env: seq<Binding>) {
    && s.Range? && Sound(n, all) && Proper(env + [l], all) && Proper(Inside(s, l, env), all) && AllResolve(Source(s.over), env)
    && l.name in all && LoopName(s, l) == CName(l.name) && l.obj !in n.renamed && Unnamed(Head(s), l.name)
    && (forall k :: 0 <= k < |Head(s)| ==> Head(s)[k].obj !in n.renamed)
  }

  /** The counter denotes itself, whatever else the clause declares. */
  lemma IndexFound(s: Stmt, l: Binding, n: Names, all: set<string>, env: seq<Binding>, later: seq<Binding>)
    requires s.Range? && Sound(n, all) && Proper(env + ([l] + later), all) && Unnamed(later, l.name)
    requires l.name in all && LoopName(s, l) == CName(l.name) && l.obj !in n.renamed
    ensures Denotes(Index(s, l), InC(n, env + ([l] + later)))
  {
    assert env + ([l] + later) == (env + [l]) + later;
    LookupPast(env + [l], later, l.name);
    LookupLast(env, l, l.name);
    LookupInC(n, all, env + ([l] + later), l.name, l.obj);
  }

  lemma LimitEmitted(s: Stmt, l: Binding, n: Names, all: set<string>, env: seq<Binding>)
    requires InRange(s, l, n, all, env)
    ensures InC(n, env + [l]) == InC(n, env) + [Binding(LoopName(s, l), l.obj)]
    ensures AllDenote(Spelled(n, Limit(s.over)), InC(n, env) + [Binding(LoopName(s, l), l.obj)]) <==>
      NoneBlocked(n, env + [l], [l], Limit(s.over))
  {
    InCLast(n, env, l);
    if s.over.Slice? { assert Source(s.over)[0].obj == s.over.buf.obj; }
    UsesResolve(n, all, env, [l], Limit(s.over));
  }

  lemma CopyEmitted(s: Stmt, l: Binding, n: Names, all: set<string>, env: seq<Binding>)
    requires InRange(s, l, n, all, env)
    ensures CResolves(CopyKey(s, l), InC(n, env + [l]))
    ensures CAfter(CopyKey(s, l), InC(n, env + [l])) == InC(n, env + ([l] + Copied(s)))
  {
    if s.key.Some? && Generated(s) {
      var v := s.key.value;
      assert Head(s)[0] == v && Copied(s) == [v];
      assert env + ([l] + [v]) == (env + [l]) + [v];
      InCLast(n, env + [l], v);
      ProperPart(env + ([l] + [v]), One(s.value), all, Inside(s, l, env));
      IndexFound(s, l, n, all, env, [v]);
    } else {
      assert [l] + Copied(s) == [l];
    }
  }

  lemma ProperPart(env: seq<Binding>, rest: seq<Binding>, all: set<string>, whole: seq<Binding>)
    requires whole == env + rest && Proper(whole, all)
    ensures Proper(env, all)
  {
    assert forall k :: 0 <= k < |env| ==> whole[k] == env[k];
  }

  lemma ValueEmitted(s: Stmt, l: Binding, n: Names, all: set<string>, env: seq<Binding>)
    requires InRange(s, l, n, all, env)
    ensures CResolves(ReadValue(s, l, n), InC(n, env + ([l] + Copied(s)))) <==>
      (s.value.Some? ==> NoneBlocked(n, Inside(s, l, env), [l] + Head(s), Source(s.over)))
    ensures CAfter(ReadValue(s, l, n), InC(n, env + ([l] + Copied(s)))) == InC(n, Inside(s, l, env))
  {
    if s.value.Some? {
      var v := s.value.value;
      assert Head(s)[|Copied(s)|] == v;
      assert Inside(s, l, env) == (env + ([l] + Copied(s))) + [v];
      InCLast(n, env + ([l] + Copied(s)), v);
      UsesResolve(n, all, env, [l] + Head(s), Source(s.over));
      IndexFound(s, l, n, all, env, Head(s));
      DenoteLast(Spelled(n, Source(s.over)), Index(s, l), InC(n, Inside(s, l, env)));
    } else {
      assert Head(s) == Copied(s);
    }
  }

  lemma DenoteLast(uses: seq<Use>, u: Use, env: seq<Binding>)
    requires Denotes(u, env)
    ensures AllDenote(uses + [u], env) <==> AllDenote(uses, env)
  {
    assert (uses + [u])[|uses|] == u;
    assert forall k :: 0 <= k < |uses| ==> (uses + [u])[k] == uses[k];
  }

  lemma NamesInC(n: Names, m: Names, env: seq<Binding>)
    requires n.renamed == m.renamed
    ensures InC(n, env) == InC(m, env)
  {
  }

  /** The head of the loop, limit and declarations. */
  lemma HeadEmitted(s: Stmt, l: Binding, n: Names, all: set<string>, env: seq<Binding>)
    requires InRange(s, l, n, all, env)
    ensures var c := CSeq(CopyKey(s, l), ReadValue(s, l, n));
      var e := InC(n, env) + [Binding(LoopName(s, l), l.obj)];
      && (AllDenote(Spelled(n, Limit(s.over)), e) && CResolves(c, e) <==> RangeSafe(s, l, n, env))
      && CAfter(c, e) == InC(n, Inside(s, l, env))
  {
    LimitEmitted(s, l, n, all, env);
    CopyEmitted(s, l, n, all, env);
    ValueEmitted(s, l, n, all, env);
  }

  lemma ClauseInRange(s: Stmt, n: Names, declared: set<string>, env: seq<Binding>) returns (all: set<string>)
    requires s.Range? && GoResolves(s, env) && DeclaredOnce(s) && Declared(s) <= declared
    requires Sound(n, declared) && Proper(env, declared) && Fresh(Objects(s), env, n)
    ensures all == (if Generated(s) then declared + {CounterName(s, n)} else declared)
    ensures Generated(s) ==> CounterName(s, n) !in n.taken && CName(CounterName(s, n)) == CounterName(s, n)
    ensures InRange(s, LoopVar(s, n), Counting(s, n), all, env)
    ensures forall k :: 0 <= k < |Head(s)| ==> Head(s)[k].obj in Objects(s)
  {
    all := InsideProper(s, n, declared, env);
    var made := One(s.key) + One(s.value);
    forall k | 0 <= k < |made| ensures made[k].name in declared && made[k].obj in Objects(s) { assert made[k] in made; }
    forall k | 0 <= k < |Head(s)|
      ensures Head(s)[k].name in declared && Head(s)[k].obj in Objects(s) && Head(s)[k].name != LoopVar(s, n).name
    {
      assert Head(s)[k] in made;
      if s.key.Some? { assert made[0] == s.key.value; }
    }
  }

  /** Go's scope of the body with the counter in it, too. */
  lemma BodyResolves(s: Stmt, n: Names, declared: set<string>, env: seq<Binding>)
    requires s.Range? && GoResolves(s, env) && Declared(s) <= declared && Proper(env, declared)
    requires Generated(s) ==> CounterName(s, n) !in declared
    ensures GoResolves(s.body, Inside(s, LoopVar(s, n), env))
  {
    var l := LoopVar(s, n);
    var made := One(s.key) + One(s.value);
    if Generated(s) {
      forall k | 0 <= k < |made| ensures made[k].name in declared { assert made[k] in made; }
      assert Inside(s, l, env) == env + [l] + made;
      StillResolves(s.body, env, made, l);
    } else {
      assert made == [l] + One(s.value) && Inside(s, l, env) == env + made;
    }
  }

  lemma FreshInside(s: Stmt, n: Names, env: seq<Binding>)
    requires s.Range? && DeclaredOnce(s) && Fresh(Objects(s), env, n)
    requires forall k :: 0 <= k < |Head(s)| ==> Head(s)[k].obj in Objects(s)
    ensures Fresh(Objects(s.body), Inside(s, LoopVar(s, n), env), Counting(s, n))
  {
    var all := Inside(s, LoopVar(s, n), env);
    forall o, k | o in Objects(s.body) && 0 <= k < |all| ensures all[k].obj != o {
      if k < |env| { assert all[k] == env[k] && Unbound(env, o); }
      if k == |env| { assert all[k] == LoopVar(s, n); }
      if k > |env| { assert all[k] == Head(s)[k - |env| - 1]; }
    }
  }

  /** The names after a loop are those of its body without the counter. */
  lemma LoopLeaves(s: Stmt, n: Names, declared: set<string>, env: seq<Binding>, all: set<string>)
    requires s.Range? && Sound(n, declared) && Proper(env, declared) && Fresh(Objects(s), env, n)
    requires all == (if Generated(s) then declared + {CounterName(s, n)} else declared)
    requires Generated(s) ==> CounterName(s, n) !in n.taken && CName(CounterName(s, n)) == CounterName(s, n)
    requires CResolves(Emit(s, n).0, InC(n, env)) <==> Safe(s, n, env)
    requires var b := Emit(s.body, Counting(s, n)).1; Sound(b, all) && OnlyRenames(n, b, Objects(s.body))
    ensures Emitted(s, n, declared, env)
  {
    var b := Emit(s.body, Counting(s, n)).1;
    if Generated(s) { CounterDone(b, declared, CounterName(s, n)); }
    SameInC(n, Emit(s, n).1, Objects(s), env);
  }

  lemma SafeRange(s: Stmt, l: Binding, m: Names, n: Names, env: seq<Binding>)
    requires s.Range? && l == LoopVar(s, n) && m == Counting(s, n)
    ensures Safe(s, n, env) <==> RangeSafe(s, l, m, env) && Safe(s.body, m, Inside(s, l, env))
    ensures Emit(s, n).0 ==
      CFor(LoopName(s, l), l.obj, Spelled(m, Limit(s.over)), CSeq(CSeq(CopyKey(s, l), ReadValue(s, l, m)), Emit(s.body, m).0))
  {
  }

  lemma {:induction false} RangeEmitted(s: Stmt, n: Names, declared: set<string>, env: seq<Binding>)
    requires s.Range? && GoResolves(s, env) && DeclaredOnce(s) && Declared(s) <= declared
    requires Sound(n, declared) && Proper(env, declared) && Fresh(Objects(s), env, n)
    ensures Emitted(s, n, declared, env)
    decreases s, 0
  {
    var l, m := LoopVar(s, n), Counting(s, n);
    var all := ClauseInRange(s, n, declared, env);
    HeadEmitted(s, l, m, all, env);
    BodyResolves(s, n, declared, env);
    FreshInside(s, n, env);
    EmitResolves(s.body, m, all, Inside(s, l, env));
    NamesInC(n, m, env);
    var e := InC(n, env) + [Binding(LoopName(s, l), l.obj)];
    ForResolves(LoopName(s, l), l.obj, Spelled(m, Limit(s.over)), CSeq(CopyKey(s, l), ReadValue(s, l, m)), Emit(s.body, m).0, InC(n, env), e);
    SafeRange(s, l, m, n, env);
    LoopLeaves(s, n, declared, env, all);
  }

  /** Name resolution: given the refusals pass, every name emitted for a function body denotes, under
      C++'s point of declaration, what its Go name denotes, exactly if: no range clause reads a variable
      named like one it brings into scope, except the key where the body writes it and the limit is all
      that is read; no later initialiser of one var declaration reads a variable named like an earlier
      one; and no length and no name of the device is read under a variable spelled like it. */
  lemma NamesDenote(s: Stmt, params: seq<Binding>, declared: set<string>, spelled: set<string>)
    requires GoResolves(s, params) && DeclaredOnce(s) && Declared(s) <= declared <= spelled && NoCollision(declared)
    requires Proper(params, declared) && forall o :: o in Objects(s) ==> Unbound(params, o)
    ensures CResolves(Emit(s, Names(spelled, map[])).0, InC(Names(spelled, map[]), params)) <==> Safe(s, Names(spelled, map[]), params)
  {
    EmitResolves(s, Names(spelled, map[]), declared, params);
  }
}
