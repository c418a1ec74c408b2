/** Which slice parameters a function may write (internal/lower/readonly.go), what that promises about
    memory, and the __restrict__ promise built on it (simt/kernel.go). */
module ReadOnly {
  import opened Basics

  // Programs, as far as they write

  /** Buffers are named by parameters and shared tiles only: the subset has no slice expressions. */
  datatype Stmt =
    | Skip
    | Seq(a: Stmt, b: Stmt)
    | If(a: Stmt, b: Stmt)                 // on data
    | While(a: Stmt)
    | Store(buf: string)                   // buf[i] = v, buf[i].F = v, buf[i]++
    | Atomic(buf: string)                  // gpu.Atomic*(buf, i, v)
    | Pure                                 // a scalar assignment, a conversion, len, a gpu scalar helper
    | Call(f: nat, args: seq<string>)
    | Opaque(args: seq<string>)            // a call the walk cannot resolve

  /** A function: its buffer parameters in order, and a body unless it has none. */
  datatype Func = Func(params: seq<string>, body: Stmt, bodyless: bool)

  function Params(fn: Func): set<string> { set p | p in fn.params }

  // The analysis

  type Memo = map<nat, set<string>>

  datatype Found = Found(w: set<string>, memo: Memo)

  /** markBase: only a parameter of the function counts. */
  function Mark(fn: Func, w: set<string>, buf: string): set<string> { if buf in fn.params then w + {buf} else w }

  function MarkAll(fn: Func, w: set<string>, bufs: seq<string>): set<string>
    decreases |bufs|
  {
    if bufs == [] then w else MarkAll(fn, Mark(fn, w, bufs[0]), bufs[1..])
  }

  /** markForwarded: an argument is written if the parameter it becomes is. */
  function Forwarded(fn: Func, w: set<string>, params: seq<string>, args: seq<string>, written: set<string>): set<string>
    requires |params| == |args|
    decreases |params|
  {
    if params == [] then w
    else Forwarded(fn, if params[0] in written then Mark(fn, w, args[0]) else w, params[1..], args[1..], written)
  }

  predicate Below(active: set<nat>, n: nat) { forall f :: f in active ==> f < n }

  function Numbers(n: nat): (r: set<nat>)
    ensures |r| == n && forall f: nat :: f in r <==> f < n
  {
    if n == 0 then {} else Numbers(n - 1) + {n - 1}
  }

  lemma ActiveFit(active: set<nat>, n: nat)
    requires Below(active, n)
    ensures |active| <= n
  {
    assert active <= Numbers(n);
    assert Numbers(n) == active + (Numbers(n) - active);
  }

  /** writtenParams: memoised, and everything on a cycle or without a body. */
  function Analyse(p: seq<Func>, f: nat, memo: Memo, active: set<nat>): Found
    requires f < |p| && Below(active, |p|)
    decreases |p| - |active|, 1, Skip
  {
    ActiveFit(active, |p|);
    if f in memo then Found(memo[f], memo)
    else if p[f].bodyless || f in active then Found(Params(p[f]), memo)
    else
      ActiveFit(active + {f}, |p|);
      var r := Walk(p, p[f], p[f].body, Found({}, memo), active + {f});
      Found(r.w, r.memo[f := r.w])
  }

  /** The walk over a body, in any order of control. */
  function Walk(p: seq<Func>, fn: Func, s: Stmt, r: Found, active: set<nat>): Found
    requires Below(active, |p|)
    decreases |p| - |active|, 2, s
  {
    ActiveFit(active, |p|);
    match s
    case Skip => r
    case Seq(a, b) => Walk(p, fn, b, Walk(p, fn, a, r, active), active)
    case If(a, b) => Walk(p, fn, b, Walk(p, fn, a, r, active), active)
    case While(a) => Walk(p, fn, a, r, active)
    case Store(buf) => r.(w := Mark(fn, r.w, buf))
    case Atomic(buf) => r.(w := Mark(fn, r.w, buf))
    case Pure => r
    case Call(g, args) =>
      if g >= |p| || |p[g].params| != |args| then r.(w := MarkAll(fn, r.w, args))
      else
        var q := Analyse(p, g, r.memo, active);
        Found(Forwarded(fn, r.w, p[g].params, args, q.w), q.memo)
    case Opaque(args) => r.(w := MarkAll(fn, r.w, args))
  }

  class Analysis {
    const p: seq<Func>
    var written: Memo
    var analysing: set<nat>

    constructor (p: seq<Func>)
      ensures this.p == p && written == map[] && analysing == {}
    {
      this.p := p;
      written, analysing := map[], {};
    }

    method WrittenParams(f: nat) returns (w: set<string>)
      requires f < |p| && Below(analysing, |p|)
      modifies this
      ensures Found(w, written) == Analyse(p, f, old(written), old(analysing)) && analysing == old(analysing)
      decreases |p| - |analysing|, 1, Skip
    {
      ActiveFit(analysing, |p|);
      if f in written { return written[f]; }
      if p[f].bodyless || f in analysing { return Params(p[f]); }
      var saved := analysing;
      analysing := analysing + {f};
      ActiveFit(analysing, |p|);
      w := Inspect(p[f], p[f].body, {});
      analysing := saved;
      written := written[f := w];
    }

    method Inspect(fn: Func, s: Stmt, marked: set<string>) returns (w: set<string>)
      requires Below(analysing, |p|)
      modifies this
      ensures Found(w, written) == Walk(p, fn, s, Found(marked, old(written)), old(analysing)) && analysing == old(analysing)
      decreases |p| - |analysing|, 2, s
    {
      ActiveFit(analysing, |p|);
      w := marked;
      match s {
        case Skip =>
        case Seq(a, b) =>
          w := Inspect(fn, a, w);
          w := Inspect(fn, b, w);
        case If(a, b) =>
          w := Inspect(fn, a, w);
          w := Inspect(fn, b, w);
        case While(a) => w := Inspect(fn, a, w);
        case Store(buf) => w := Mark(fn, w, buf);
        case Atomic(buf) => w := Mark(fn, w, buf);
        case Pure =>
        case Call(g, args) =>
          if g >= |p| || |p[g].params| != |args| {
            w := MarkEvery(fn, w, args);
          } else {
            var callee := WrittenParams(g);
            w := MarkForwarded(fn, w, p[g].params, args, callee);
          }
        case Opaque(args) => w := MarkEvery(fn, w, args);
      }
    }
  }

  method MarkEvery(fn: Func, marked: set<string>, bufs: seq<string>) returns (w: set<string>)
    ensures w == MarkAll(fn, marked, bufs)
  {
    w := marked;
    for i := 0 to |bufs|
      invariant MarkAll(fn, marked, bufs) == MarkAll(fn, w, bufs[i..])
    {
      assert bufs[i..][1..] == bufs[i + 1..];
      w := Mark(fn, w, bufs[i]);
    }
  }

  method MarkForwarded(fn: Func, marked: set<string>, params: seq<string>, args: seq<string>, written: set<string>)
    returns (w: set<string>)
    requires |params| == |args|
    ensures w == Forwarded(fn, marked, params, args, written)
  {
    w := marked;
    for i := 0 to |params|
      invariant Forwarded(fn, marked, params, args, written) == Forwarded(fn, w, params[i..], args[i..], written)
    {
      assert params[i..][1..] == params[i + 1..] && args[i..][1..] == args[i + 1..];
      if params[i] in written { w := Mark(fn, w, args[i]); }
    }
  }

  // A memo is closed: it accounts for every write of every function in it, by way of any call.

  /** What is assumed of a function that is not in the memo is the worst. */
  function Assumed(p: seq<Func>, memo: Memo, g: nat): set<string>
    requires g < |p|
  {
    if g in memo then memo[g] else Params(p[g])
  }

  predicate Covers(p: seq<Func>, memo: Memo, fn: Func, w: set<string>, s: Stmt) {
    match s
    case Skip => true
    case Seq(a, b) => Covers(p, memo, fn, w, a) && Covers(p, memo, fn, w, b)
    case If(a, b) => Covers(p, memo, fn, w, a) && Covers(p, memo, fn, w, b)
    case While(a) => Covers(p, memo, fn, w, a)
    case Store(buf) => buf in fn.params ==> buf in w
    case Atomic(buf) => buf in fn.params ==> buf in w
    case Pure => true
    case Call(g, args) =>
      if g >= |p| || |p[g].params| != |args| then forall k :: 0 <= k < |args| && args[k] in fn.params ==> args[k] in w
      else forall k :: 0 <= k < |args| && p[g].params[k] in Assumed(p, memo, g) && args[k] in fn.params ==> args[k] in w
    case Opaque(args) => forall k :: 0 <= k < |args| && args[k] in fn.params ==> args[k] in w
  }

  predicate Closed(p: seq<Func>, memo: Memo) {
    forall f :: f in memo ==>
      f < |p| && !p[f].bodyless && memo[f] <= Params(p[f]) && Covers(p, memo, p[f], memo[f], p[f].body)
  }

  /** more has what memo has and assumes no more of the rest. */
  predicate Refines(p: seq<Func>, memo: Memo, more: Memo) {
    && (forall g :: g in memo ==> g in more && more[g] == memo[g])
    && (forall g :: g in more && g < |p| ==> more[g] <= Params(p[g]))
  }

  lemma {:induction false} CoversMore(p: seq<Func>, memo: Memo, more: Memo, fn: Func, w: set<string>, v: set<string>, s: Stmt)
    requires Covers(p, memo, fn, w, s) && Refines(p, memo, more) && w <= v
    ensures Covers(p, more, fn, v, s)
  {
    match s
    case Seq(a, b) => CoversMore(p, memo, more, fn, w, v, a); CoversMore(p, memo, more, fn, w, v, b);
    case If(a, b) => CoversMore(p, memo, more, fn, w, v, a); CoversMore(p, memo, more, fn, w, v, b);
    case While(a) => CoversMore(p, memo, more, fn, w, v, a);
    case _ =>
  }

  lemma {:induction false} MarksAll(fn: Func, w: set<string>, bufs: seq<string>)
    ensures w <= MarkAll(fn, w, bufs) && (w <= Params(fn) ==> MarkAll(fn, w, bufs) <= Params(fn))
    ensures forall k :: 0 <= k < |bufs| && bufs[k] in fn.params ==> bufs[k] in MarkAll(fn, w, bufs)
    decreases |bufs|
  {
    if bufs != [] { MarksAll(fn, Mark(fn, w, bufs[0]), bufs[1..]); }
  }

  lemma {:induction false} MarksForwarded(fn: Func, w: set<string>, params: seq<string>, args: seq<string>, written: set<string>)
    requires |params| == |args|
    ensures var r := Forwarded(fn, w, params, args, written);
      w <= r && (w <= Params(fn) ==> r <= Params(fn))
      && forall k :: 0 <= k < |args| && params[k] in written && args[k] in fn.params ==> args[k] in r
    decreases |params|
  {
    if params != [] {
      MarksForwarded(fn, if params[0] in written then Mark(fn, w, args[0]) else w, params[1..], args[1..], written);
    }
  }

  /** What the analysis adds to the memo is closed, and nothing that is still being analysed. */
  predicate Advances(p: seq<Func>, memo: Memo, more: Memo, active: set<nat>) {
    Closed(p, more) && Refines(p, memo, more) && forall g :: g in more && g !in memo ==> g !in active
  }

  lemma {:induction false} AnalyseCloses(p: seq<Func>, f: nat, memo: Memo, active: set<nat>)
    requires f < |p| && Below(active, |p|) && Closed(p, memo)
    ensures var r := Analyse(p, f, memo, active); Advances(p, memo, r.memo, active) && r.w == Assumed(p, r.memo, f)
    decreases |p| - |active|, 1, Skip
  {
    ActiveFit(active, |p|);
    if f in memo || p[f].bodyless || f in active {
    } else {
      ActiveFit(active + {f}, |p|);
      var r := Walk(p, p[f], p[f].body, Found({}, memo), active + {f});
      WalkCloses(p, p[f], p[f].body, Found({}, memo), active + {f});
      ClosedWith(p, r.memo, f, r.w);
    }
  }

  /** A finished function joins the memo. */
  lemma ClosedWith(p: seq<Func>, memo: Memo, f: nat, w: set<string>)
    requires Closed(p, memo) && f < |p| && !p[f].bodyless && f !in memo && w <= Params(p[f]) && Covers(p, memo, p[f], w, p[f].body)
    ensures Closed(p, memo[f := w]) && Refines(p, memo, memo[f := w])
  {
    var more := memo[f := w];
    forall g | g in more ensures Covers(p, more, p[g], more[g], p[g].body) {
      CoversMore(p, memo, more, p[g], more[g], more[g], p[g].body);
    }
  }

  lemma {:induction false} WalkCloses(p: seq<Func>, fn: Func, s: Stmt, r: Found, active: set<nat>)
    requires Below(active, |p|) && Closed(p, r.memo) && r.w <= Params(fn)
    ensures var q := Walk(p, fn, s, r, active);
      Advances(p, r.memo, q.memo, active) && r.w <= q.w <= Params(fn) && Covers(p, q.memo, fn, q.w, s)
    decreases |p| - |active|, 2, s, 1
  {
    ActiveFit(active, |p|);
    match s
    case Seq(_, _) => WalksClose(p, fn, s, r, active);
    case If(_, _) => WalksClose(p, fn, s, r, active);
    case While(a) => WalkCloses(p, fn, a, r, active);
    case Call(g, args) =>
      if g >= |p| || |p[g].params| != |args| {
        MarksAll(fn, r.w, args);
      } else {
        AnalyseCloses(p, g, r.memo, active);
        MarksForwarded(fn, r.w, p[g].params, args, Analyse(p, g, r.memo, active).w);
      }
    case Opaque(args) => MarksAll(fn, r.w, args);
    case _ =>
  }

  lemma {:induction false} WalksClose(p: seq<Func>, fn: Func, s: Stmt, r: Found, active: set<nat>)
    requires Below(active, |p|) && Closed(p, r.memo) && r.w <= Params(fn) && (s.Seq? || s.If?)
    ensures var q := Walk(p, fn, s, r, active);
      Advances(p, r.memo, q.memo, active) && r.w <= q.w <= Params(fn) && Covers(p, q.memo, fn, q.w, s)
    decreases |p| - |active|, 2, s, 0
  {
    var mid := Walk(p, fn, s.a, r, active);
    WalkCloses(p, fn, s.a, r, active);
    WalkCloses(p, fn, s.b, mid, active);
    var q := Walk(p, fn, s.b, mid, active);
    CoversMore(p, mid.memo, q.memo, fn, mid.w, q.w, s.a);
  }

  // Executions

  /** Memory a buffer denotes, in bytes. */
  datatype Region = Region(base: nat, bytes: nat)

  predicate Within(r: Region, at: nat) { r.base <= at < r.base + r.bytes }

  /** Every choice of an execution (conditions, subscripts, values) and where shared tiles are. */
  datatype Machine = Machine(pick: nat -> nat, tile: (nat, string) -> Region)

  datatype State = State(mem: map<nat, int>, t: nat)

  type Env = map<string, Region>

  /** A name is a parameter or a shared tile of its function. */
  function Buffer(m: Machine, f: nat, env: Env, x: string): Region { if x in env then env[x] else m.tile(f, x) }

  function Bind(m: Machine, f: nat, env: Env, params: seq<string>, args: seq<string>): Env
    requires |params| == |args|
    decreases |params|
  {
    if params == [] then map[] else Bind(m, f, env, params[1..], args[1..])[params[0] := Buffer(m, f, env, args[0])]
  }

  /** A write somewhere in a region. */
  function WriteTo(m: Machine, r: Region, s: State): State {
    if r.bytes == 0 then s.(t := s.t + 1)
    else State(s.mem[r.base + m.pick(s.t) % r.bytes := m.pick(s.t + 1)], s.t + 2)
  }

  /** Code that cannot be seen: any number of writes through what it was handed. */
  function Unseen(m: Machine, n: nat, f: nat, env: Env, bufs: seq<string>, s: State): State {
    if n == 0 || bufs == [] || m.pick(s.t) == 0 then s.(t := s.t + 1)
    else Unseen(m, n - 1, f, env, bufs, WriteTo(m, Buffer(m, f, env, bufs[m.pick(s.t + 1) % |bufs|]), s.(t := s.t + 2)))
  }

  /** An execution within n calls and rounds, None if it needs more. */
  function Run(p: seq<Func>, m: Machine, n: nat, f: nat, s: Stmt, env: Env, st: State): Option<State>
    decreases n, s
  {
    match s
    case Skip => Some(st)
    case Seq(a, b) =>
      var r := Run(p, m, n, f, a, env, st);
      if r.None? then None else Run(p, m, n, f, b, env, r.value)
    case If(a, b) => Run(p, m, n, f, if m.pick(st.t) != 0 then a else b, env, st.(t := st.t + 1))
    case While(a) =>
      if n == 0 then None
      else if m.pick(st.t) == 0 then Some(st.(t := st.t + 1))
      else
        var r := Run(p, m, n - 1, f, a, env, st.(t := st.t + 1));
        if r.None? then None else Run(p, m, n - 1, f, s, env, r.value)
    case Store(buf) => Some(WriteTo(m, Buffer(m, f, env, buf), st))
    case Atomic(buf) => Some(WriteTo(m, Buffer(m, f, env, buf), st))
    case Pure => Some(st.(t := st.t + 1))
    case Call(g, args) =>
      if g >= |p| || |p[g].params| != |args| then Some(Unseen(m, n, f, env, args, st))
      else if n == 0 then None
      else
        var inner := Bind(m, f, env, p[g].params, args);
        if p[g].bodyless then Some(Unseen(m, n, g, inner, p[g].params, st))
        else Run(p, m, n - 1, g, p[g].body, inner, st)
    case Opaque(args) => Some(Unseen(m, n, f, env, args, st))
  }

  predicate SameAt(a: State, b: State, at: nat) {
    (at in a.mem <==> at in b.mem) && (at in a.mem ==> a.mem[at] == b.mem[at])
  }

  /** The address is in no shared tile and in no parameter of w. */
  ghost predicate Outside(m: Machine, env: Env, w: set<string>, at: nat) {
    && (forall f, x :: !Within(m.tile(f, x), at))
    && (forall x :: x in w && x in env ==> !Within(env[x], at))
  }

  lemma {:induction false} BindGives(m: Machine, f: nat, env: Env, params: seq<string>, args: seq<string>, y: string) returns (k: nat)
    requires |params| == |args| && y in params
    ensures k < |params| && params[k] == y && y in Bind(m, f, env, params, args)
    ensures Bind(m, f, env, params, args)[y] == Buffer(m, f, env, args[k])
    decreases |params|
  {
    if params[0] == y {
      k := 0;
    } else {
      var i := BindGives(m, f, env, params[1..], args[1..], y);
      k := i + 1;
    }
  }

  lemma {:induction false} BindKeys(m: Machine, f: nat, env: Env, params: seq<string>, args: seq<string>, y: string)
    requires |params| == |args|
    ensures y in Bind(m, f, env, params, args) <==> y in params
    decreases |params|
  {
    if params != [] { BindKeys(m, f, env, params[1..], args[1..], y); }
  }

  lemma WriteMisses(m: Machine, r: Region, s: State, at: nat)
    requires !Within(r, at)
    ensures SameAt(s, WriteTo(m, r, s), at)
  {
  }

  lemma {:induction false} UnseenMisses(m: Machine, n: nat, f: nat, env: Env, bufs: seq<string>, s: State, at: nat)
    requires forall k :: 0 <= k < |bufs| ==> !Within(Buffer(m, f, env, bufs[k]), at)
    ensures SameAt(s, Unseen(m, n, f, env, bufs, s), at)
  {
    if n == 0 || bufs == [] || m.pick(s.t) == 0 {
    } else {
      var r := Buffer(m, f, env, bufs[m.pick(s.t + 1) % |bufs|]);
      WriteMisses(m, r, s.(t := s.t + 2), at);
      UnseenMisses(m, n - 1, f, env, bufs, WriteTo(m, r, s.(t := s.t + 2)), at);
    }
  }

  predicate Covered(p: seq<Func>, memo: Memo, f: nat, w: set<string>, s: Stmt, env: Env) {
    f < |p| && Closed(p, memo) && w <= Params(p[f]) && env.Keys == Params(p[f]) && Covers(p, memo, p[f], w, s)
  }

  lemma BufferMisses(p: seq<Func>, m: Machine, f: nat, env: Env, w: set<string>, x: string, at: nat)
    requires f < |p| && env.Keys == Params(p[f]) && Outside(m, env, w, at) && (x in p[f].params ==> x in w)
    ensures !Within(Buffer(m, f, env, x), at)
  {
  }

  /** A callee's own parameters are outside too. */
  lemma ArgsMiss(p: seq<Func>, memo: Memo, m: Machine, f: nat, w: set<string>, g: nat, args: seq<string>, env: Env, at: nat)
    requires Covered(p, memo, f, w, Call(g, args), env) && g < |p| && |p[g].params| == |args| && Outside(m, env, w, at)
    ensures Outside(m, Bind(m, f, env, p[g].params, args), Assumed(p, memo, g), at)
    ensures Bind(m, f, env, p[g].params, args).Keys == Params(p[g])
  {
    var inner := Bind(m, f, env, p[g].params, args);
    forall y ensures y in inner <==> y in p[g].params { BindKeys(m, f, env, p[g].params, args, y); }
    forall y | y in Assumed(p, memo, g) && y in inner ensures !Within(inner[y], at) {
      var k := BindGives(m, f, env, p[g].params, args, y);
      BufferMisses(p, m, f, env, w, args[k], at);
    }
  }

  lemma {:induction false} CoversItself(p: seq<Func>, memo: Memo, fn: Func, s: Stmt)
    ensures Covers(p, memo, fn, Params(fn), s)
  {
    match s
    case Seq(a, b) => CoversItself(p, memo, fn, a); CoversItself(p, memo, fn, b);
    case If(a, b) => CoversItself(p, memo, fn, a); CoversItself(p, memo, fn, b);
    case While(a) => CoversItself(p, memo, fn, a);
    case _ =>
  }

  /** Read-only soundness: an execution changes nothing outside the parameters the analysis says are
      written and the shared tiles, through any depth of calls and any cycle. */
  lemma {:induction false} WritesOnly(p: seq<Func>, memo: Memo, m: Machine, n: nat, f: nat, w: set<string>, s: Stmt, env: Env, st: State, at: nat)
    requires Covered(p, memo, f, w, s, env) && Outside(m, env, w, at)
    ensures var r := Run(p, m, n, f, s, env, st); r.Some? ==> SameAt(st, r.value, at)
    decreases n, s, 1
  {
    match s
    case Skip =>
    case Seq(a, b) =>
      WritesOnly(p, memo, m, n, f, w, a, env, st, at);
      var r := Run(p, m, n, f, a, env, st);
      if r.Some? { WritesOnly(p, memo, m, n, f, w, b, env, r.value, at); }
    case If(a, b) => WritesOnly(p, memo, m, n, f, w, if m.pick(st.t) != 0 then a else b, env, st.(t := st.t + 1), at);
    case While(a) =>
      if n > 0 && m.pick(st.t) != 0 {
        var r := Run(p, m, n - 1, f, a, env, st.(t := st.t + 1));
        WritesOnly(p, memo, m, n - 1, f, w, a, env, st.(t := st.t + 1), at);
        if r.Some? { WritesOnly(p, memo, m, n - 1, f, w, s, env, r.value, at); }
      }
    case Store(buf) =>
      BufferMisses(p, m, f, env, w, buf, at);
      WriteMisses(m, Buffer(m, f, env, buf), st, at);
    case Atomic(buf) =>
      BufferMisses(p, m, f, env, w, buf, at);
      WriteMisses(m, Buffer(m, f, env, buf), st, at);
    case Pure =>
    case Call(_, _) => CallWritesOnly(p, memo, m, n, f, w, s, env, st, at);
    case Opaque(args) => ArgumentsMiss(p, memo, m, n, f, w, args, env, st, at);
  }

  lemma {:induction false} CallWritesOnly(p: seq<Func>, memo: Memo, m: Machine, n: nat, f: nat, w: set<string>, s: Stmt, env: Env, st: State, at: nat)
    requires s.Call? && Covered(p, memo, f, w, s, env) && Outside(m, env, w, at)
    ensures var r := Run(p, m, n, f, s, env, st); r.Some? ==> SameAt(st, r.value, at)
    decreases n, s, 0
  {
    var g := s.f;
    if g >= |p| || |p[g].params| != |s.args| {
      ArgumentsMiss(p, memo, m, n, f, w, s.args, env, st, at);
    } else if n > 0 {
      var inner := Bind(m, f, env, p[g].params, s.args);
      ArgsMiss(p, memo, m, f, w, g, s.args, env, at);
      if p[g].bodyless {
        ArgumentsMiss(p, memo, m, n, g, Params(p[g]), p[g].params, inner, st, at);
      } else {
        if g !in memo { CoversItself(p, memo, p[g], p[g].body); }
        WritesOnly(p, memo, m, n - 1, g, Assumed(p, memo, g), p[g].body, inner, st, at);
      }
    }
  }

  lemma ArgumentsMiss(p: seq<Func>, memo: Memo, m: Machine, n: nat, f: nat, w: set<string>, args: seq<string>, env: Env, st: State, at: nat)
    requires f < |p| && env.Keys == Params(p[f]) && Outside(m, env, w, at)
    requires forall k :: 0 <= k < |args| && args[k] in p[f].params ==> args[k] in w
    ensures SameAt(st, Unseen(m, n, f, env, args, st), at)
  {
    forall k | 0 <= k < |args| ensures !Within(Buffer(m, f, env, args[k]), at) { BufferMisses(p, m, f, env, w, args[k], at); }
    UnseenMisses(m, n, f, env, args, st, at);
  }

  /** The promise of const: whatever a function runs into, memory that only its unwritten parameters
      reach keeps its contents. */
  lemma UnwrittenIsReadOnly(p: seq<Func>, m: Machine, n: nat, f: nat, env: Env, st: State, at: nat)
    requires f < |p| && !p[f].bodyless && env.Keys == Params(p[f])
    requires Outside(m, env, Analyse(p, f, map[], {}).w, at)
    ensures var r := Run(p, m, n, f, p[f].body, env, st); r.Some? ==> SameAt(st, r.value, at)
  {
    AnalyseCloses(p, f, map[], {});
    var r := Analyse(p, f, map[], {});
    WritesOnly(p, r.memo, m, n, f, r.w, p[f].body, env, st, at);
  }

  // Without cycles the analysis reports nothing that is not so.

  /** Calls go to functions listed before, and resolve. */
  predicate Ordered(p: seq<Func>, f: nat, s: Stmt) {
    match s
    case Seq(a, b) => Ordered(p, f, a) && Ordered(p, f, b)
    case If(a, b) => Ordered(p, f, a) && Ordered(p, f, b)
    case While(a) => Ordered(p, f, a)
    case Call(g, args) => g < f && g < |p| && |p[g].params| == |args|
    case Opaque(_) => false
    case _ => true
  }

  predicate AllOrdered(p: seq<Func>) { forall f :: 0 <= f < |p| ==> !p[f].bodyless && Ordered(p, f, p[f].body) }

  /** Some path through s, and through the functions it calls, stores through x. */
  predicate MayWrite(p: seq<Func>, f: nat, s: Stmt, x: string)
    requires f < |p| && AllOrdered(p) && Ordered(p, f, s)
    decreases f, s
  {
    match s
    case Seq(a, b) => MayWrite(p, f, a, x) || MayWrite(p, f, b, x)
    case If(a, b) => MayWrite(p, f, a, x) || MayWrite(p, f, b, x)
    case While(a) => MayWrite(p, f, a, x)
    case Store(buf) => buf == x
    case Atomic(buf) => buf == x
    case Call(g, args) => exists k :: 0 <= k < |args| && args[k] == x && MayWrite(p, g, p[g].body, p[g].params[k])
    case _ => false
  }

  ghost predicate Exact(p: seq<Func>, f: nat, w: set<string>)
    requires f < |p| && AllOrdered(p)
  {
    forall x :: x in p[f].params || x in w ==> (x in w <==> x in p[f].params && MayWrite(p, f, p[f].body, x))
  }

  ghost predicate ExactMemo(p: seq<Func>, memo: Memo)
    requires AllOrdered(p)
  {
    forall g :: g in memo ==> g < |p| && Exact(p, g, memo[g])
  }

  lemma {:induction false} ForwardsExactly(fn: Func, w: set<string>, params: seq<string>, args: seq<string>, written: set<string>, x: string)
    requires |params| == |args|
    ensures x in Forwarded(fn, w, params, args, written) <==>
      x in w || (x in fn.params && exists k :: 0 <= k < |args| && args[k] == x && params[k] in written)
    decreases |params|
  {
    if params != [] {
      var v := if params[0] in written then Mark(fn, w, args[0]) else w;
      ForwardsExactly(fn, v, params[1..], args[1..], written, x);
      forall k | 0 <= k < |args| - 1 ensures params[1..][k] == params[k + 1] && args[1..][k] == args[k + 1] {}
      if k :| 0 <= k < |args| && args[k] == x && params[k] in written {
        if k > 0 { assert args[1..][k - 1] == x; }
      }
    }
  }

  lemma {:induction false} WalkIsExact(p: seq<Func>, f: nat, s: Stmt, r: Found, active: set<nat>, x: string)
    requires f < |p| && AllOrdered(p) && Ordered(p, f, s) && Below(active, |p|) && (forall g :: g in active ==> g >= f)
    requires ExactMemo(p, r.memo)
    ensures var q := Walk(p, p[f], s, r, active);
      ExactMemo(p, q.memo) && (x in q.w <==> x in r.w || (x in p[f].params && MayWrite(p, f, s, x)))
    decreases f, 1, s
  {
    match s
    case Seq(a, b) =>
      WalkIsExact(p, f, a, r, active, x);
      WalkIsExact(p, f, b, Walk(p, p[f], a, r, active), active, x);
    case If(a, b) =>
      WalkIsExact(p, f, a, r, active, x);
      WalkIsExact(p, f, b, Walk(p, p[f], a, r, active), active, x);
    case While(a) => WalkIsExact(p, f, a, r, active, x);
    case Call(g, args) =>
      var q := Analyse(p, g, r.memo, active);
      AnalyseIsExact(p, g, r.memo, active);
      ForwardsExactly(p[f], r.w, p[g].params, args, q.w, x);
      assert forall k :: 0 <= k < |args| ==> p[g].params[k] in p[g].params;
    case _ =>
  }

  /** With no cycle in the call graph, exactly the parameters some path stores through are reported. */
  lemma {:induction false} AnalyseIsExact(p: seq<Func>, f: nat, memo: Memo, active: set<nat>)
    requires f < |p| && AllOrdered(p) && Below(active, |p|) && (forall g :: g in active ==> g > f)
    requires ExactMemo(p, memo)
    ensures var r := Analyse(p, f, memo, active); ExactMemo(p, r.memo) && Exact(p, f, r.w)
    decreases f, 2, Skip
  {
    if f !in memo {
      var start := Found({}, memo);
      var r := Walk(p, p[f], p[f].body, start, active + {f});
      WalkIsExact(p, f, p[f].body, start, active + {f}, "");
      forall x | x in p[f].params || x in r.w ensures x in r.w <==> x in p[f].params && MayWrite(p, f, p[f].body, x) {
        WalkIsExact(p, f, p[f].body, start, active + {f}, x);
      }
    }
  }
}
