/** The __restrict__ promise: what a launch checks (simt/kernel.go), what every call checks
    (internal/lower/readonly.go), and what the two give over a whole run. */
module Aliasing {
  import opened Basics
  import opened ReadOnly

  predicate Overlap(a: Region, b: Region) {
    a.bytes > 0 && b.bytes > 0 && a.base < b.base + b.bytes && b.base < a.base + a.bytes
  }

  /** Some byte lies in both. */
  ghost predicate Shares(a: Region, b: Region) { exists at :: Within(a, at) && Within(b, at) }

  /** The comparison of bounds finds exactly the memory that is shared. */
  lemma OverlapIsShared(a: Region, b: Region)
    ensures Overlap(a, b) <==> Shares(a, b)
  {
    if Overlap(a, b) {
      var at := if a.base < b.base then b.base else a.base;
      assert Within(a, at) && Within(b, at);
    }
  }

  // A launch

  datatype Param = Param(slice: bool, readOnly: bool)

  datatype Span = Span(r: Region, param: nat)

  /** Parameters i and j break the promise: they share memory and one of them is written. */
  ghost predicate Clash(params: seq<Param>, args: seq<Option<Region>>, i: nat, j: nat)
    requires |params| <= |args| && i < |params| && j < |params|
  {
    && params[i].slice && params[j].slice && args[i].Some? && args[j].Some?
    && Shares(args[i].value, args[j].value) && !(params[i].readOnly && params[j].readOnly)
  }

  /** Parameter i is a slice of memory that has this byte. */
  predicate IsAt(params: seq<Param>, args: seq<Option<Region>>, i: nat, at: nat)
    requires |params| <= |args| && i < |params|
  {
    params[i].slice && args[i].Some? && Within(args[i].value, at)
  }

  /** The buffers a launch can compare. */
  predicate Compared(params: seq<Param>, args: seq<Option<Region>>, i: nat)
    requires |params| <= |args| && i < |params|
  {
    params[i].slice && args[i].Some? && args[i].value.bytes > 0
  }

  method Spans(params: seq<Param>, args: seq<Option<Region>>) returns (spans: seq<Span>)
    requires |params| <= |args|
    ensures SpansOf(params, args, spans)
  {
    spans := [];
    for i := 0 to |params|
      invariant forall k :: 0 <= k < |spans| ==>
        spans[k].param < i && Compared(params, args, spans[k].param) && spans[k].r == args[spans[k].param].value
      invariant forall k, l :: 0 <= k < l < |spans| ==> spans[k].param < spans[l].param
      invariant forall j :: 0 <= j < i && Compared(params, args, j) ==> exists k :: 0 <= k < |spans| && spans[k].param == j
    {
      ghost var was := spans;
      if Compared(params, args, i) { spans := spans + [Span(args[i].value, i)]; }
      forall j | 0 <= j <= i && Compared(params, args, j) ensures exists k :: 0 <= k < |spans| && spans[k].param == j {
        if j < i {
          var k :| 0 <= k < |was| && was[k].param == j;
          assert spans[k].param == j;
        } else {
          assert spans[|was|].param == i;
        }
      }
    }
  }

  /** The spans of a launch, in the order of its parameters. */
  predicate SpansOf(params: seq<Param>, args: seq<Option<Region>>, spans: seq<Span>)
    requires |params| <= |args|
  {
    && (forall k :: 0 <= k < |spans| ==>
         spans[k].param < |params| && Compared(params, args, spans[k].param) && spans[k].r == args[spans[k].param].value)
    && (forall k, l :: 0 <= k < l < |spans| ==> spans[k].param < spans[l].param)
    && (forall i :: 0 <= i < |params| && Compared(params, args, i) ==> exists k :: 0 <= k < |spans| && spans[k].param == i)
  }

  ghost predicate SpansClash(params: seq<Param>, args: seq<Option<Region>>, spans: seq<Span>, a: nat, b: nat)
    requires |params| <= |args| && SpansOf(params, args, spans) && a < |spans| && b < |spans|
  {
    Clash(params, args, spans[a].param, spans[b].param)
  }

  /** No clash of one of the first k spans with a later one. */
  ghost predicate NoneUpTo(params: seq<Param>, args: seq<Option<Region>>, spans: seq<Span>, k: nat)
    requires |params| <= |args| && SpansOf(params, args, spans) && k <= |spans|
  {
    forall a, b :: 0 <= a < k && a < b < |spans| ==> !SpansClash(params, args, spans, a, b)
  }

  ghost predicate NoneOf(params: seq<Param>, args: seq<Option<Region>>, spans: seq<Span>, k: nat, l: nat)
    requires |params| <= |args| && SpansOf(params, args, spans) && k < |spans| && l <= |spans|
  {
    forall b :: k < b < l ==> !SpansClash(params, args, spans, k, b)
  }

  lemma OneMoreOf(params: seq<Param>, args: seq<Option<Region>>, spans: seq<Span>, k: nat, l: nat)
    requires |params| <= |args| && SpansOf(params, args, spans) && k < l < |spans|
    requires NoneOf(params, args, spans, k, l) && !SpansClash(params, args, spans, k, l)
    ensures NoneOf(params, args, spans, k, l + 1)
  {
  }

  lemma OneMoreUpTo(params: seq<Param>, args: seq<Option<Region>>, spans: seq<Span>, k: nat)
    requires |params| <= |args| && SpansOf(params, args, spans) && k < |spans|
    requires NoneUpTo(params, args, spans, k) && NoneOf(params, args, spans, k, |spans|)
    ensures NoneUpTo(params, args, spans, k + 1)
  {
  }

  lemma Clashing(params: seq<Param>, args: seq<Option<Region>>, spans: seq<Span>, k: nat, l: nat)
    requires |params| <= |args| && SpansOf(params, args, spans) && k < l < |spans|
    ensures SpansClash(params, args, spans, k, l) <==>
      Overlap(spans[k].r, spans[l].r) && (!params[spans[k].param].readOnly || !params[spans[l].param].readOnly)
  {
    OverlapIsShared(spans[k].r, spans[l].r);
  }

  /** A pair that clashes has a byte in common. */
  lemma ClashByte(params: seq<Param>, args: seq<Option<Region>>, i: nat, j: nat)
    requires |params| <= |args| && i < |params| && j < |params| && i != j
    requires (Clash(params, args, i, j) || Clash(params, args, j, i)) && !params[i].readOnly
    ensures exists at :: IsAt(params, args, i, at) && IsAt(params, args, j, at)
    ensures !forall i, j, at ::
      0 <= i < j < |params| && IsAt(params, args, i, at) && IsAt(params, args, j, at) ==> params[i].readOnly && params[j].readOnly
  {
    var at :| Within(args[i].value, at) && Within(args[j].value, at);
    assert IsAt(params, args, i, at) && IsAt(params, args, j, at);
  }

  lemma NoClash(params: seq<Param>, args: seq<Option<Region>>, spans: seq<Span>, i: nat, j: nat)
    requires |params| <= |args| && SpansOf(params, args, spans) && i < j < |params|
    requires NoneUpTo(params, args, spans, |spans|)
    ensures !Clash(params, args, i, j)
  {
    if Compared(params, args, i) && Compared(params, args, j) {
      var a :| 0 <= a < |spans| && spans[a].param == i;
      var b :| 0 <= b < |spans| && spans[b].param == j;
      InOrder(spans, a, b);
      assert !SpansClash(params, args, spans, a, b);
    }
  }

  lemma NoByte(params: seq<Param>, args: seq<Option<Region>>, spans: seq<Span>)
    requires |params| <= |args| && SpansOf(params, args, spans) && NoneUpTo(params, args, spans, |spans|)
    ensures forall i, j, at ::
      0 <= i < j < |params| && IsAt(params, args, i, at) && IsAt(params, args, j, at) ==> params[i].readOnly && params[j].readOnly
  {
    forall i, j, at | 0 <= i < j < |params| && IsAt(params, args, i, at) && IsAt(params, args, j, at)
      ensures params[i].readOnly && params[j].readOnly
    {
      NoClash(params, args, spans, i, j);
    }
  }

  lemma InOrder(spans: seq<Span>, a: nat, b: nat)
    requires forall k, l :: 0 <= k < l < |spans| ==> spans[k].param < spans[l].param
    requires a < |spans| && b < |spans| && spans[a].param < spans[b].param
    ensures a < b
  {
  }

  /** checkAliasing: the parameter that is written and the one that overlaps it, if a pair clashes.  A
      launch with too few arguments is refused before. */
  method CheckAliasing(params: seq<Param>, args: seq<Option<Region>>) returns (clash: Option<(nat, nat)>)
    ensures |args| < |params| ==> clash.None?
    ensures |params| <= |args| ==>
      (clash.None? <==> forall i, j, at ::
        0 <= i < j < |params| && IsAt(params, args, i, at) && IsAt(params, args, j, at) ==> params[i].readOnly && params[j].readOnly)
    ensures clash.Some? ==>
      var (w, o) := clash.value;
      w < |params| && o < |params| && w != o && !params[w].readOnly && exists at :: IsAt(params, args, w, at) && IsAt(params, args, o, at)
  {
    if |args| < |params| { return None; }
    var spans := Spans(params, args);
    for k := 0 to |spans|
      invariant NoneUpTo(params, args, spans, k)
    {
      for l := k + 1 to |spans|
        invariant NoneOf(params, args, spans, k, l)
      {
        Clashing(params, args, spans, k, l);
        if Overlap(spans[k].r, spans[l].r) {
          var write, other := spans[k].param, spans[l].param;
          if params[write].readOnly { write, other := other, write; }
          if !params[write].readOnly {
            ClashByte(params, args, write, other);
            return Some((write, other));
          }
        }
        assert !SpansClash(params, args, spans, k, l);
        OneMoreOf(params, args, spans, k, l);
      }
      OneMoreUpTo(params, args, spans, k);
    }
    NoByte(params, args, spans);
    clash := None;
  }

  // A call

  /** Two arguments are one buffer and the callee writes it. */
  predicate Aliased(args: seq<string>, params: seq<string>, written: set<string>, i: nat, j: nat)
    requires |params| == |args| && i < |args| && j < |args|
  {
    args[i] == args[j] && (params[i] in written || params[j] in written)
  }

  predicate Refused(args: seq<string>, params: seq<string>, written: set<string>)
    requires |params| == |args|
  {
    exists i, j :: 0 <= i < j < |args| && Aliased(args, params, written, i, j)
  }

  method AliasedArgs(args: seq<string>, params: seq<string>, written: set<string>) returns (pair: Option<(string, string)>)
    requires |params| == |args|
    ensures pair.Some? <==> exists i, j :: 0 <= i < j < |args| && args[i] == args[j] && (params[i] in written || params[j] in written)
    ensures pair.Some? <==> Refused(args, params, written)
  {
    for i := 0 to |args|
      invariant forall a, b :: 0 <= a < i && a < b < |args| ==> !Aliased(args, params, written, a, b)
    {
      for j := i + 1 to |args|
        invariant forall b :: i < b < j ==> !Aliased(args, params, written, i, b)
      {
        if args[i] == args[j] && (params[i] in written || params[j] in written) {
          assert Aliased(args, params, written, i, j);
          return Some((params[i], params[j]));
        }
      }
    }
    forall i, j | 0 <= i < j < |args| ensures !(args[i] == args[j] && (params[i] in written || params[j] in written)) {
      assert !Aliased(args, params, written, i, j);
    }
    pair := None;
  }

  // A run

  /** s makes this call. */
  predicate Makes(s: Stmt, g: nat, args: seq<string>) {
    match s
    case Seq(a, b) => Makes(a, g, args) || Makes(b, g, args)
    case If(a, b) => Makes(a, g, args) || Makes(b, g, args)
    case While(a) => Makes(a, g, args)
    case Call(h, bufs) => h == g && bufs == args
    case _ => false
  }

  /** Every call of the program was accepted. */
  ghost predicate CallsAccepted(p: seq<Func>, memo: Memo) {
    forall f: nat, g: nat, args: seq<string> :: f < |p| && Makes(p[f].body, g, args) && g < |p| && |p[g].params| == |args| ==>
      !Refused(args, p[g].params, Assumed(p, memo, g))
  }

  /** A call frame: a function with its parameters bound to memory. */
  datatype Frame = Frame(f: nat, env: Env)

  ghost predicate Calls(p: seq<Func>, m: Machine, a: Frame, b: Frame) {
    a.f < |p| && b.f < |p| &&
    exists args :: Makes(p[a.f].body, b.f, args) && |p[b.f].params| == |args| && b.env == Bind(m, a.f, a.env, p[b.f].params, args)
  }

  /** Shared tiles lie apart from each other. */
  ghost predicate TilesApart(m: Machine) {
    forall f, x, g, y :: Shares(m.tile(f, x), m.tile(g, y)) ==> f == g && x == y
  }

  /** Memory the launch bound, which no tile is in, or a tile of a function further up. */
  ghost predicate Owned(m: Machine, f: nat, r: Region) {
    (forall g, y :: !Shares(r, m.tile(g, y))) || (exists g, y :: g > f && r == m.tile(g, y))
  }

  /** What __restrict__ says of a frame: a parameter its function may write overlaps no other. */
  ghost predicate Restrict(p: seq<Func>, memo: Memo, a: Frame)
    requires a.f < |p|
  {
    forall x, y :: x in a.env && y in a.env && x != y && Shares(a.env[x], a.env[y]) ==>
      x !in Assumed(p, memo, a.f) && y !in Assumed(p, memo, a.f)
  }

  ghost predicate FrameOk(p: seq<Func>, memo: Memo, m: Machine, a: Frame) {
    && a.f < |p| && a.env.Keys == Params(p[a.f]) && Restrict(p, memo, a)
    && forall x :: x in a.env ==> Owned(m, a.f, a.env[x])
  }

  lemma {:induction false} CallFacts(p: seq<Func>, memo: Memo, f: nat, w: set<string>, s: Stmt, g: nat, args: seq<string>)
    requires f < |p| && Makes(s, g, args) && Ordered(p, f, s) && Covers(p, memo, p[f], w, s)
    ensures g < f && g < |p| && |p[g].params| == |args|
    ensures forall k :: 0 <= k < |args| && p[g].params[k] in Assumed(p, memo, g) && args[k] in p[f].params ==> args[k] in w
  {
    match s
    case Seq(a, b) => if Makes(a, g, args) { CallFacts(p, memo, f, w, a, g, args); } else { CallFacts(p, memo, f, w, b, g, args); }
    case If(a, b) => if Makes(a, g, args) { CallFacts(p, memo, f, w, a, g, args); } else { CallFacts(p, memo, f, w, b, g, args); }
    case While(a) => CallFacts(p, memo, f, w, a, g, args);
    case Call(_, _) =>
  }

  lemma TileApart(p: seq<Func>, memo: Memo, m: Machine, a: Frame, x: string, y: string)
    requires FrameOk(p, memo, m, a) && TilesApart(m) && x in a.env
    ensures !Shares(a.env[x], m.tile(a.f, y)) && !Shares(m.tile(a.f, y), a.env[x])
  {
    assert Owned(m, a.f, a.env[x]);
  }

  /** Two names of a frame that overlap are parameters of it. */
  lemma OnlyParamsOverlap(p: seq<Func>, memo: Memo, m: Machine, a: Frame, x: string, y: string)
    requires FrameOk(p, memo, m, a) && TilesApart(m) && x != y
    requires Shares(Buffer(m, a.f, a.env, x), Buffer(m, a.f, a.env, y))
    ensures x in a.env && y in a.env
  {
    if x in a.env { TileApart(p, memo, m, a, x, y); }
    if y in a.env { TileApart(p, memo, m, a, y, x); }
  }

  lemma CallKeepsRestrict(p: seq<Func>, memo: Memo, m: Machine, a: Frame, b: Frame, args: seq<string>)
    requires AllOrdered(p) && Closed(p, memo) && CallsAccepted(p, memo) && TilesApart(m)
    requires FrameOk(p, memo, m, a) && Makes(p[a.f].body, b.f, args) && b.f < |p| && |p[b.f].params| == |args|
    requires b.env == Bind(m, a.f, a.env, p[b.f].params, args)
    ensures Restrict(p, memo, b)
  {
    var w := Assumed(p, memo, b.f);
    if a.f !in memo { CoversItself(p, memo, p[a.f], p[a.f].body); }
    CallFacts(p, memo, a.f, Assumed(p, memo, a.f), p[a.f].body, b.f, args);
    assert !Refused(args, p[b.f].params, w);
    forall x, y | x in b.env && y in b.env && x != y && Shares(b.env[x], b.env[y]) ensures x !in w && y !in w {
      CallPair(p, memo, m, a, p[b.f].params, args, b.env, w, x, y);
    }
  }

  /** A parameter the callee writes is given nothing the caller may not write. */
  predicate Forwarded(args: seq<string>, params: seq<string>, w: set<string>, own: seq<string>, written: set<string>)
    requires |params| == |args|
  {
    forall k :: 0 <= k < |args| && params[k] in w && args[k] in own ==> args[k] in written
  }

  lemma CallPair(p: seq<Func>, memo: Memo, m: Machine, a: Frame, params: seq<string>, args: seq<string>, env: Env, w: set<string>, x: string, y: string)
    requires FrameOk(p, memo, m, a) && TilesApart(m) && |params| == |args| && env == Bind(m, a.f, a.env, params, args)
    requires !Refused(args, params, w) && Forwarded(args, params, w, p[a.f].params, Assumed(p, memo, a.f))
    requires x in env && y in env && x != y && Shares(env[x], env[y])
    ensures x !in w && y !in w
  {
    BindKeys(m, a.f, a.env, params, args, x);
    BindKeys(m, a.f, a.env, params, args, y);
    var i := BindGives(m, a.f, a.env, params, args, x);
    var j := BindGives(m, a.f, a.env, params, args, y);
    if args[i] == args[j] {
      PassedTwice(args, params, w, i, j);
    } else {
      PassedApart(p, memo, m, a, params, args, w, i, j);
    }
  }

  /** One buffer for two parameters, neither of them written. */
  lemma PassedTwice(args: seq<string>, params: seq<string>, w: set<string>, i: nat, j: nat)
    requires i < |args| == |params| && j < |args| && args[i] == args[j] && params[i] != params[j]
    requires !Refused(args, params, w)
    ensures params[i] !in w && params[j] !in w
  {
    assert !Aliased(args, params, w, if i < j then i else j, if i < j then j else i);
  }

  /** Two buffers of the caller that overlap, and that it writes through neither. */
  lemma PassedApart(p: seq<Func>, memo: Memo, m: Machine, a: Frame, params: seq<string>, args: seq<string>, w: set<string>, i: nat, j: nat)
    requires FrameOk(p, memo, m, a) && TilesApart(m) && i < |args| == |params| && j < |args| && args[i] != args[j]
    requires Shares(Buffer(m, a.f, a.env, args[i]), Buffer(m, a.f, a.env, args[j]))
    requires Forwarded(args, params, w, p[a.f].params, Assumed(p, memo, a.f))
    ensures params[i] !in w && params[j] !in w
  {
    OnlyParamsOverlap(p, memo, m, a, args[i], args[j]);
  }

  lemma CallKeepsOwned(p: seq<Func>, memo: Memo, m: Machine, a: Frame, b: Frame, args: seq<string>)
    requires AllOrdered(p) && FrameOk(p, memo, m, a) && Makes(p[a.f].body, b.f, args) && b.f < |p| && |p[b.f].params| == |args|
    requires b.env == Bind(m, a.f, a.env, p[b.f].params, args) && b.f < a.f
    ensures b.env.Keys == Params(p[b.f]) && forall x :: x in b.env ==> Owned(m, b.f, b.env[x])
  {
    forall x ensures x in b.env <==> x in p[b.f].params { BindKeys(m, a.f, a.env, p[b.f].params, args, x); }
    forall x | x in b.env ensures Owned(m, b.f, b.env[x]) {
      var i := BindGives(m, a.f, a.env, p[b.f].params, args, x);
      if args[i] in a.env {
        assert Owned(m, a.f, a.env[args[i]]);
      } else {
        assert b.env[x] == m.tile(a.f, args[i]);
      }
    }
  }

  lemma CallKeepsFrame(p: seq<Func>, memo: Memo, m: Machine, a: Frame, b: Frame)
    requires AllOrdered(p) && Closed(p, memo) && CallsAccepted(p, memo) && TilesApart(m)
    requires FrameOk(p, memo, m, a) && Calls(p, m, a, b)
    ensures FrameOk(p, memo, m, b)
  {
    var args :| Makes(p[a.f].body, b.f, args) && |p[b.f].params| == |args| && b.env == Bind(m, a.f, a.env, p[b.f].params, args);
    if a.f !in memo { CoversItself(p, memo, p[a.f], p[a.f].body); }
    CallFacts(p, memo, a.f, Assumed(p, memo, a.f), p[a.f].body, b.f, args);
    CallKeepsRestrict(p, memo, m, a, b, args);
    CallKeepsOwned(p, memo, m, a, b, args);
  }

  /** What a launch binds, and what its check was told of it. */
  predicate Bound(fn: Func, written: set<string>, env: Env, params: seq<Param>, args: seq<Option<Region>>) {
    && |params| == |args| == |fn.params| && env.Keys == Params(fn)
    && (forall i, j :: 0 <= i < j < |fn.params| ==> fn.params[i] != fn.params[j])
    && forall i :: 0 <= i < |params| ==>
         args[i] == Some(env[fn.params[i]]) && params[i] == Param(true, fn.params[i] !in written)
  }

  lemma LaunchRestricts(p: seq<Func>, memo: Memo, m: Machine, k: Frame, params: seq<Param>, args: seq<Option<Region>>)
    requires k.f < |p| && Bound(p[k.f], Assumed(p, memo, k.f), k.env, params, args)
    requires forall i, j :: 0 <= i < j < |params| ==> !Clash(params, args, i, j)
    requires forall x, g, y :: x in k.env ==> !Shares(k.env[x], m.tile(g, y))
    ensures FrameOk(p, memo, m, k)
  {
    var w := Assumed(p, memo, k.f);
    forall x, y | x in k.env && y in k.env && x != y && Shares(k.env[x], k.env[y]) ensures x !in w && y !in w {
      var i :| 0 <= i < |params| && p[k.f].params[i] == x;
      var j :| 0 <= j < |params| && p[k.f].params[j] == y;
      if i < j { Unwritten(p[k.f], w, k.env, params, args, i, j); } else { Unwritten(p[k.f], w, k.env, params, args, j, i); }
    }
  }

  lemma Unwritten(f: Func, w: set<string>, env: Env, params: seq<Param>, args: seq<Option<Region>>, i: nat, j: nat)
    requires Bound(f, w, env, params, args) && i < j < |params| && !Clash(params, args, i, j)
    requires f.params[i] in env && f.params[j] in env && Shares(env[f.params[i]], env[f.params[j]])
    ensures f.params[i] !in w && f.params[j] !in w
  {
  }

  /** A chain of calls from the kernel down. */
  ghost predicate Chain(p: seq<Func>, m: Machine, frames: seq<Frame>) {
    frames != [] && forall i :: 0 < i < |frames| ==> Calls(p, m, frames[i - 1], frames[i])
  }

  lemma {:induction false} ChainKeeps(p: seq<Func>, memo: Memo, m: Machine, frames: seq<Frame>, i: nat)
    requires AllOrdered(p) && Closed(p, memo) && CallsAccepted(p, memo) && TilesApart(m)
    requires Chain(p, m, frames) && FrameOk(p, memo, m, frames[0]) && i < |frames|
    ensures FrameOk(p, memo, m, frames[i])
    decreases i
  {
    if i > 0 {
      ChainKeeps(p, memo, m, frames, i - 1);
      CallKeepsFrame(p, memo, m, frames[i - 1], frames[i]);
    }
  }

  /** If the launch and every call are accepted, then in every reachable frame no parameter the function
      may write overlaps another of its parameters. */
  lemma RestrictHolds(p: seq<Func>, memo: Memo, m: Machine, frames: seq<Frame>, params: seq<Param>, args: seq<Option<Region>>)
    requires AllOrdered(p) && Closed(p, memo) && CallsAccepted(p, memo) && TilesApart(m) && Chain(p, m, frames)
    requires frames[0].f < |p| && Bound(p[frames[0].f], Assumed(p, memo, frames[0].f), frames[0].env, params, args)
    requires forall i, j :: 0 <= i < j < |params| ==> !Clash(params, args, i, j)
    requires forall x, g, y :: x in frames[0].env ==> !Shares(frames[0].env[x], m.tile(g, y))
    ensures var last := frames[|frames| - 1]; last.f < |p| && Restrict(p, memo, last)
  {
    LaunchRestricts(p, memo, m, frames[0], params, args);
    ChainKeeps(p, memo, m, frames, |frames| - 1);
  }
}
