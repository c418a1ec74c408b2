/** The generated kernel running: any number of blocks, their threads interleaved in any order. */
module TileRun {
  import opened Basics
  import opened TileGraph
  import opened TileKernel
  import opened TwosComplement

  const TILE: nat := BLOCK_SIZE + MAX_TAPS

  /** A launch: the graph, its kernel, the buffers behind the parameters, and the shape. */
  datatype Launch = Launch(o: Ops, nodes: seq<Node>, root: nat, k: Kernel, data: seq<seq<int>>, grid: nat, dim: nat)

  /** Where a thread is: staging slot i of window j, at the barrier of window j, having added i terms of
      it, about to store, finished. */
  datatype Pc = Stage(j: nat, i: nat) | Wait(j: nat) | Term(j: nat, i: nat, acc: int) | Store | Done

  datatype Thread = Thread(pc: Pc, locals: map<nat, int>)

  /** One block and its shared tiles, one for each window; None is a slot not written yet. */
  datatype Block = Block(threads: seq<Thread>, tiles: seq<seq<Option<int>>>)

  /** fault: an access out of bounds, a read of a slot or a store of a result that was never written or
      was written before. */
  datatype World = World(blocks: seq<Block>, out: seq<Option<int>>, fault: bool)

  function Len(l: Launch): nat
    requires l.root < |l.nodes|
  {
    l.nodes[l.root].n
  }

  /** The value of an expression at an index, or None for an access out of bounds. */
  function Eval(o: Ops, data: seq<seq<int>>, c: Code, at: int, locals: map<nat, int>): Option<int> {
    match c
    case Param(p) => if p < |data| && 0 <= at < |data[p]| then Some(data[p][at]) else None
    case Local(id) => if id in locals then Some(locals[id]) else None
    case Scaled(k, a) =>
      var x := Eval(o, data, a, at, locals);
      if x.None? then None else Some(o.mul(k, x.value))
    case Sum(a, b) =>
      var x, y := Eval(o, data, a, at, locals), Eval(o, data, b, at, locals);
      if x.None? || y.None? then None else Some(o.add(x.value, y.value))
    case Product(a, b) =>
      var x, y := Eval(o, data, a, at, locals), Eval(o, data, b, at, locals);
      if x.None? || y.None? then None else Some(o.mul(x.value, y.value))
    case Applied(fn, a) =>
      var x := Eval(o, data, a, at, locals);
      if x.None? then None else Some(o.unary(fn, x.value))
    case Magnitude(a, b) =>
      var x, y := Eval(o, data, a, at, locals), Eval(o, data, b, at, locals);
      if x.None? || y.None? then None else Some(o.hypot(x.value, y.value))
    case ZeroLit => Some(o.zero)
  }

  // Steps

  /** The index of the first thread of a block: b * dim, added up so that no proof has to multiply. */
  function Base(b: nat, dim: nat): nat { if b == 0 then 0 else Base(b - 1, dim) + dim }

  lemma {:induction false} BaseIs(b: nat, dim: nat)
    ensures Base(b, dim) == b * dim
  {
    if b > 0 {
      BaseIs(b - 1, dim);
      Distribute(b, 1, dim);
    }
  }

  function Count(l: Launch, j: nat): nat {
    if j < |l.k.windows| && l.k.windows[j].taps < |l.data| then |l.data[l.k.windows[j].taps]| else 0
  }

  /** Where a thread goes after window j - 1. */
  function Enter(l: Launch, j: nat, t: nat): Pc { if j < |l.k.windows| then Stage(j, t) else Store }

  /** Sources before the start and past the end of the signal stage a zero. */
  function Staged(l: Launch, j: nat, base: nat, i: nat, locals: map<nat, int>): Option<int>
    requires l.root < |l.nodes| && j < |l.k.windows|
  {
    var src := base + i - (Count(l, j) - 1);
    if 0 <= src < Len(l) then Eval(l.o, l.data, l.k.windows[j].signal, src, locals) else Some(l.o.zero)
  }

  /** How far a thread has come: window by window, staging, the barrier, the terms. */
  function Rank(l: Launch, pc: Pc): nat {
    match pc
    case Stage(j, _) => 3 * j
    case Wait(j) => 3 * j + 1
    case Term(j, _, _) => 3 * j + 2
    case Store => 3 * |l.k.windows|
    case Done => 3 * |l.k.windows| + 1
  }

  predicate InProgram(l: Launch, pc: Pc) {
    match pc
    case Stage(j, _) => j < |l.k.windows|
    case Wait(j) => j < |l.k.windows|
    case Term(j, _, _) => j < |l.k.windows|
    case _ => true
  }

  predicate ShapedBlock(l: Launch, s: Block) {
    && |s.threads| == l.dim && |s.tiles| == |l.k.windows|
    && (forall j :: 0 <= j < |s.tiles| ==> |s.tiles[j]| == TILE)
    && forall t :: 0 <= t < l.dim ==> InProgram(l, s.threads[t].pc)
  }

  predicate Shaped(l: Launch, w: World) {
    l.root < |l.nodes| && |w.blocks| == l.grid && forall b :: 0 <= b < l.grid ==> ShapedBlock(l, w.blocks[b])
  }

  /** A thread passes a barrier once every thread of its block has come to it. */
  predicate Passes(l: Launch, s: Block, t: nat)
    requires ShapedBlock(l, s) && t < l.dim
  {
    var pc := s.threads[t].pc;
    if pc.Wait? then forall u :: 0 <= u < l.dim ==> Rank(l, s.threads[u].pc) >= 3 * pc.j + 1 else !pc.Done?
  }

  predicate CanStep(l: Launch, w: World, b: nat, t: nat) {
    Shaped(l, w) && b < l.grid && t < l.dim && Passes(l, w.blocks[b], t)
  }

  /** v += h[i] * x */
  function Added(l: Launch, me: Thread, x: int): Thread
    requires me.pc.Term? && me.pc.i < Count(l, me.pc.j)
  {
    me.(pc := Term(me.pc.j, me.pc.i + 1, l.o.add(me.pc.acc, l.o.mul(l.data[l.k.windows[me.pc.j].taps][me.pc.i], x))))
  }

  /** What a step does to its block, and whether it is a fault. */
  function StepBlock(l: Launch, s: Block, base: nat, t: nat): (Block, bool)
    requires l.root < |l.nodes| && ShapedBlock(l, s) && t < l.dim
  {
    var me := s.threads[t];
    match me.pc
    case Stage(j, i) =>
      if i >= l.dim + Count(l, j) - 1 then (s.(threads := s.threads[t := me.(pc := Wait(j))]), false)
      else
        var v := Staged(l, j, base, i, me.locals);
        var on := s.threads[t := me.(pc := Stage(j, i + l.dim))];
        if i < TILE && v.Some? && s.tiles[j][i].None? then
          (Block(on, s.tiles[j := s.tiles[j][i := v]]), false)
        else (s.(threads := on), true)
    case Wait(j) => (s.(threads := s.threads[t := me.(pc := Term(j, 0, l.o.zero))]), false)
    case Term(j, i, acc) =>
      if i >= Count(l, j) then
        (s.(threads := s.threads[t := Thread(Enter(l, j + 1, t), me.locals[l.k.windows[j].id := acc])]), false)
      else
        var at := t + Count(l, j) - 1 - i;
        var v := if at < TILE then s.tiles[j][at] else None;
        if v.Some? then (s.(threads := s.threads[t := Added(l, me, v.value)]), false)
        else (s.(threads := s.threads[t := me.(pc := Term(j, i + 1, acc))]), true)
    case Store => (s.(threads := s.threads[t := me.(pc := Done)]), false)
    case Done => (s, false)
  }

  /** What a store writes, None for a thread past the end. */
  function Stored(l: Launch, s: Block, base: nat, t: nat): Option<Option<int>>
    requires l.root < |l.nodes| && ShapedBlock(l, s) && t < l.dim
  {
    if s.threads[t].pc.Store? && base + t < Len(l)
    then Some(Eval(l.o, l.data, l.k.result, base + t, s.threads[t].locals))
    else None
  }

  /** What a thread does next, the barrier apart. */
  function Act(l: Launch, w: World, b: nat, t: nat): World
    requires Shaped(l, w) && b < l.grid && t < l.dim
  {
    var s := w.blocks[b];
    var r := StepBlock(l, s, Base(b, l.dim), t);
    var v := Stored(l, s, Base(b, l.dim), t);
    var i := Base(b, l.dim) + t;
    var good := v.None? || (i < |w.out| && v.value.Some? && w.out[i].None?);
    World(w.blocks[b := r.0], if v.Some? && good then w.out[i := v.value] else w.out, w.fault || r.1 || !good)
  }

  function Step(l: Launch, w: World, b: nat, t: nat): World
    requires CanStep(l, w, b, t)
  {
    Act(l, w, b, t)
  }

  // The launch of run

  /** One block of at most BLOCK_SIZE threads for every tile of the output. */
  predicate Launched(l: Launch) {
    && Built(l.nodes) && l.root < |l.nodes| && l.k == Generate(l.nodes, l.root)
    && |l.data| == |l.k.params|
    && (forall p :: 0 <= p < |l.data| ==> l.k.params[p] < |l.nodes| && l.data[p] == l.nodes[l.k.params[p]].host)
    && 0 < l.dim <= BLOCK_SIZE && Base(l.grid, l.dim) >= Len(l)
  }

  /** Every thread before its first window, no slot and no result written. */
  predicate AtStart(l: Launch, w: World) {
    && Launched(l) && Shaped(l, w) && !w.fault && |w.out| == Len(l)
    && (forall i :: 0 <= i < Len(l) ==> w.out[i].None?)
    && forall b :: 0 <= b < l.grid ==> BlockAtStart(l, w.blocks[b])
  }

  predicate BlockAtStart(l: Launch, s: Block) {
    && ShapedBlock(l, s)
    && (forall t :: 0 <= t < l.dim ==> s.threads[t].pc == Enter(l, 0, t))
    && forall j, i :: 0 <= j < |s.tiles| && 0 <= i < TILE ==> s.tiles[j][i].None?
  }

  // What the generated code computes

  lemma {:induction false} InputsHave(nodes: seq<Node>, order: seq<nat>, x: nat)
    requires Known(nodes, order)
    ensures x in Inputs(nodes, order) <==> x in order && nodes[x].kind.Input?
    decreases |order|
  {
    if order != [] { InputsHave(nodes, order[1..], x); }
  }

  /** The locals hold, at index at, the windowed operations an expression may ask for. */
  predicate LocalsHold(l: Launch, order: seq<nat>, local: set<nat>, at: int, locals: map<nat, int>)
    requires Built(l.nodes)
  {
    && (forall x :: x in local ==> NodeOk(l.nodes, x) && l.nodes[x].kind.Fir?)
    && (forall x :: x in order && x < |l.nodes| && l.nodes[x].kind.Fir? ==>
          x in local && x in locals && NodeOk(l.nodes, x) && locals[x] == Taps(l.o, l.nodes, x, at, l.nodes[l.nodes[x].args[1]].n))
  }

  lemma ArgContains(nodes: seq<Node>, id: nat, k: nat)
    requires NodeOk(nodes, id) && k < |nodes[id].args| && ContainsFir(nodes, nodes[id].args[k])
    ensures ContainsFir(nodes, id)
  {
  }

  /** An operation on expressions that have the values of their nodes. */
  lemma OperationValue(o: Ops, data: seq<seq<int>>, nodes: seq<Node>, params: seq<nat>, local: set<nat>, id: nat, at: nat, locals: map<nat, int>)
    requires Built(nodes) && NodeOk(nodes, id) && !nodes[id].kind.Input? && !nodes[id].kind.Fir? && id !in local && at < nodes[id].n
    requires forall k {:trigger nodes[id].args[k]} :: 0 <= k < |nodes[id].args| ==>
      Eval(o, data, Expr(nodes, params, local, nodes[id].args[k]), at, locals) == Some(Value(o, nodes, nodes[id].args[k], at))
    ensures Eval(o, data, Expr(nodes, params, local, id), at, locals) == Some(Value(o, nodes, id, at))
  {
    var a := nodes[id].args[0];
    if |nodes[id].args| == 2 { var b := nodes[id].args[1]; }
  }

  lemma InputValue(l: Launch, local: set<nat>, id: nat, at: nat, locals: map<nat, int>)
    requires Launched(l) && id in Order(l.nodes, l.root) && at < l.nodes[id].n && l.nodes[id].kind.Input? && id !in local
    ensures Eval(l.o, l.data, Expr(l.nodes, l.k.params, local, id), at, locals) == Some(Value(l.o, l.nodes, id, at))
  {
    assert NodeOk(l.nodes, id);
    InputsHave(l.nodes, Order(l.nodes, l.root), id);
  }

  /** Where the fused expression is evaluated, it is in bounds and has the value of its node. */
  lemma {:induction false} ExprValue(l: Launch, local: set<nat>, id: nat, at: nat, locals: map<nat, int>)
    requires Launched(l) && id in Order(l.nodes, l.root) && at < l.nodes[id].n
    requires forall x :: x in local ==> x < |l.nodes| && l.nodes[x].kind.Fir?
    requires ContainsFir(l.nodes, id) ==> LocalsHold(l, Order(l.nodes, l.root), local, at, locals)
    ensures Eval(l.o, l.data, Expr(l.nodes, l.k.params, local, id), at, locals) == Some(Value(l.o, l.nodes, id, at))
    decreases id
  {
    assert NodeOk(l.nodes, id);
    var d := l.nodes[id];
    if d.kind.Input? {
      InputValue(l, local, id, at, locals);
    } else if !d.kind.Fir? {
      forall k | 0 <= k < |d.args|
        ensures Eval(l.o, l.data, Expr(l.nodes, l.k.params, local, d.args[k]), at, locals) == Some(Value(l.o, l.nodes, d.args[k], at))
      {
        if ContainsFir(l.nodes, d.args[k]) { ArgContains(l.nodes, id, k); }
        ExprValue(l, local, d.args[k], at, locals);
      }
      OperationValue(l.o, l.data, l.nodes, l.k.params, local, id, at, locals);
    }
  }

  // The windows of a kernel

  lemma {:induction false} WindowIs(nodes: seq<Node>, params: seq<nat>, local: set<nat>, order: seq<nat>, j: nat) returns (loc: set<nat>)
    requires Built(nodes) && Known(nodes, order) && j < |Windows(nodes, params, local, order)|
    requires forall x :: x in local ==> x < |nodes| && nodes[x].kind.Fir?
    ensures var w := Windows(nodes, params, local, order)[j];
      w.id in order && NodeOk(nodes, w.id) && nodes[w.id].kind.Fir? && w == WindowOf(nodes, params, loc, w.id)
    ensures forall x :: x in loc ==> x < |nodes| && nodes[x].kind.Fir?
    decreases |order|
  {
    var id := order[0];
    assert NodeOk(nodes, id);
    if !nodes[id].kind.Fir? {
      loc := WindowIs(nodes, params, local, order[1..], j);
    } else if j == 0 {
      loc := local;
    } else {
      loc := WindowIs(nodes, params, local + {id}, order[1..], j - 1);
    }
  }

  lemma {:induction false} WindowFor(nodes: seq<Node>, params: seq<nat>, local: set<nat>, order: seq<nat>, x: nat) returns (j: nat)
    requires Built(nodes) && Known(nodes, order) && x in order && nodes[x].kind.Fir?
    ensures j < |Windows(nodes, params, local, order)| && Windows(nodes, params, local, order)[j].id == x
    decreases |order|
  {
    var id := order[0];
    assert NodeOk(nodes, id);
    if id == x {
      j := 0;
    } else if nodes[id].kind.Fir? {
      var i := WindowFor(nodes, params, local + {id}, order[1..], x);
      j := i + 1;
    } else {
      j := WindowFor(nodes, params, local, order[1..], x);
    }
  }

  lemma {:induction false} WindowsDiffer(nodes: seq<Node>, params: seq<nat>, local: set<nat>, order: seq<nat>, i: nat, j: nat)
    requires Built(nodes) && Known(nodes, order) && Distinct(order) && i < j < |Windows(nodes, params, local, order)|
    requires forall x :: x in local ==> x < |nodes| && nodes[x].kind.Fir?
    ensures Windows(nodes, params, local, order)[i].id != Windows(nodes, params, local, order)[j].id
    decreases |order|
  {
    var id := order[0];
    assert NodeOk(nodes, id);
    if !nodes[id].kind.Fir? {
      WindowsDiffer(nodes, params, local, order[1..], i, j);
    } else if i > 0 {
      WindowsDiffer(nodes, params, local + {id}, order[1..], i - 1, j - 1);
    } else {
      var loc := WindowIs(nodes, params, local + {id}, order[1..], j - 1);
    }
  }

  /** Window j is that of a FIR of the graph over the whole length of the output, its coefficients are
      where its parameter says, and its tile is big enough. */
  predicate WindowOk(l: Launch, j: nat)
    requires Launched(l)
  {
    j < |l.k.windows| &&
    var id := l.k.windows[j].id;
    && id in Order(l.nodes, l.root) && NodeOk(l.nodes, id) && l.nodes[id].kind.Fir? && l.nodes[id].n == Len(l)
    && l.k.windows[j].taps < |l.data|
    && l.data[l.k.windows[j].taps] == l.nodes[l.nodes[id].args[1]].host
    && |l.data[l.k.windows[j].taps]| == l.nodes[l.nodes[id].args[1]].n
    && 1 <= Count(l, j) <= MAX_TAPS
  }

  lemma WindowFacts(l: Launch, j: nat) returns (loc: set<nat>)
    requires Launched(l) && j < |l.k.windows|
    ensures WindowOk(l, j) && l.k.windows[j] == WindowOf(l.nodes, l.k.params, loc, l.k.windows[j].id)
    ensures forall x :: x in loc ==> x < |l.nodes| && l.nodes[x].kind.Fir?
  {
    var order := Order(l.nodes, l.root);
    loc := WindowIs(l.nodes, l.k.params, {}, order, j);
    var id := l.k.windows[j].id;
    var taps := l.nodes[id].args[1];
    assert NodeOk(l.nodes, taps);
    InputsHave(l.nodes, order, taps);
  }

  function SignalOf(l: Launch, j: nat): nat
    requires Launched(l) && WindowOk(l, j)
  {
    l.nodes[l.k.windows[j].id].args[0]
  }

  /** What is staged in a slot is the signal around its start, and never out of bounds. */
  lemma StagedValue(l: Launch, j: nat, base: nat, i: nat, locals: map<nat, int>)
    requires Launched(l) && j < |l.k.windows|
    ensures WindowOk(l, j)
    ensures Staged(l, j, base, i, locals) == Some(Extended(l.o, l.nodes, SignalOf(l, j), base + i - (Count(l, j) - 1)))
  {
    var loc := WindowFacts(l, j);
    var src := base + i - (Count(l, j) - 1);
    if 0 <= src < Len(l) { ExprValue(l, loc, SignalOf(l, j), src, locals); }
  }

  // What holds of a block

  predicate SlotDone(l: Launch, pc: Pc, j: nat, i: nat) { Rank(l, pc) > 3 * j || (pc.Stage? && pc.j == j && pc.i > i) }

  /** A slot is written once its thread has passed it, and with the right value. */
  predicate SlotOk(l: Launch, s: Block, base: nat, j: nat, i: nat)
    requires Launched(l) && ShapedBlock(l, s) && j < |l.k.windows| && i < TILE
  {
    WindowOk(l, j) && s.tiles[j][i] ==
      if i < l.dim + Count(l, j) - 1 && SlotDone(l, s.threads[i % l.dim].pc, j, i)
      then Some(Extended(l.o, l.nodes, SignalOf(l, j), base + i - (Count(l, j) - 1)))
      else None
  }

  function FirAt(l: Launch, j: nat, at: nat, k: nat): int
    requires Launched(l) && WindowOk(l, j) && k <= Count(l, j)
  {
    Taps(l.o, l.nodes, l.k.windows[j].id, at, k)
  }

  predicate LocalOk(l: Launch, j: nat, at: nat, locals: map<nat, int>)
    requires Launched(l) && WindowOk(l, j)
  {
    l.k.windows[j].id in locals && locals[l.k.windows[j].id] == FirAt(l, j, at, Count(l, j))
  }

  predicate ThreadOk(l: Launch, me: Thread, base: nat, t: nat)
    requires Launched(l)
  {
    && (match me.pc
        case Stage(_, i) => i % l.dim == t
        case Term(j, i, acc) => WindowOk(l, j) && i <= Count(l, j) && acc == FirAt(l, j, base + t, i)
        case _ => true)
    && (forall j :: 0 <= j && 3 * j + 2 < Rank(l, me.pc) && j < |l.k.windows| ==> WindowOk(l, j) && LocalOk(l, j, base + t, me.locals))
  }

  /** No thread is past a barrier that another has not come to. */
  predicate Together(l: Launch, p: Pc, q: Pc) {
    forall j :: 0 <= j && Rank(l, p) >= 3 * j + 2 && j < |l.k.windows| ==> Rank(l, q) >= 3 * j + 1
  }

  predicate BlockInv(l: Launch, s: Block, base: nat) {
    && Launched(l) && ShapedBlock(l, s)
    && (forall t :: 0 <= t < l.dim ==> ThreadOk(l, s.threads[t], base, t))
    && (forall t, u :: 0 <= t < l.dim && 0 <= u < l.dim ==> Together(l, s.threads[t].pc, s.threads[u].pc))
    && SlotsOk(l, s, base)
  }

  predicate SlotsOk(l: Launch, s: Block, base: nat)
    requires Launched(l) && ShapedBlock(l, s)
  {
    forall j, i :: 0 <= j < |l.k.windows| && 0 <= i < TILE ==> SlotOk(l, s, base, j, i)
  }

  // A step keeps it, and is never a fault.

  lemma Reassemble(l: Launch, s: Block, r: Block, base: nat, t: nat)
    requires BlockInv(l, s, base) && ShapedBlock(l, r) && t < l.dim && r.threads == s.threads[t := r.threads[t]]
    requires ThreadOk(l, r.threads[t], base, t) && Rank(l, r.threads[t].pc) >= Rank(l, s.threads[t].pc)
    requires forall u :: 0 <= u < l.dim ==> Together(l, r.threads[t].pc, s.threads[u].pc)
    requires SlotsOk(l, r, base)
    ensures BlockInv(l, r, base)
  {
    forall u, v | 0 <= u < l.dim && 0 <= v < l.dim ensures Together(l, r.threads[u].pc, r.threads[v].pc) {
      assert Together(l, s.threads[u].pc, s.threads[v].pc);
      if u == t { assert Together(l, r.threads[t].pc, s.threads[v].pc); }
    }
  }

  /** A step that writes no slot and passes none. */
  lemma NoSlot(l: Launch, s: Block, r: Block, base: nat, t: nat)
    requires BlockInv(l, s, base) && ShapedBlock(l, r) && t < l.dim && r.threads == s.threads[t := r.threads[t]] && r.tiles == s.tiles
    requires SameSlots(l, s.threads[t].pc, r.threads[t].pc, t)
    ensures SlotsOk(l, r, base)
  {
    forall j, i | 0 <= j < |l.k.windows| && 0 <= i < TILE ensures SlotOk(l, r, base, j, i) {
      assert SlotOk(l, s, base, j, i);
    }
  }

  predicate SameSlots(l: Launch, p: Pc, q: Pc, t: nat)
    requires Launched(l)
  {
    forall j, i: nat :: 0 <= j < |l.k.windows| && WindowOk(l, j) && i < l.dim + Count(l, j) - 1 && i % l.dim == t ==>
      SlotDone(l, p, j, i) == SlotDone(l, q, j, i)
  }

  predicate Onward(l: Launch, p: Pc, q: Pc) {
    Rank(l, q) >= Rank(l, p) && forall j :: 0 <= j < |l.k.windows| && Rank(l, q) >= 3 * j + 2 ==> Rank(l, p) >= 3 * j + 2
  }

  /** A thread goes on without crossing a barrier or writing a slot. */
  lemma QuietStep(l: Launch, s: Block, base: nat, t: nat, me: Thread)
    requires BlockInv(l, s, base) && t < l.dim && InProgram(l, me.pc) && ThreadOk(l, me, base, t)
    requires Onward(l, s.threads[t].pc, me.pc) && SameSlots(l, s.threads[t].pc, me.pc, t)
    ensures BlockInv(l, s.(threads := s.threads[t := me]), base)
  {
    var r := s.(threads := s.threads[t := me]);
    StillTogether(l, s, base, t, me.pc);
    NoSlot(l, s, r, base, t);
    Reassemble(l, s, r, base, t);
  }

  /** Going on without crossing a barrier. */
  lemma StillTogether(l: Launch, s: Block, base: nat, t: nat, pc: Pc)
    requires BlockInv(l, s, base) && t < l.dim
    requires Onward(l, s.threads[t].pc, pc)
    ensures forall u :: 0 <= u < l.dim ==> Together(l, pc, s.threads[u].pc)
  {
    forall u | 0 <= u < l.dim ensures Together(l, pc, s.threads[u].pc) {
      assert Together(l, s.threads[t].pc, s.threads[u].pc);
    }
  }

  /** Where staging writes, and that it is no fault. */
  lemma StageIs(l: Launch, s: Block, base: nat, t: nat, j: nat, i: nat, v: int)
    requires l.root < |l.nodes| && ShapedBlock(l, s) && t < l.dim && s.threads[t].pc == Stage(j, i)
    requires i < l.dim + Count(l, j) - 1 && i < TILE && s.tiles[j][i].None? && Staged(l, j, base, i, s.threads[t].locals) == Some(v)
    ensures StepBlock(l, s, base, t) ==
      (Block(s.threads[t := s.threads[t].(pc := Stage(j, i + l.dim))], s.tiles[j := s.tiles[j][i := Some(v)]]), false)
  {
  }

  lemma StageStep(l: Launch, s: Block, base: nat, t: nat)
    requires BlockInv(l, s, base) && t < l.dim && s.threads[t].pc.Stage?
    requires s.threads[t].pc.i < l.dim + Count(l, s.threads[t].pc.j) - 1
    ensures !StepBlock(l, s, base, t).1 && BlockInv(l, StepBlock(l, s, base, t).0, base)
  {
    var me := s.threads[t];
    var j, i := me.pc.j, me.pc.i;
    assert ThreadOk(l, me, base, t);
    StagedValue(l, j, base, i, me.locals);
    assert SlotOk(l, s, base, j, i);
    var v := Staged(l, j, base, i, me.locals).value;
    NextOfClass(l.dim, i, i);
    StageIs(l, s, base, t, j, i, v);
    Fills(l, s, base, t, j, i, v);
  }

  /** Writing the slot a thread is at. */
  lemma Fills(l: Launch, s: Block, base: nat, t: nat, j: nat, i: nat, v: int)
    requires BlockInv(l, s, base) && t < l.dim && s.threads[t].pc == Stage(j, i)
    requires i < l.dim + Count(l, j) - 1 && i < TILE && WindowOk(l, j) && (i + l.dim) % l.dim == t && i % l.dim == t
    requires v == Extended(l.o, l.nodes, SignalOf(l, j), base + i - (Count(l, j) - 1))
    ensures BlockInv(l, Block(s.threads[t := s.threads[t].(pc := Stage(j, i + l.dim))], s.tiles[j := s.tiles[j][i := Some(v)]]), base)
  {
    var on := s.threads[t].(pc := Stage(j, i + l.dim));
    var r := Block(s.threads[t := on], s.tiles[j := s.tiles[j][i := Some(v)]]);
    assert ThreadOk(l, s.threads[t], base, t);
    StillTogether(l, s, base, t, on.pc);
    FillsSlots(l, s, base, t, j, i, v, r);
    Reassemble(l, s, r, base, t);
  }

  lemma FillsSlots(l: Launch, s: Block, base: nat, t: nat, j: nat, i: nat, v: int, r: Block)
    requires Launched(l) && Filled(l, s, t, j, i, v, r) && i < l.dim + Count(l, j) - 1 && (i + l.dim) % l.dim == t && i % l.dim == t
    requires WindowOk(l, j) && v == Extended(l.o, l.nodes, SignalOf(l, j), base + i - (Count(l, j) - 1)) && SlotsOk(l, s, base)
    ensures SlotsOk(l, r, base)
  {
    forall j', i' | 0 <= j' < |l.k.windows| && 0 <= i' < TILE ensures SlotOk(l, r, base, j', i') {
      assert SlotOk(l, s, base, j', i');
      FillsSlot(l, s, base, t, j, i, v, r, j', i');
    }
  }

  /** Block r is s with slot i of window j written by thread t. */
  predicate Filled(l: Launch, s: Block, t: nat, j: nat, i: nat, v: int, r: Block) {
    && ShapedBlock(l, s) && ShapedBlock(l, r) && t < l.dim && i < TILE && j < |s.tiles| && s.threads[t].pc == Stage(j, i)
    && r.threads == s.threads[t := r.threads[t]] && r.threads[t].pc == Stage(j, i + l.dim)
    && r.tiles == s.tiles[j := s.tiles[j][i := Some(v)]]
  }

  lemma FillsSlot(l: Launch, s: Block, base: nat, t: nat, j: nat, i: nat, v: int, r: Block, j': nat, i': nat)
    requires Launched(l) && Filled(l, s, t, j, i, v, r) && i < l.dim + Count(l, j) - 1 && (i + l.dim) % l.dim == t && i % l.dim == t
    requires WindowOk(l, j) && v == Extended(l.o, l.nodes, SignalOf(l, j), base + i - (Count(l, j) - 1))
    requires j' < |l.k.windows| && i' < TILE && SlotOk(l, s, base, j', i')
    ensures SlotOk(l, r, base, j', i')
  {
    if j' == j && i' == i {
      SlotFilled(l, s, base, t, j, i, v, r);
    } else {
      if i' % l.dim == t && j' == j { NextSlot(l.dim, i, i', t); }
      FilledDone(l, s, t, j, i, v, r, j', i', i' % l.dim);
      SlotSame(l, s, r, base, j', i', i' % l.dim);
    }
  }

  lemma SlotFilled(l: Launch, s: Block, base: nat, t: nat, j: nat, i: nat, v: int, r: Block)
    requires Launched(l) && Filled(l, s, t, j, i, v, r) && i < l.dim + Count(l, j) - 1 && i % l.dim == t && j < |l.k.windows|
    requires WindowOk(l, j) && v == Extended(l.o, l.nodes, SignalOf(l, j), base + i - (Count(l, j) - 1))
    ensures SlotOk(l, r, base, j, i)
  {
    assert SlotDone(l, r.threads[t].pc, j, i);
  }

  /** What was done before is what is done after, the slot itself apart. */
  lemma FilledDone(l: Launch, s: Block, t: nat, j: nat, i: nat, v: int, r: Block, j': nat, i': nat, u: nat)
    requires Filled(l, s, t, j, i, v, r) && j' < |s.tiles| && i' < TILE && u < l.dim && (j' != j || i' != i)
    requires u == t && j' == j ==> (i + l.dim > i' <==> i > i' || i' == i)
    ensures r.tiles[j'][i'] == s.tiles[j'][i'] && SlotDone(l, r.threads[u].pc, j', i') == SlotDone(l, s.threads[u].pc, j', i')
  {
  }

  lemma SlotSame(l: Launch, s: Block, r: Block, base: nat, j: nat, i: nat, u: nat)
    requires Launched(l) && ShapedBlock(l, s) && ShapedBlock(l, r) && j < |l.k.windows| && i < TILE && u == i % l.dim && u < l.dim
    requires r.tiles[j][i] == s.tiles[j][i] && SlotDone(l, r.threads[u].pc, j, i) == SlotDone(l, s.threads[u].pc, j, i)
    requires SlotOk(l, s, base, j, i)
    ensures SlotOk(l, r, base, j, i)
  {
  }

  /** Between two slots of a thread there is none of its own. */
  lemma NextSlot(dim: nat, k: nat, j: nat, t: nat)
    requires dim > 0 && (k + dim) % dim == t && j % dim == t
    ensures k + dim > j <==> k > j || j == k
  {
    NextOfClass(dim, k, j);
  }

  lemma StagedStep(l: Launch, s: Block, base: nat, t: nat)
    requires BlockInv(l, s, base) && t < l.dim && s.threads[t].pc.Stage?
    requires s.threads[t].pc.i >= l.dim + Count(l, s.threads[t].pc.j) - 1
    ensures !StepBlock(l, s, base, t).1 && BlockInv(l, StepBlock(l, s, base, t).0, base)
  {
    var me := s.threads[t];
    assert ThreadOk(l, me, base, t);
    QuietStep(l, s, base, t, me.(pc := Wait(me.pc.j)));
  }

  lemma WaitStep(l: Launch, s: Block, base: nat, t: nat)
    requires BlockInv(l, s, base) && t < l.dim && s.threads[t].pc.Wait? && Passes(l, s, t)
    ensures !StepBlock(l, s, base, t).1 && BlockInv(l, StepBlock(l, s, base, t).0, base)
  {
    var me := s.threads[t].(pc := Term(s.threads[t].pc.j, 0, l.o.zero));
    FirstTerm(l, s.threads[t], base, t);
    CrossBarrier(l, s, base, t, me);
  }

  lemma FirstTerm(l: Launch, me: Thread, base: nat, t: nat)
    requires Launched(l) && me.pc.Wait? && me.pc.j < |l.k.windows| && ThreadOk(l, me, base, t)
    ensures ThreadOk(l, me.(pc := Term(me.pc.j, 0, l.o.zero)), base, t)
  {
    var loc := WindowFacts(l, me.pc.j);
  }

  lemma CrossBarrier(l: Launch, s: Block, base: nat, t: nat, me: Thread)
    requires BlockInv(l, s, base) && t < l.dim && s.threads[t].pc.Wait? && Passes(l, s, t)
    requires me.pc.Term? && me.pc.j == s.threads[t].pc.j && ThreadOk(l, me, base, t)
    ensures BlockInv(l, s.(threads := s.threads[t := me]), base)
  {
    var r := s.(threads := s.threads[t := me]);
    forall u | 0 <= u < l.dim ensures Together(l, me.pc, s.threads[u].pc) {
      assert Together(l, s.threads[t].pc, s.threads[u].pc);
    }
    NoSlot(l, s, r, base, t);
    Reassemble(l, s, r, base, t);
  }

  /** A term reads a slot that some thread has written, and that the barrier made visible. */
  lemma TermReads(l: Launch, s: Block, base: nat, t: nat)
    requires BlockInv(l, s, base) && t < l.dim && s.threads[t].pc.Term? && s.threads[t].pc.i < Count(l, s.threads[t].pc.j)
    ensures var j, i := s.threads[t].pc.j, s.threads[t].pc.i;
      var at := t + Count(l, j) - 1 - i;
      WindowOk(l, j) && at < TILE && s.tiles[j][at] == Some(Extended(l.o, l.nodes, SignalOf(l, j), base + t - i))
  {
    var j, i := s.threads[t].pc.j, s.threads[t].pc.i;
    var at := t + Count(l, j) - 1 - i;
    assert ThreadOk(l, s.threads[t], base, t);
    assert SlotOk(l, s, base, j, at);
    ModFits(at, l.dim);
    assert Together(l, s.threads[t].pc, s.threads[at % l.dim].pc);
  }

  lemma NextTerm(l: Launch, me: Thread, base: nat, t: nat, v: int)
    requires Launched(l) && me.pc.Term? && me.pc.i < Count(l, me.pc.j) && ThreadOk(l, me, base, t)
    requires WindowOk(l, me.pc.j) && v == Extended(l.o, l.nodes, SignalOf(l, me.pc.j), base + t - me.pc.i)
    ensures ThreadOk(l, Added(l, me, v), base, t)
  {
  }

  lemma TermStep(l: Launch, s: Block, base: nat, t: nat)
    requires BlockInv(l, s, base) && t < l.dim && s.threads[t].pc.Term? && s.threads[t].pc.i < Count(l, s.threads[t].pc.j)
    ensures !StepBlock(l, s, base, t).1 && BlockInv(l, StepBlock(l, s, base, t).0, base)
  {
    var me := s.threads[t];
    var j, i := me.pc.j, me.pc.i;
    TermReads(l, s, base, t);
    assert ThreadOk(l, me, base, t);
    var v := s.tiles[j][t + Count(l, j) - 1 - i].value;
    NextTerm(l, me, base, t, v);
    assert StepBlock(l, s, base, t) == (s.(threads := s.threads[t := Added(l, me, v)]), false);
    QuietStep(l, s, base, t, Added(l, me, v));
  }

  lemma SummedStep(l: Launch, s: Block, base: nat, t: nat)
    requires BlockInv(l, s, base) && t < l.dim && s.threads[t].pc.Term? && s.threads[t].pc.i >= Count(l, s.threads[t].pc.j)
    ensures !StepBlock(l, s, base, t).1 && BlockInv(l, StepBlock(l, s, base, t).0, base)
  {
    var me := s.threads[t];
    var j := me.pc.j;
    assert ThreadOk(l, me, base, t);
    var on := Thread(Enter(l, j + 1, t), me.locals[l.k.windows[j].id := me.pc.acc]);
    assert StepBlock(l, s, base, t) == (s.(threads := s.threads[t := on]), false);
    SummedThread(l, me, base, t);
    SummedSlots(l, me.pc, t);
    QuietStep(l, s, base, t, on);
  }

  lemma SummedThread(l: Launch, me: Thread, base: nat, t: nat)
    requires Launched(l) && t < l.dim && me.pc.Term? && me.pc.i >= Count(l, me.pc.j) && ThreadOk(l, me, base, t)
    ensures ThreadOk(l, Thread(Enter(l, me.pc.j + 1, t), me.locals[l.k.windows[me.pc.j].id := me.pc.acc]), base, t)
  {
    var j := me.pc.j;
    var on := Thread(Enter(l, j + 1, t), me.locals[l.k.windows[j].id := me.pc.acc]);
    ModFits(t, l.dim);
    forall i | 0 <= i < |l.k.windows| && 3 * i + 2 < Rank(l, on.pc) ensures WindowOk(l, i) && LocalOk(l, i, base + t, on.locals) {
      if i != j { WindowsDiffer(l.nodes, l.k.params, {}, Order(l.nodes, l.root), i, j); }
    }
  }

  lemma SummedSlots(l: Launch, pc: Pc, t: nat)
    requires Launched(l) && t < l.dim && pc.Term? && pc.j < |l.k.windows|
    ensures SameSlots(l, pc, Enter(l, pc.j + 1, t), t)
  {
    forall k, i: nat | 0 <= k < |l.k.windows| && WindowOk(l, k) && i < l.dim + Count(l, k) - 1 && i % l.dim == t
      ensures SlotDone(l, Enter(l, pc.j + 1, t), k, i) == SlotDone(l, pc, k, i)
    {
      AtLeastResidue(i, l.dim);
    }
  }

  lemma StoreStep(l: Launch, s: Block, base: nat, t: nat)
    requires BlockInv(l, s, base) && t < l.dim && s.threads[t].pc.Store?
    ensures !StepBlock(l, s, base, t).1 && BlockInv(l, StepBlock(l, s, base, t).0, base)
  {
    var me := s.threads[t];
    assert ThreadOk(l, me, base, t);
    QuietStep(l, s, base, t, me.(pc := Done));
  }

  lemma BlockStep(l: Launch, s: Block, base: nat, t: nat)
    requires BlockInv(l, s, base) && t < l.dim && Passes(l, s, t)
    ensures !StepBlock(l, s, base, t).1 && BlockInv(l, StepBlock(l, s, base, t).0, base)
  {
    match s.threads[t].pc
    case Stage(j, i) => if i < l.dim + Count(l, j) - 1 { StageStep(l, s, base, t); } else { StagedStep(l, s, base, t); }
    case Wait(_) => WaitStep(l, s, base, t);
    case Term(j, i, _) => if i < Count(l, j) { TermStep(l, s, base, t); } else { SummedStep(l, s, base, t); }
    case Store => StoreStep(l, s, base, t);
    case Done =>
  }

  // The output

  /** out[i] is stored by the thread whose index it is, and is then the value of the graph there. */
  predicate OutOk(l: Launch, w: World, b: nat, t: nat)
    requires Launched(l) && Shaped(l, w) && b < l.grid && t < l.dim && Base(b, l.dim) + t < Len(l) == |w.out|
  {
    OutAt(l, w, b, t, Base(b, l.dim) + t)
  }

  predicate OutAt(l: Launch, w: World, b: nat, t: nat, x: nat)
    requires Launched(l) && Shaped(l, w) && b < l.grid && t < l.dim && x < Len(l) == |w.out|
  {
    w.out[x] == if w.blocks[b].threads[t].pc.Done? then Some(Value(l.o, l.nodes, l.root, x)) else None
  }

  predicate WorldInv(l: Launch, w: World) {
    && Launched(l) && Shaped(l, w) && !w.fault && |w.out| == Len(l)
    && (forall b :: 0 <= b < l.grid ==> BlockInv(l, w.blocks[b], Base(b, l.dim)))
    && OutsOk(l, w)
  }

  predicate OutsOk(l: Launch, w: World)
    requires Launched(l) && Shaped(l, w) && |w.out| == Len(l)
  {
    forall b, t :: 0 <= b < l.grid && 0 <= t < l.dim && Base(b, l.dim) + t < Len(l) ==> OutOk(l, w, b, t)
  }

  predicate WindowsDone(l: Launch, at: nat, locals: map<nat, int>)
    requires Launched(l)
  {
    forall j :: 0 <= j < |l.k.windows| ==> WindowOk(l, j) && LocalOk(l, j, at, locals)
  }

  lemma OneLocal(l: Launch, order: seq<nat>, x: nat, at: nat, locals: map<nat, int>)
    requires Launched(l) && order == Order(l.nodes, l.root) && WindowsDone(l, at, locals)
    requires x in order && x < |l.nodes| && l.nodes[x].kind.Fir?
    ensures NodeOk(l.nodes, x) && x in locals && locals[x] == Taps(l.o, l.nodes, x, at, l.nodes[l.nodes[x].args[1]].n)
  {
    var j := WindowFor(l.nodes, l.k.params, {}, order, x);
    assert WindowOk(l, j) && LocalOk(l, j, at, locals);
  }

  lemma AllLocals(l: Launch, order: seq<nat>, at: nat, locals: map<nat, int>)
    requires Launched(l) && order == Order(l.nodes, l.root) && WindowsDone(l, at, locals)
    ensures LocalsHold(l, order, Firs(l.nodes, order), at, locals)
  {
    forall x | x in order && x < |l.nodes| && l.nodes[x].kind.Fir?
      ensures NodeOk(l.nodes, x) && x in locals && locals[x] == Taps(l.o, l.nodes, x, at, l.nodes[l.nodes[x].args[1]].n)
    {
      OneLocal(l, order, x, at, locals);
    }
    forall x | x in Firs(l.nodes, order) ensures NodeOk(l.nodes, x) {}
  }

  /** With every window done, the fused expression has the value of the graph. */
  lemma ResultValue(l: Launch, s: Block, base: nat, t: nat)
    requires BlockInv(l, s, base) && t < l.dim && s.threads[t].pc.Store? && base + t < Len(l)
    ensures Eval(l.o, l.data, l.k.result, base + t, s.threads[t].locals) == Some(Value(l.o, l.nodes, l.root, base + t))
  {
    assert ThreadOk(l, s.threads[t], base, t);
    AllLocals(l, Order(l.nodes, l.root), base + t, s.threads[t].locals);
    ExprValue(l, Firs(l.nodes, Order(l.nodes, l.root)), l.root, base + t, s.threads[t].locals);
  }

  /** Two threads have one index only when they are the same thread. */
  lemma IndexOf(dim: nat, b: nat, t: nat, c: nat, u: nat)
    requires t < dim && u < dim
    ensures Base(b, dim) + t == Base(c, dim) + u <==> b == c && t == u
  {
    if b > c { LaterBase(b, c, dim); }
    if c > b { LaterBase(c, b, dim); }
  }

  lemma {:induction false} LaterBase(a: nat, b: nat, dim: nat)
    requires a > b
    ensures Base(a, dim) >= Base(b, dim) + dim
  {
    if a - 1 > b { LaterBase(a - 1, b, dim); }
  }

  lemma Undone(l: Launch, s: Block, base: nat, t: nat)
    requires BlockInv(l, s, base) && t < l.dim && Passes(l, s, t) && !s.threads[t].pc.Store?
    ensures !StepBlock(l, s, base, t).0.threads[t].pc.Done?
  {
  }

  /** A store is in bounds and the first of its index. */
  lemma StoresOnce(l: Launch, w: World, b: nat, t: nat)
    requires WorldInv(l, w) && CanStep(l, w, b, t)
    ensures var s, v, i := w.blocks[b], Stored(l, w.blocks[b], Base(b, l.dim), t), Base(b, l.dim) + t;
      v.Some? ==> i < |w.out| && w.out[i].None? && v.value == Some(Value(l.o, l.nodes, l.root, i))
  {
    if Stored(l, w.blocks[b], Base(b, l.dim), t).Some? {
      ResultValue(l, w.blocks[b], Base(b, l.dim), t);
      assert OutOk(l, w, b, t);
    }
  }

  /** One thread of block b has moved, and stored if it was to. */
  predicate Moved(l: Launch, w: World, b: nat, t: nat, r: World)
    requires Launched(l) && Shaped(l, w) && |w.out| == Len(l) && b < l.grid && t < l.dim
  {
    MovedAt(l, w, b, t, r, Base(b, l.dim) + t)
  }

  predicate MovedAt(l: Launch, w: World, b: nat, t: nat, r: World, x: nat)
    requires Launched(l) && Shaped(l, w) && |w.out| == Len(l) && b < l.grid && t < l.dim
  {
    && |r.blocks| == l.grid && r.blocks == w.blocks[b := r.blocks[b]] && !r.fault && BlockInv(l, r.blocks[b], Base(b, l.dim))
    && r.blocks[b].threads == w.blocks[b].threads[t := r.blocks[b].threads[t]]
    && r.out == (if w.blocks[b].threads[t].pc.Store? && x < Len(l)
                 then w.out[x := Some(Value(l.o, l.nodes, l.root, x))] else w.out)
    && (r.blocks[b].threads[t].pc.Done? <==> w.blocks[b].threads[t].pc.Store?)
  }

  /** A step moves its own thread only. */
  lemma OnlyOne(l: Launch, s: Block, base: nat, t: nat)
    requires l.root < |l.nodes| && ShapedBlock(l, s) && t < l.dim
    ensures var r := StepBlock(l, s, base, t).0; |r.threads| == l.dim && r.threads == s.threads[t := r.threads[t]]
    ensures s.threads[t].pc.Store? ==> StepBlock(l, s, base, t).0.threads[t].pc.Done?
  {
  }

  lemma StepIs(l: Launch, w: World, b: nat, t: nat, s: (Block, bool), v: Option<Option<int>>, i: nat)
    requires CanStep(l, w, b, t) && s == StepBlock(l, w.blocks[b], Base(b, l.dim), t) && i == Base(b, l.dim) + t
    requires v == Stored(l, w.blocks[b], Base(b, l.dim), t) && !w.fault && !s.1
    requires v.Some? ==> i < |w.out| && v.value.Some? && w.out[i].None?
    ensures Step(l, w, b, t) == World(w.blocks[b := s.0], if v.Some? then w.out[i := v.value] else w.out, false)
  {
  }

  lemma StepMoves(l: Launch, w: World, b: nat, t: nat)
    requires WorldInv(l, w) && CanStep(l, w, b, t)
    ensures Moved(l, w, b, t, Step(l, w, b, t))
  {
    BlockStep(l, w.blocks[b], Base(b, l.dim), t);
    StoresOnce(l, w, b, t);
    OnlyOne(l, w.blocks[b], Base(b, l.dim), t);
    if !w.blocks[b].threads[t].pc.Store? { Undone(l, w.blocks[b], Base(b, l.dim), t); }
    var s, v := StepBlock(l, w.blocks[b], Base(b, l.dim), t), Stored(l, w.blocks[b], Base(b, l.dim), t);
    StepIs(l, w, b, t, s, v, Base(b, l.dim) + t);
    MovesAs(l, w, b, t, s.0, v, Base(b, l.dim) + t);
  }

  lemma MovesAs(l: Launch, w: World, b: nat, t: nat, s: Block, v: Option<Option<int>>, i: nat)
    requires Launched(l) && Shaped(l, w) && |w.out| == Len(l) && b < l.grid && t < l.dim && BlockInv(l, s, Base(b, l.dim))
    requires i == Base(b, l.dim) + t && v.Some? == (w.blocks[b].threads[t].pc.Store? && i < Len(l))
    requires v.Some? ==> v.value == Some(Value(l.o, l.nodes, l.root, i))
    requires s.threads == w.blocks[b].threads[t := s.threads[t]] && (s.threads[t].pc.Done? <==> w.blocks[b].threads[t].pc.Store?)
    ensures Moved(l, w, b, t, World(w.blocks[b := s], if v.Some? then w.out[i := v.value] else w.out, false))
  {
  }

  lemma MovedShape(l: Launch, w: World, b: nat, t: nat, r: World)
    requires WorldInv(l, w) && CanStep(l, w, b, t) && Moved(l, w, b, t, r)
    ensures Shaped(l, r) && |r.out| == Len(l) && forall c :: 0 <= c < l.grid ==> BlockInv(l, r.blocks[c], Base(c, l.dim))
  {
  }

  lemma MovedOwn(l: Launch, w: World, b: nat, t: nat, r: World, x: nat)
    requires Launched(l) && Shaped(l, w) && |w.out| == Len(l) && b < l.grid && t < l.dim && x < Len(l)
    requires OutAt(l, w, b, t, x) && !w.blocks[b].threads[t].pc.Done?
    requires Shaped(l, r) && |r.out| == Len(l) && MovedAt(l, w, b, t, r, x)
    ensures OutAt(l, r, b, t, x)
  {
  }

  lemma MovedOther(l: Launch, w: World, b: nat, t: nat, r: World, x: nat, c: nat, u: nat, y: nat)
    requires Launched(l) && Shaped(l, w) && |w.out| == Len(l) && b < l.grid && t < l.dim
    requires c < l.grid && u < l.dim && y < Len(l) && (b != c || t != u) && x != y
    requires OutAt(l, w, c, u, y)
    requires Shaped(l, r) && |r.out| == Len(l) && MovedAt(l, w, b, t, r, x)
    ensures OutAt(l, r, c, u, y)
  {
  }

  lemma MovedOut(l: Launch, w: World, b: nat, t: nat, r: World, x: nat, c: nat, u: nat, y: nat)
    requires Launched(l) && Shaped(l, w) && |w.out| == Len(l) && b < l.grid && t < l.dim && MovedAt(l, w, b, t, r, x)
    requires Shaped(l, r) && |r.out| == Len(l) && !w.blocks[b].threads[t].pc.Done?
    requires c < l.grid && u < l.dim && y < Len(l) && OutAt(l, w, c, u, y) && (x == y <==> b == c && t == u)
    ensures OutAt(l, r, c, u, y)
  {
    if x == y {
      MovedOwn(l, w, b, t, r, x);
    } else {
      MovedOther(l, w, b, t, r, x, c, u, y);
    }
  }

  lemma MovedOuts(l: Launch, w: World, b: nat, t: nat, r: World)
    requires Launched(l) && Shaped(l, w) && |w.out| == Len(l) && b < l.grid && t < l.dim && Moved(l, w, b, t, r)
    requires Shaped(l, r) && |r.out| == Len(l) && !w.blocks[b].threads[t].pc.Done? && OutsOk(l, w)
    ensures OutsOk(l, r)
  {
    forall c, u | 0 <= c < l.grid && 0 <= u < l.dim && Base(c, l.dim) + u < Len(l) ensures OutOk(l, r, c, u) {
      assert OutOk(l, w, c, u);
      IndexOf(l.dim, b, t, c, u);
      MovedOut(l, w, b, t, r, Base(b, l.dim) + t, c, u, Base(c, l.dim) + u);
    }
  }

  lemma MovedInv(l: Launch, w: World, b: nat, t: nat, r: World)
    requires WorldInv(l, w) && CanStep(l, w, b, t) && Moved(l, w, b, t, r)
    ensures WorldInv(l, r)
  {
    MovedShape(l, w, b, t, r);
    MovedOuts(l, w, b, t, r);
  }

  lemma WorldStep(l: Launch, w: World, b: nat, t: nat)
    requires WorldInv(l, w) && CanStep(l, w, b, t)
    ensures WorldInv(l, Step(l, w, b, t))
  {
    StepMoves(l, w, b, t);
    MovedInv(l, w, b, t, Step(l, w, b, t));
  }

  lemma StartBlock(l: Launch, s: Block, base: nat)
    requires Launched(l) && BlockAtStart(l, s)
    ensures BlockInv(l, s, base)
  {
    forall t | 0 <= t < l.dim ensures ThreadOk(l, s.threads[t], base, t) { ModFits(t, l.dim); }
    forall j, i | 0 <= j < |l.k.windows| && 0 <= i < TILE ensures SlotOk(l, s, base, j, i) {
      var loc := WindowFacts(l, j);
      AtLeastResidue(i, l.dim);
      ModFits(i, l.dim);
      assert s.threads[i % l.dim].pc == Enter(l, 0, i % l.dim);
    }
  }

  lemma StartInv(l: Launch, w: World)
    requires AtStart(l, w)
    ensures WorldInv(l, w)
  {
    forall b | 0 <= b < l.grid ensures BlockInv(l, w.blocks[b], Base(b, l.dim)) { StartBlock(l, w.blocks[b], Base(b, l.dim)); }
    forall b, t | 0 <= b < l.grid && 0 <= t < l.dim && Base(b, l.dim) + t < Len(l) ensures OutOk(l, w, b, t) {
      assert w.blocks[b].threads[t].pc == Enter(l, 0, t);
    }
  }

  // Runs

  predicate Runs(l: Launch, w: World, run: seq<(nat, nat)>)
    decreases |run|
  {
    run == [] || (CanStep(l, w, run[0].0, run[0].1) && Runs(l, Step(l, w, run[0].0, run[0].1), run[1..]))
  }

  function After(l: Launch, w: World, run: seq<(nat, nat)>): World
    requires Runs(l, w, run)
    decreases |run|
  {
    if run == [] then w else After(l, Step(l, w, run[0].0, run[0].1), run[1..])
  }

  lemma {:induction false} RunKeeps(l: Launch, w: World, run: seq<(nat, nat)>)
    requires WorldInv(l, w) && Runs(l, w, run)
    ensures WorldInv(l, After(l, w, run))
    decreases |run|
  {
    if run != [] {
      WorldStep(l, w, run[0].0, run[0].1);
      RunKeeps(l, Step(l, w, run[0].0, run[0].1), run[1..]);
    }
  }

  predicate Finished(l: Launch, w: World) {
    Shaped(l, w) && forall b, t :: 0 <= b < l.grid && 0 <= t < l.dim ==> w.blocks[b].threads[t].pc.Done?
  }

  lemma RunInv(l: Launch, w: World, run: seq<(nat, nat)>)
    requires AtStart(l, w) && Runs(l, w, run)
    ensures WorldInv(l, After(l, w, run))
  {
    StartInv(l, w);
    RunKeeps(l, w, run);
  }

  /** Safety of every run: no access out of bounds, no slot read before it is written, none written
      twice. */
  lemma FusedIsSafe(l: Launch, w: World, run: seq<(nat, nat)>)
    requires AtStart(l, w) && Runs(l, w, run)
    ensures !After(l, w, run).fault
  {
    RunInv(l, w, run);
  }

  /** Fusion correctness: for every graph the builder accepts, every length and every interleaving, the
      fused kernel leaves in out the pointwise meaning of the graph. */
  lemma FusedIsMeaning(l: Launch, w: World, run: seq<(nat, nat)>, i: nat)
    requires AtStart(l, w) && Runs(l, w, run) && Finished(l, After(l, w, run)) && i < Len(l)
    ensures |After(l, w, run).out| == Len(l) && After(l, w, run).out[i] == Some(Meaning(l.o, l.nodes, l.root)[i])
  {
    RunInv(l, w, run);
    FinishedAt(l, After(l, w, run), i);
  }

  lemma FinishedAt(l: Launch, w: World, i: nat)
    requires WorldInv(l, w) && Finished(l, w) && i < Len(l)
    ensures w.out[i] == Some(Value(l.o, l.nodes, l.root, i))
  {
    var b, t := Covered(l, i);
    FinishedOut(l, w, b, t);
  }

  lemma FinishedOut(l: Launch, w: World, b: nat, t: nat)
    requires WorldInv(l, w) && Finished(l, w) && b < l.grid && t < l.dim && Base(b, l.dim) + t < Len(l)
    ensures w.out[Base(b, l.dim) + t] == Some(Value(l.o, l.nodes, l.root, Base(b, l.dim) + t))
  {
    assert OutOk(l, w, b, t);
  }

  /** Every index of the output is some thread's. */
  lemma Covered(l: Launch, i: nat) returns (b: nat, t: nat)
    requires Launched(l) && i < Len(l)
    ensures b < l.grid && t < l.dim && Base(b, l.dim) + t == i
  {
    b, t := BlockOf(l.grid, l.dim, i);
  }

  lemma {:induction false} BlockOf(grid: nat, dim: nat, i: nat) returns (b: nat, t: nat)
    requires i < Base(grid, dim)
    ensures b < grid && t < dim && Base(b, dim) + t == i
  {
    if i >= Base(grid - 1, dim) {
      b, t := grid - 1, i - Base(grid - 1, dim);
    } else {
      b, t := BlockOf(grid - 1, dim, i);
    }
  }

  /** No run is stuck before it is finished. */
  lemma SomebodySteps(l: Launch, w: World, run: seq<(nat, nat)>)
    requires AtStart(l, w) && Runs(l, w, run) && !Finished(l, After(l, w, run))
    ensures exists b, t :: CanStep(l, After(l, w, run), b, t)
  {
    RunInv(l, w, run);
    var b, t := SomebodyCan(l, After(l, w, run));
  }

  lemma SomebodyCan(l: Launch, w: World) returns (b: nat, t: nat)
    requires Shaped(l, w) && !Finished(l, w)
    ensures CanStep(l, w, b, t)
  {
    var u: nat;
    b, u :| b < l.grid && u < l.dim && !w.blocks[b].threads[u].pc.Done?;
    t := SlowestPasses(l, w.blocks[b], u);
  }

  lemma SlowestPasses(l: Launch, s: Block, t: nat) returns (u: nat)
    requires ShapedBlock(l, s) && t < l.dim && !s.threads[t].pc.Done?
    ensures u < l.dim && Passes(l, s, u)
  {
    u := Slowest(l, s, l.dim);
    UndoneRank(l, s, t);
  }

  lemma UndoneRank(l: Launch, s: Block, t: nat)
    requires ShapedBlock(l, s) && t < l.dim && !s.threads[t].pc.Done?
    ensures Rank(l, s.threads[t].pc) <= 3 * |l.k.windows|
  {
  }

  lemma {:induction false} Slowest(l: Launch, s: Block, n: nat) returns (u: nat)
    requires ShapedBlock(l, s) && 0 < n <= l.dim
    ensures u < n && forall v :: 0 <= v < n ==> Rank(l, s.threads[u].pc) <= Rank(l, s.threads[v].pc)
    decreases n
  {
    u := n - 1;
    if n > 1 {
      var v := Slowest(l, s, n - 1);
      if Rank(l, s.threads[v].pc) < Rank(l, s.threads[u].pc) { u := v; }
    }
  }
}
