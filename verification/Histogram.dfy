/** kernels/histogram.go under any interleaving of the threads of any number of blocks. */
module Histogram {
  import opened Basics
  import opened TwosComplement

  const BINS: nat := 256
  const WORD: nat := 0x1_0000_0000

  /** An int32 sum. */
  function Wrap(v: int): int { Centred(v, WORD) }

  lemma WrapAdd(a: int, b: int)
    ensures Wrap(Wrap(a) + b) == Wrap(a + b) && Wrap(a + Wrap(b)) == Wrap(a + b)
  {
    CentredAdd(a, b, WORD);
    CentredAdd(b, a, WORD);
  }

  lemma CentredAdd(a: int, b: int, s: nat)
    requires s > 1 && s % 2 == 0
    ensures Centred(Centred(a, s) + b, s) == Centred(a + b, s)
  {
    CentredFits(a, s);
    var k := (a + s / 2) / s;
    Division(a + s / 2, s);
    Distribute(k, 0, s);
    ModShift(a + b + s / 2, -k, s);
  }

  // The launch

  datatype Launch = Launch(grid: nat, dim: nat, x: seq<int>, bins: nat)

  /** Where a thread is: clearing bin k, at the first barrier, about to count its sample, at the second
      barrier, folding bin k, about to add what it read of bin k, finished. */
  datatype Pc = Zero(k: nat) | Wait1 | Count | Wait2 | Fold(k: nat) | Post(k: nat, c: int) | Done

  datatype Block = Block(pcs: seq<Pc>, tile: seq<int>)

  datatype World = World(blocks: seq<Block>, bins: seq<int>)

  function Phase(pc: Pc): nat {
    match pc case Zero(_) => 0 case Wait1 => 1 case Count => 2 case Wait2 => 3 case _ => 4
  }

  predicate Sized(l: Launch, w: World) {
    && l.dim > 0 && |w.blocks| == l.grid && |w.bins| == l.bins
    && forall b :: 0 <= b < l.grid ==> |w.blocks[b].pcs| == l.dim && |w.blocks[b].tile| == BINS
  }

  /** A barrier lets a thread through once every thread of the block has reached it. */
  predicate Passes(l: Launch, s: Block, t: nat)
    requires |s.pcs| == l.dim && t < l.dim
  {
    match s.pcs[t]
    case Wait1 => forall u :: 0 <= u < l.dim ==> Phase(s.pcs[u]) >= 1
    case Wait2 => forall u :: 0 <= u < l.dim ==> Phase(s.pcs[u]) >= 3
    case Done => false
    case _ => true
  }

  predicate CanStep(l: Launch, w: World, b: nat, t: nat) {
    Sized(l, w) && b < l.grid && t < l.dim && Passes(l, w.blocks[b], t)
  }

  function Sample(l: Launch, b: nat, t: nat): int { if b * l.dim + t < |l.x| then l.x[b * l.dim + t] else -1 }

  /** One step of a thread on the tile of its block. */
  function StepBlock(l: Launch, s: Block, b: nat, t: nat): (r: Block)
    requires l.dim > 0 && |s.pcs| == l.dim && |s.tile| == BINS && t < l.dim
    ensures |r.pcs| == l.dim && |r.tile| == BINS
  {
    match s.pcs[t]
    case Zero(k) =>
      if k < BINS then Block(s.pcs[t := Zero(k + l.dim)], s.tile[k := 0]) else s.(pcs := s.pcs[t := Wait1])
    case Wait1 => s.(pcs := s.pcs[t := Count])
    case Count =>
      var v := Sample(l, b, t);
      Block(s.pcs[t := Wait2], if 0 <= v < BINS then s.tile[v := Wrap(s.tile[v] + 1)] else s.tile)
    case Wait2 => s.(pcs := s.pcs[t := Fold(t)])
    case Fold(k) =>
      s.(pcs := s.pcs[t := if k >= BINS then Done else if s.tile[k] != 0 && k < l.bins then Post(k, s.tile[k]) else Fold(k + l.dim)])
    case Post(k, _) => s.(pcs := s.pcs[t := Fold(k + l.dim)])
    case Done => s
  }

  /** What a thread does next, the barriers apart. */
  function Act(l: Launch, w: World, b: nat, t: nat): (r: World)
    requires Sized(l, w) && b < l.grid && t < l.dim
    ensures Sized(l, r)
  {
    var s := w.blocks[b];
    var pc := s.pcs[t];
    World(w.blocks[b := StepBlock(l, s, b, t)],
          if pc.Post? && pc.k < l.bins then w.bins[pc.k := Wrap(w.bins[pc.k] + pc.c)] else w.bins)
  }

  function Step(l: Launch, w: World, b: nat, t: nat): (r: World)
    requires CanStep(l, w, b, t)
    ensures Sized(l, r)
  {
    Act(l, w, b, t)
  }

  // What holds of a block

  function Hit(l: Launch, b: nat, t: nat, k: nat): int { if Sample(l, b, t) == k then 1 else 0 }

  /** The samples of block b equal to k. */
  function Samples(l: Launch, b: nat, k: nat): int { Total((t: nat) => Hit(l, b, t, k), l.dim) }

  function Counted(l: Launch, s: Block, b: nat, k: nat, t: nat): int {
    if t < |s.pcs| && Phase(s.pcs[t]) >= 3 then Hit(l, b, t, k) else 0
  }

  /** Those whose threads have counted them. */
  function SoFar(l: Launch, s: Block, b: nat, k: nat): int { Total((t: nat) => Counted(l, s, b, k, t), l.dim) }

  /** Bin k of the tile has been cleared. */
  predicate Cleared(l: Launch, s: Block, k: nat)
    requires l.dim > 0 && |s.pcs| == l.dim
  {
    var pc := s.pcs[k % l.dim];
    pc.Zero? ==> pc.k > k
  }

  /** Bin k of the tile has been folded into the global bins. */
  predicate Folded(l: Launch, s: Block, k: nat)
    requires l.dim > 0 && |s.pcs| == l.dim
  {
    var pc := s.pcs[k % l.dim];
    pc.Done? || ((pc.Fold? || pc.Post?) && pc.k > k)
  }

  predicate PcOk(l: Launch, s: Block, t: nat)
    requires l.dim > 0 && |s.pcs| == l.dim && |s.tile| == BINS && t < l.dim
  {
    match s.pcs[t]
    case Zero(k) => k % l.dim == t
    case Fold(k) => k % l.dim == t
    case Post(k, c) => k % l.dim == t && k < BINS && k < l.bins && c == s.tile[k]
    case _ => true
  }

  predicate BlockInv(l: Launch, s: Block, b: nat) {
    && l.dim > 0 && |s.pcs| == l.dim && |s.tile| == BINS
    && (forall t :: 0 <= t < l.dim ==> PcOk(l, s, t))
    && (forall t, u :: 0 <= t < l.dim && 0 <= u < l.dim ==> Together(s.pcs[t], s.pcs[u]))
    && (forall k :: 0 <= k < BINS && Cleared(l, s, k) ==> s.tile[k] == Wrap(SoFar(l, s, b, k)))
  }

  /** A barrier keeps its block from being in three phases at once. */
  predicate Together(p: Pc, q: Pc) { (Phase(p) == 0 ==> Phase(q) <= 1) && (Phase(p) <= 2 ==> Phase(q) <= 3) }

  lemma WrapZero()
    ensures Wrap(0) == 0
  {
    CentredFits(0, WORD);
  }

  lemma NoneCounted(l: Launch, s: Block, b: nat, k: nat, t: nat)
    requires BlockInv(l, s, b) && t < l.dim && Phase(s.pcs[t]) == 0
    ensures SoFar(l, s, b, k) == 0
  {
    forall u: nat | u < l.dim ensures Counted(l, s, b, k, u) == 0 { assert Together(s.pcs[t], s.pcs[u]); }
    TotalZero((u: nat) => Counted(l, s, b, k, u), l.dim);
  }

  /** When no thread has still to count, everything is counted. */
  lemma AllCounted(l: Launch, s: Block, b: nat, k: nat)
    requires |s.pcs| == l.dim && forall u :: 0 <= u < l.dim ==> Phase(s.pcs[u]) >= 3
    ensures SoFar(l, s, b, k) == Samples(l, b, k)
  {
    TotalSame((u: nat) => Counted(l, s, b, k, u), (u: nat) => Hit(l, b, u, k), l.dim);
  }

  lemma SameCount(l: Launch, s: Block, r: Block, b: nat, k: nat, t: nat)
    requires |s.pcs| == |r.pcs| == l.dim && t < l.dim && r.pcs == s.pcs[t := r.pcs[t]]
    requires (Phase(s.pcs[t]) >= 3) == (Phase(r.pcs[t]) >= 3)
    ensures SoFar(l, r, b, k) == SoFar(l, s, b, k)
  {
    TotalSame((u: nat) => Counted(l, s, b, k, u), (u: nat) => Counted(l, r, b, k, u), l.dim);
  }

  // A step keeps it.

  lemma ClearStep(l: Launch, s: Block, b: nat, t: nat)
    requires BlockInv(l, s, b) && t < l.dim && s.pcs[t].Zero? && s.pcs[t].k < BINS
    ensures BlockInv(l, StepBlock(l, s, b, t), b)
  {
    var r := StepBlock(l, s, b, t);
    forall u | 0 <= u < l.dim ensures PcOk(l, r, u) { ClearPc(l, s, b, t, u); }
    forall u, v | 0 <= u < l.dim && 0 <= v < l.dim ensures Together(r.pcs[u], r.pcs[v]) {
      assert Together(s.pcs[u], s.pcs[v]);
    }
    forall k | 0 <= k < BINS && Cleared(l, r, k) ensures r.tile[k] == Wrap(SoFar(l, r, b, k)) { ClearBin(l, s, b, t, k); }
  }

  lemma ClearPc(l: Launch, s: Block, b: nat, t: nat, u: nat)
    requires BlockInv(l, s, b) && t < l.dim && s.pcs[t].Zero? && s.pcs[t].k < BINS && u < l.dim
    ensures PcOk(l, StepBlock(l, s, b, t), u)
  {
    assert PcOk(l, s, u) && Together(s.pcs[t], s.pcs[u]);
    NextOfClass(l.dim, s.pcs[t].k, 0);
  }

  lemma ClearBin(l: Launch, s: Block, b: nat, t: nat, k: nat)
    requires BlockInv(l, s, b) && t < l.dim && s.pcs[t].Zero? && s.pcs[t].k < BINS
    requires k < BINS && Cleared(l, StepBlock(l, s, b, t), k)
    ensures var r := StepBlock(l, s, b, t); r.tile[k] == Wrap(SoFar(l, r, b, k))
  {
    var r := StepBlock(l, s, b, t);
    WrapZero();
    SameCount(l, s, r, b, k, t);
    NoneCounted(l, s, b, k, t);
    assert PcOk(l, s, t);
    if k != s.pcs[t].k { StillCleared(l, s, r, t, k); }
  }

  lemma StillCleared(l: Launch, s: Block, r: Block, t: nat, k: nat)
    requires l.dim > 0 && |s.pcs| == |r.pcs| == l.dim && |s.tile| == BINS && t < l.dim && PcOk(l, s, t) && s.pcs[t].Zero?
    requires k != s.pcs[t].k && r.pcs == s.pcs[t := Zero(s.pcs[t].k + l.dim)] && Cleared(l, r, k)
    ensures Cleared(l, s, k)
  {
    NextOfClass(l.dim, s.pcs[t].k, k);
  }

  /** A step that leaves the tile alone. */
  lemma PlainStep(l: Launch, s: Block, b: nat, t: nat)
    requires BlockInv(l, s, b) && t < l.dim && Passes(l, s, t) && !s.pcs[t].Count? && (s.pcs[t].Zero? ==> s.pcs[t].k >= BINS)
    ensures BlockInv(l, StepBlock(l, s, b, t), b)
  {
    var r := StepBlock(l, s, b, t);
    assert PcOk(l, s, t);
    if s.pcs[t].Fold? || s.pcs[t].Post? { NextOfClass(l.dim, s.pcs[t].k, 0); }
    if s.pcs[t].Wait2? { assert t % l.dim == t by { ModFits(t, l.dim); } }
    forall u | 0 <= u < l.dim ensures PcOk(l, r, u) {
      assert PcOk(l, s, u);
    }
    forall u, v | 0 <= u < l.dim && 0 <= v < l.dim ensures Together(r.pcs[u], r.pcs[v]) {
      assert Together(s.pcs[u], s.pcs[v]);
    }
    forall k | 0 <= k < BINS && Cleared(l, r, k) ensures r.tile[k] == Wrap(SoFar(l, r, b, k)) {
      SameCount(l, s, r, b, k, t);
      assert Cleared(l, s, k);
    }
  }

  lemma CountStep(l: Launch, s: Block, b: nat, t: nat)
    requires BlockInv(l, s, b) && t < l.dim && s.pcs[t].Count?
    ensures BlockInv(l, StepBlock(l, s, b, t), b)
  {
    var r := StepBlock(l, s, b, t);
    forall u | 0 <= u < l.dim ensures PcOk(l, r, u) {
      assert PcOk(l, s, u) && Together(s.pcs[t], s.pcs[u]) && Together(s.pcs[u], s.pcs[t]);
    }
    forall u, v | 0 <= u < l.dim && 0 <= v < l.dim ensures Together(r.pcs[u], r.pcs[v]) {
      assert Together(s.pcs[u], s.pcs[v]) && Together(s.pcs[t], s.pcs[v]) && Together(s.pcs[u], s.pcs[t]);
    }
    forall k | 0 <= k < BINS && Cleared(l, r, k) ensures r.tile[k] == Wrap(SoFar(l, r, b, k)) {
      assert Cleared(l, s, k);
      TotalOne((u: nat) => Counted(l, s, b, k, u), (u: nat) => Counted(l, r, b, k, u), l.dim, t);
      WrapAdd(SoFar(l, s, b, k), 1);
    }
  }

  lemma BlockStep(l: Launch, s: Block, b: nat, t: nat)
    requires BlockInv(l, s, b) && t < l.dim && Passes(l, s, t)
    ensures BlockInv(l, StepBlock(l, s, b, t), b)
  {
    if s.pcs[t].Count? {
      CountStep(l, s, b, t);
    } else if s.pcs[t].Zero? && s.pcs[t].k < BINS {
      ClearStep(l, s, b, t);
    } else {
      PlainStep(l, s, b, t);
    }
  }

  // The global bins

  function Share(l: Launch, w: World, k: nat, b: nat): int {
    if l.dim > 0 && b < |w.blocks| && |w.blocks[b].pcs| == l.dim && Folded(l, w.blocks[b], k) then Samples(l, b, k) else 0
  }

  /** The samples of the blocks that have folded bin k. */
  function Received(l: Launch, w: World, k: nat): int { Total((b: nat) => Share(l, w, k, b), l.grid) }

  predicate WorldInv(l: Launch, init: seq<int>, w: World) {
    && Sized(l, w) && |init| == l.bins
    && (forall b :: 0 <= b < l.grid ==> BlockInv(l, w.blocks[b], b))
    && (forall k :: 0 <= k < l.bins && k < BINS ==> w.bins[k] == Wrap(init[k] + Received(l, w, k)))
    && (forall k :: BINS <= k < l.bins ==> w.bins[k] == init[k])
  }

  /** What folding bin k adds is what the block counted. */
  lemma FoldsAll(l: Launch, s: Block, b: nat, t: nat)
    requires BlockInv(l, s, b) && t < l.dim && Phase(s.pcs[t]) == 4
    ensures forall k :: 0 <= k < BINS ==> s.tile[k] == Wrap(Samples(l, b, k))
  {
    forall u | 0 <= u < l.dim ensures Phase(s.pcs[u]) >= 3 { assert Together(s.pcs[u], s.pcs[t]); }
    forall k | 0 <= k < BINS ensures s.tile[k] == Wrap(Samples(l, b, k)) {
      assert Cleared(l, s, k);
      AllCounted(l, s, b, k);
    }
  }

  lemma SameShare(l: Launch, w: World, r: World, b: nat, k: nat)
    requires Sized(l, w) && Sized(l, r) && b < l.grid && r.blocks == w.blocks[b := r.blocks[b]]
    ensures Received(l, r, k) == Received(l, w, k) - Share(l, w, k, b) + Share(l, r, k, b)
  {
    TotalOne((c: nat) => Share(l, w, k, c), (c: nat) => Share(l, r, k, c), l.grid, b);
  }

  /** A step folds at most the bin its thread is at. */
  lemma FoldedNext(l: Launch, s: Block, b: nat, t: nat, k: nat)
    requires BlockInv(l, s, b) && t < l.dim && Passes(l, s, t) && k < BINS
    ensures var r := StepBlock(l, s, b, t);
      var pc := s.pcs[t];
      Folded(l, r, k) <==> Folded(l, s, k) || ((pc.Fold? || pc.Post?) && pc.k == k && !r.pcs[t].Post?)
  {
    var pc := s.pcs[t];
    assert PcOk(l, s, t);
    if pc.Fold? || pc.Post? { NextOfClass(l.dim, pc.k, k); }
    if pc.Wait2? && k % l.dim == t { AtLeastResidue(k, l.dim); }
  }

  lemma BinsStep(l: Launch, init: seq<int>, w: World, b: nat, t: nat, k: nat)
    requires WorldInv(l, init, w) && CanStep(l, w, b, t) && k < l.bins && k < BINS
    ensures Step(l, w, b, t).bins[k] == Wrap(init[k] + Received(l, Step(l, w, b, t), k))
  {
    var r, s := Step(l, w, b, t), w.blocks[b];
    var pc := s.pcs[t];
    SameShare(l, w, r, b, k);
    FoldedNext(l, s, b, t, k);
    if (pc.Fold? || pc.Post?) && pc.k == k && !r.blocks[b].pcs[t].Post? {
      assert PcOk(l, s, t);
      FoldsAll(l, s, b, t);
      NotYet(l, s, t, k);
      WrapTwice(init[k] + Received(l, w, k), Samples(l, b, k));
    }
  }

  /** Adding what a tile bin holds is adding what it counted. */
  lemma WrapTwice(a: int, n: int)
    ensures Wrap(Wrap(a) + Wrap(n)) == Wrap(a + n)
    ensures Wrap(n) == 0 ==> Wrap(a) == Wrap(a + n)
  {
    WrapAdd(a, Wrap(n));
    WrapAdd(a, n);
  }

  lemma NotYet(l: Launch, s: Block, t: nat, k: nat)
    requires l.dim > 0 && |s.pcs| == l.dim && |s.tile| == BINS && t < l.dim && PcOk(l, s, t)
    requires (s.pcs[t].Fold? || s.pcs[t].Post?) && s.pcs[t].k == k
    ensures !Folded(l, s, k)
  {
  }

  lemma WorldStep(l: Launch, init: seq<int>, w: World, b: nat, t: nat)
    requires WorldInv(l, init, w) && CanStep(l, w, b, t)
    ensures WorldInv(l, init, Step(l, w, b, t))
  {
    var r := Step(l, w, b, t);
    BlockStep(l, w.blocks[b], b, t);
    forall k | 0 <= k < l.bins && k < BINS ensures r.bins[k] == Wrap(init[k] + Received(l, r, k)) {
      BinsStep(l, init, w, b, t, k);
    }
    assert PcOk(l, w.blocks[b], t);
  }

  // Runs

  predicate Runs(l: Launch, w: World, run: seq<(nat, nat)>)
    decreases |run|
  {
    run == [] || (CanStep(l, w, run[0].0, run[0].1) && Runs(l, Step(l, w, run[0].0, run[0].1), run[1..]))
  }

  function After(l: Launch, w: World, run: seq<(nat, nat)>): World
    requires Runs(l, w, run)
    decreases |run|
  {
    if run == [] then w else After(l, Step(l, w, run[0].0, run[0].1), run[1..])
  }

  lemma {:induction false} RunKeeps(l: Launch, init: seq<int>, w: World, run: seq<(nat, nat)>)
    requires WorldInv(l, init, w) && Runs(l, w, run)
    ensures WorldInv(l, init, After(l, w, run))
    decreases |run|
  {
    if run != [] {
      WorldStep(l, init, w, run[0].0, run[0].1);
      RunKeeps(l, init, Step(l, w, run[0].0, run[0].1), run[1..]);
    }
  }

  /** Every thread about to clear its first bin, whatever the tiles hold. */
  predicate AtStart(l: Launch, init: seq<int>, w: World) {
    && Sized(l, w) && w.bins == init
    && (forall k :: 0 <= k < |init| ==> 0 - WORD <= 2 * init[k] < WORD)
    && forall b, t :: 0 <= b < l.grid && 0 <= t < l.dim ==> w.blocks[b].pcs[t] == Zero(t)
  }

  lemma StartKeeps(l: Launch, init: seq<int>, w: World)
    requires AtStart(l, init, w)
    ensures WorldInv(l, init, w)
  {
    forall b | 0 <= b < l.grid ensures BlockInv(l, w.blocks[b], b) { StartBlock(l, w.blocks[b], b); }
    forall k | 0 <= k < l.bins && k < BINS ensures w.bins[k] == Wrap(init[k] + Received(l, w, k)) {
      forall b: nat | b < l.grid ensures Share(l, w, k, b) == 0 {
        ModFits(k, l.dim);
        assert w.blocks[b].pcs[k % l.dim] == Zero(k % l.dim);
      }
      TotalZero((b: nat) => Share(l, w, k, b), l.grid);
      CentredFits(init[k], WORD);
    }
  }

  lemma StartBlock(l: Launch, s: Block, b: nat)
    requires l.dim > 0 && |s.pcs| == l.dim && |s.tile| == BINS && forall t :: 0 <= t < l.dim ==> s.pcs[t] == Zero(t)
    ensures BlockInv(l, s, b)
  {
    forall t | 0 <= t < l.dim ensures PcOk(l, s, t) { ModFits(t, l.dim); }
    forall k | 0 <= k < BINS ensures !Cleared(l, s, k) {
      AtLeastResidue(k, l.dim);
      ModFits(k, l.dim);
      assert s.pcs[k % l.dim] == Zero(k % l.dim);
    }
  }

  // The result

  /** How many of the first n samples are k. */
  function Occurrences(x: seq<int>, n: nat, k: int): int {
    if n == 0 then 0 else Occurrences(x, n - 1, k) + (if n - 1 < |x| && x[n - 1] == k then 1 else 0)
  }

  lemma {:induction false} BlockOccurrences(l: Launch, b: nat, k: nat, t: nat)
    ensures Occurrences(l.x, b * l.dim + t, k) == Occurrences(l.x, b * l.dim, k) + Total((u: nat) => Hit(l, b, u, k), t)
  {
    if t > 0 { BlockOccurrences(l, b, k, t - 1); }
  }

  lemma {:induction false} GridOccurrences(l: Launch, k: nat, n: nat)
    ensures Total((b: nat) => Samples(l, b, k), n) == Occurrences(l.x, n * l.dim, k)
  {
    if n > 0 {
      GridOccurrences(l, k, n - 1);
      BlockOccurrences(l, n - 1, k, l.dim);
      Distribute(n - 1, 1, l.dim);
    }
  }

  predicate AllDone(l: Launch, w: World) {
    Sized(l, w) && forall b, t :: 0 <= b < l.grid && 0 <= t < l.dim ==> w.blocks[b].pcs[t].Done?
  }

  /** When everybody is done every block has folded every bin. */
  lemma AllReceived(l: Launch, w: World, k: nat)
    requires AllDone(l, w) && k < BINS
    ensures Received(l, w, k) == Occurrences(l.x, l.grid * l.dim, k)
  {
    forall b: nat | b < l.grid ensures Share(l, w, k, b) == Samples(l, b, k) {
      ModFits(k, l.dim);
      assert w.blocks[b].pcs[k % l.dim].Done?;
    }
    TotalSame((b: nat) => Share(l, w, k, b), (b: nat) => Samples(l, b, k), l.grid);
    GridOccurrences(l, k, l.grid);
  }

  lemma FinishedBins(l: Launch, init: seq<int>, w: World, k: nat)
    requires WorldInv(l, init, w) && AllDone(l, w) && k < l.bins
    ensures w.bins[k] == if k < BINS then Wrap(init[k] + Occurrences(l.x, l.grid * l.dim, k)) else init[k]
  {
    if k < BINS { AllReceived(l, w, k); }
  }

  /** However the threads and blocks interleave, a finished launch has added to every bin the number of
      covered samples equal to it, modulo 2^32, and left the others alone. */
  lemma HistogramCounts(l: Launch, init: seq<int>, w: World, run: seq<(nat, nat)>, k: nat)
    requires AtStart(l, init, w) && Runs(l, w, run) && AllDone(l, After(l, w, run)) && k < l.bins
    ensures After(l, w, run).bins[k] == if k < BINS then Wrap(init[k] + Occurrences(l.x, l.grid * l.dim, k)) else init[k]
  {
    StartKeeps(l, init, w);
    RunKeeps(l, init, w, run);
    FinishedBins(l, init, After(l, w, run), k);
  }

  // Progress

  lemma {:induction false} Slowest(l: Launch, s: Block, n: nat) returns (u: nat)
    requires |s.pcs| == l.dim && 0 < n <= l.dim
    ensures u < n && forall v :: 0 <= v < n ==> Phase(s.pcs[u]) <= Phase(s.pcs[v])
    decreases n
  {
    u := n - 1;
    if n > 1 {
      var v := Slowest(l, s, n - 1);
      if Phase(s.pcs[v]) < Phase(s.pcs[u]) { u := v; }
    }
  }

  lemma SomebodyPasses(l: Launch, s: Block, t: nat) returns (u: nat)
    requires |s.pcs| == l.dim && t < l.dim && !s.pcs[t].Done?
    ensures u < l.dim && Passes(l, s, u)
  {
    u := Slowest(l, s, l.dim);
    if s.pcs[u].Done? { u := t; }
  }

  /** No launch is stuck: until it is finished some thread can step. */
  lemma SomebodySteps(l: Launch, w: World, run: seq<(nat, nat)>)
    requires Sized(l, w) && Runs(l, w, run) && !AllDone(l, After(l, w, run))
    ensures exists b, t :: CanStep(l, After(l, w, run), b, t)
  {
    StaysSized(l, w, run);
    var v := After(l, w, run);
    var b, t :| 0 <= b < l.grid && 0 <= t < l.dim && !v.blocks[b].pcs[t].Done?;
    var u := SomebodyPasses(l, v.blocks[b], t);
    assert CanStep(l, v, b, u);
  }

  lemma {:induction false} StaysSized(l: Launch, w: World, run: seq<(nat, nat)>)
    requires Sized(l, w) && Runs(l, w, run)
    ensures Sized(l, After(l, w, run))
    decreases |run|
  {
    if run != [] { StaysSized(l, Step(l, w, run[0].0, run[0].1), run[1..]); }
  }

  /** How many steps a thread has before it at most. */
  function Left(pc: Pc): nat {
    match pc
    case Zero(k) => 2 * BINS + 5 + if k < BINS then BINS - k else 0
    case Wait1 => 2 * BINS + 4
    case Count => 2 * BINS + 3
    case Wait2 => 2 * BINS + 2
    case Fold(k) => if k < BINS then 2 * (BINS - k) + 1 else 1
    case Post(k, _) => if k < BINS then 2 * (BINS - k) else 1
    case Done => 0
  }

  function BlockLeft(s: Block): int { Total((t: nat) => if t < |s.pcs| then Left(s.pcs[t]) else 0, |s.pcs|) }

  function AllLeft(w: World): int { Total((b: nat) => if b < |w.blocks| then BlockLeft(w.blocks[b]) else 0, |w.blocks|) }

  lemma PcLeft(l: Launch, s: Block, b: nat, t: nat)
    requires BlockInv(l, s, b) && t < l.dim && Passes(l, s, t)
    ensures Left(StepBlock(l, s, b, t).pcs[t]) < Left(s.pcs[t])
  {
    assert PcOk(l, s, t);
  }

  lemma StepLeft(l: Launch, init: seq<int>, w: World, b: nat, t: nat)
    requires WorldInv(l, init, w) && CanStep(l, w, b, t)
    ensures AllLeft(Step(l, w, b, t)) < AllLeft(w)
  {
    var r := Step(l, w, b, t);
    var s, q := w.blocks[b], r.blocks[b];
    PcLeft(l, s, b, t);
    TotalOne((u: nat) => if u < |s.pcs| then Left(s.pcs[u]) else 0, (u: nat) => if u < |q.pcs| then Left(q.pcs[u]) else 0, l.dim, t);
    TotalOne((c: nat) => if c < |w.blocks| then BlockLeft(w.blocks[c]) else 0,
      (c: nat) => if c < |r.blocks| then BlockLeft(r.blocks[c]) else 0, l.grid, b);
  }

  lemma NothingNegative(w: World)
    ensures AllLeft(w) >= 0
  {
    forall b: nat | b < |w.blocks| ensures BlockLeft(w.blocks[b]) >= 0 {
      TotalNatural((t: nat) => if t < |w.blocks[b].pcs| then Left(w.blocks[b].pcs[t]) else 0, |w.blocks[b].pcs|);
    }
    TotalNatural((b: nat) => if b < |w.blocks| then BlockLeft(w.blocks[b]) else 0, |w.blocks|);
  }

  /** And it always finishes: no run is longer than the work there is at the start. */
  lemma {:induction false} RunsEnd(l: Launch, init: seq<int>, w: World, run: seq<(nat, nat)>)
    requires WorldInv(l, init, w) && Runs(l, w, run)
    ensures |run| <= AllLeft(w)
    decreases |run|
  {
    if run == [] {
      NothingNegative(w);
    } else {
      var r := Step(l, w, run[0].0, run[0].1);
      WorldStep(l, init, w, run[0].0, run[0].1);
      StepLeft(l, init, w, run[0].0, run[0].1);
      RunsEnd(l, init, r, run[1..]);
    }
  }
}
