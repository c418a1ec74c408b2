/** The histogram over the block barrier of gpu/gpu.go, in place of a guard on the whole block. */
module HistogramWait {
  import opened Basics
  import opened Histogram
  import opened BlockWait
  import Barrier

  function Where(pc: Pc): Place {
    match pc
    case Zero(_) => Busy(0)
    case Wait1 => AtWait(0)
    case Count => Busy(1)
    case Wait2 => AtWait(1)
    case Fold(_) => Busy(2)
    case Post(_, _) => Busy(2)
    case Done => Away
  }

  predicate Within(l: Launch, w: World, b: nat, t: nat) { Sized(l, w) && b < l.grid && t < l.dim }

  function KernelOf(l: Launch): BlockWait.Kernel<World> {
    BlockWait.Kernel(l.grid, l.dim, 2, (w: World) => Sized(l, w),
      (w: World, b: nat, t: nat) => if Within(l, w, b, t) then Where(w.blocks[b].pcs[t]) else Away,
      (w: World, b: nat, t: nat) => if Within(l, w, b, t) then Act(l, w, b, t) else w)
  }

  lemma KernelLawful(l: Launch)
    ensures Lawful(KernelOf(l))
  {
    var k := KernelOf(l);
    forall w: World, b: nat, t: nat | k.ok(w) && b < k.blocks && t < k.threads && !k.place(w, b, t).Away?
      ensures MovesOne(k, w, b, t, k.act(w, b, t))
    {
      ActLawful(l, w, b, t);
    }
  }

  lemma ActLawful(l: Launch, w: World, b: nat, t: nat)
    requires Within(l, w, b, t) && !w.blocks[b].pcs[t].Done?
    ensures MovesOne(KernelOf(l), w, b, t, Act(l, w, b, t))
  {
    OnlyOne(l, w.blocks[b], b, t);
  }

  lemma OnlyOne(l: Launch, s: Block, b: nat, t: nat)
    requires l.dim > 0 && |s.pcs| == l.dim && |s.tile| == BINS && t < l.dim && !s.pcs[t].Done?
    ensures var r := StepBlock(l, s, b, t); r.pcs == s.pcs[t := r.pcs[t]] && Follows(2, Where(s.pcs[t]), Where(r.pcs[t]))
  {
  }

  /** The guards of the two waits are those of the histogram. */
  lemma GuardIs(l: Launch, w: World, b: nat, t: nat)
    requires Guarded(KernelOf(l), w, b, t)
    ensures CanStep(l, w, b, t) && KernelOf(l).act(w, b, t) == Step(l, w, b, t)
  {
    var p, s := Places(KernelOf(l), w, b), w.blocks[b];
    forall u | 0 <= u < l.dim ensures s.pcs[t].Wait1? ==> Phase(s.pcs[u]) >= 1
      ensures s.pcs[t].Wait2? ==> Phase(s.pcs[u]) >= 3
    {
      assert p[u] == Where(s.pcs[u]) && p[t] == Where(s.pcs[t]);
    }
  }

  lemma {:induction false} RunIs(l: Launch, w: World, run: seq<(nat, nat)>)
    requires GuardedRun(KernelOf(l), w, run)
    ensures Runs(l, w, run) && After(l, w, run) == GuardedAfter(KernelOf(l), w, run)
    decreases |run|
  {
    if run != [] {
      GuardIs(l, w, run[0].0, run[0].1);
      RunIs(l, Step(l, w, run[0].0, run[0].1), run[1..]);
    }
  }

  /** A launch beside its barriers. */
  function Beginning(l: Launch, w: World): Machine<World> { Machine(w, seq(l.grid, _ => Barrier.Start(l.dim))) }

  lemma BeginsCoupled(l: Launch, init: seq<int>, w: World)
    requires AtStart(l, init, w)
    ensures AllCoupled(KernelOf(l), Beginning(l, w))
  {
    forall b | 0 <= b < l.grid ensures Coupled(2, Places(KernelOf(l), w, b), Barrier.Start(l.dim)) {
      var p := Places(KernelOf(l), w, b);
      forall t | 0 <= t < l.dim ensures p[t] == Busy(0) { assert w.blocks[b].pcs[t] == Zero(t); }
      StartCoupled(2, p);
    }
  }

  lemma BarrierRun(l: Launch, init: seq<int>, w: World, run: seq<(nat, nat)>) returns (part: seq<(nat, nat)>)
    requires AtStart(l, init, w) && Moves(KernelOf(l), Beginning(l, w), run)
    ensures Runs(l, w, part) && After(l, w, part) == MovesAfter(KernelOf(l), Beginning(l, w), run).s
    ensures AllCoupled(KernelOf(l), MovesAfter(KernelOf(l), Beginning(l, w), run))
  {
    KernelLawful(l);
    BeginsCoupled(l, init, w);
    part := RunGuarded(KernelOf(l), Beginning(l, w), run);
    RunIs(l, w, part);
  }

  /** Over the real barrier, too, every finished launch has counted every covered sample. */
  lemma CountsOverBarrier(l: Launch, init: seq<int>, w: World, run: seq<(nat, nat)>, k: nat)
    requires AtStart(l, init, w) && Moves(KernelOf(l), Beginning(l, w), run) && k < l.bins
    requires AllDone(l, MovesAfter(KernelOf(l), Beginning(l, w), run).s)
    ensures MovesAfter(KernelOf(l), Beginning(l, w), run).s.bins[k] ==
      if k < BINS then Wrap(init[k] + Occurrences(l.x, l.grid * l.dim, k)) else init[k]
  {
    var part := BarrierRun(l, init, w, run);
    HistogramCounts(l, init, w, part, k);
  }

  /** And none is stuck at it before it is finished. */
  lemma NeverStuck(l: Launch, init: seq<int>, w: World, run: seq<(nat, nat)>)
    requires AtStart(l, init, w) && Moves(KernelOf(l), Beginning(l, w), run)
    requires !AllDone(l, MovesAfter(KernelOf(l), Beginning(l, w), run).s)
    ensures exists b, t :: CanMove(KernelOf(l), MovesAfter(KernelOf(l), Beginning(l, w), run), b, t)
  {
    var part := BarrierRun(l, init, w, run);
    var b, t := Movable(l, MovesAfter(KernelOf(l), Beginning(l, w), run));
  }

  lemma Movable(l: Launch, m: Machine<World>) returns (b: nat, t: nat)
    requires AllCoupled(KernelOf(l), m) && !AllDone(l, m.s)
    ensures CanMove(KernelOf(l), m, b, t)
  {
    var u: nat;
    b, u :| b < l.grid && u < l.dim && !m.s.blocks[b].pcs[u].Done?;
    assert !KernelOf(l).place(m.s, b, u).Away?;
    t := BlockWait.SomebodyMoves(KernelOf(l), m, b);
  }
}
