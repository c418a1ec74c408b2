/** The fused kernel over the block barrier of gpu/gpu.go, in place of a guard on the whole block. */
module TileWait {
  import opened Basics
  import opened TileGraph
  import opened TileKernel
  import opened TileRun
  import opened BlockWait
  import Barrier

  /** A thread has passed the barriers of the windows it has summed. */
  function Where(l: Launch, pc: Pc): Place {
    match pc
    case Stage(j, _) => Busy(j)
    case Wait(j) => AtWait(j)
    case Term(j, _, _) => Busy(j + 1)
    case Store => Busy(|l.k.windows|)
    case Done => Away
  }

  predicate Within(l: Launch, w: World, b: nat, t: nat) { Shaped(l, w) && b < l.grid && t < l.dim }

  function KernelOf(l: Launch): BlockWait.Kernel<World> {
    BlockWait.Kernel(l.grid, l.dim, |l.k.windows|, (w: World) => Shaped(l, w),
      (w: World, b: nat, t: nat) => if Within(l, w, b, t) then Where(l, w.blocks[b].threads[t].pc) else Away,
      (w: World, b: nat, t: nat) => if Within(l, w, b, t) then Act(l, w, b, t) else w)
  }

  lemma StaysShaped(l: Launch, s: Block, base: nat, t: nat)
    requires l.root < |l.nodes| && ShapedBlock(l, s) && t < l.dim
    ensures ShapedBlock(l, StepBlock(l, s, base, t).0)
  {
  }

  lemma FollowsWhere(l: Launch, s: Block, base: nat, t: nat)
    requires l.root < |l.nodes| && ShapedBlock(l, s) && t < l.dim && !s.threads[t].pc.Done?
    ensures var r := StepBlock(l, s, base, t).0;
      |r.threads| == l.dim && Follows(|l.k.windows|, Where(l, s.threads[t].pc), Where(l, r.threads[t].pc))
  {
  }

  lemma KernelLawful(l: Launch)
    ensures Lawful(KernelOf(l))
  {
    var k := KernelOf(l);
    forall w: World, b: nat, t: nat | k.ok(w) && b < k.blocks && t < k.threads && !k.place(w, b, t).Away?
      ensures MovesOne(k, w, b, t, k.act(w, b, t))
    {
      ActLawful(l, w, b, t);
    }
  }

  lemma ActLawful(l: Launch, w: World, b: nat, t: nat)
    requires Within(l, w, b, t) && !w.blocks[b].threads[t].pc.Done?
    ensures MovesOne(KernelOf(l), w, b, t, Act(l, w, b, t))
  {
    StaysShaped(l, w.blocks[b], Base(b, l.dim), t);
    FollowsWhere(l, w.blocks[b], Base(b, l.dim), t);
    OnlyOne(l, w.blocks[b], Base(b, l.dim), t);
  }

  /** The guard of a wait is that of the fused kernel. */
  lemma GuardIs(l: Launch, w: World, b: nat, t: nat)
    requires Guarded(KernelOf(l), w, b, t)
    ensures CanStep(l, w, b, t) && KernelOf(l).act(w, b, t) == Step(l, w, b, t)
  {
    var p := Places(KernelOf(l), w, b);
    forall u | 0 <= u < l.dim && w.blocks[b].threads[t].pc.Wait?
      ensures Rank(l, w.blocks[b].threads[u].pc) >= 3 * w.blocks[b].threads[t].pc.j + 1
    {
      assert Came(p[u], w.blocks[b].threads[t].pc.j);
      assert InProgram(l, w.blocks[b].threads[t].pc);
    }
  }

  lemma {:induction false} RunIs(l: Launch, w: World, run: seq<(nat, nat)>)
    requires GuardedRun(KernelOf(l), w, run)
    ensures Runs(l, w, run) && After(l, w, run) == GuardedAfter(KernelOf(l), w, run)
    decreases |run|
  {
    if run != [] {
      GuardIs(l, w, run[0].0, run[0].1);
      RunIs(l, Step(l, w, run[0].0, run[0].1), run[1..]);
    }
  }

  /** A launch beside its barriers. */
  function Beginning(l: Launch, w: World): Machine<World> { Machine(w, seq(l.grid, _ => Barrier.Start(l.dim))) }

  lemma BeginsCoupled(l: Launch, w: World)
    requires AtStart(l, w)
    ensures AllCoupled(KernelOf(l), Beginning(l, w))
  {
    forall b | 0 <= b < l.grid ensures Coupled(|l.k.windows|, Places(KernelOf(l), w, b), Barrier.Start(l.dim)) {
      var p := Places(KernelOf(l), w, b);
      forall t | 0 <= t < l.dim ensures p[t] == Busy(0) { assert w.blocks[b].threads[t].pc == Enter(l, 0, t); }
      StartCoupled(|l.k.windows|, p);
    }
  }

  /** What the threads do between arrivals and returns is a run of the fused kernel. */
  lemma BarrierRun(l: Launch, w: World, run: seq<(nat, nat)>) returns (part: seq<(nat, nat)>)
    requires AtStart(l, w) && Moves(KernelOf(l), Beginning(l, w), run)
    ensures Runs(l, w, part) && After(l, w, part) == MovesAfter(KernelOf(l), Beginning(l, w), run).s
    ensures AllCoupled(KernelOf(l), MovesAfter(KernelOf(l), Beginning(l, w), run))
  {
    KernelLawful(l);
    BeginsCoupled(l, w);
    part := RunGuarded(KernelOf(l), Beginning(l, w), run);
    RunIs(l, w, part);
  }

  /** So over the real barrier, too, every finished run leaves the meaning of the graph, and none makes a
      fault. */
  lemma FusedOverBarrier(l: Launch, w: World, run: seq<(nat, nat)>, i: nat)
    requires AtStart(l, w) && Moves(KernelOf(l), Beginning(l, w), run) && i < Len(l)
    ensures var r := MovesAfter(KernelOf(l), Beginning(l, w), run).s;
      !r.fault && (Finished(l, r) ==> |r.out| == Len(l) && r.out[i] == Some(Meaning(l.o, l.nodes, l.root)[i]))
  {
    var part := BarrierRun(l, w, run);
    FusedIsSafe(l, w, part);
    if Finished(l, After(l, w, part)) { FusedIsMeaning(l, w, part, i); }
  }

  /** And none is stuck at it before it is finished. */
  lemma NeverStuck(l: Launch, w: World, run: seq<(nat, nat)>)
    requires AtStart(l, w) && Moves(KernelOf(l), Beginning(l, w), run)
    requires !Finished(l, MovesAfter(KernelOf(l), Beginning(l, w), run).s)
    ensures exists b, t :: CanMove(KernelOf(l), MovesAfter(KernelOf(l), Beginning(l, w), run), b, t)
  {
    var part := BarrierRun(l, w, run);
    var b, t := Movable(l, MovesAfter(KernelOf(l), Beginning(l, w), run));
  }

  lemma Movable(l: Launch, m: Machine<World>) returns (b: nat, t: nat)
    requires AllCoupled(KernelOf(l), m) && !Finished(l, m.s)
    ensures CanMove(KernelOf(l), m, b, t)
  {
    var u: nat;
    b, u :| b < l.grid && u < l.dim && !m.s.blocks[b].threads[u].pc.Done?;
    assert !KernelOf(l).place(m.s, b, u).Away?;
    t := BlockWait.SomebodyMoves(KernelOf(l), m, b);
  }
}
