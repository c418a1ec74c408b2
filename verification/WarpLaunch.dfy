/** A whole launch of the reduction in kernels/warpreduce.go: the guarded load, the warps in any
    interleaving, and the store of lane 0. */
module WarpLaunch {
  import opened Basics
  import opened Barrier
  import opened WarpExchange
  import opened WarpReduce

  /** So many whole warps over an input and an output of any length. */
  datatype Launch = Launch(plus: (int, int) -> int, x: seq<int>, warps: nat)

  datatype Grid = Grid(warps: seq<Warp>, out: seq<int>)

  function Program(l: Launch): WarpExchange.Program { Reduction(l.plus) }

  /** What the lanes of warp w start with: a thread past the end of the input has a zero. */
  function Loaded(l: Launch, w: nat): (r: seq<int>)
    ensures |r| == WARP_SIZE
  {
    seq(WARP_SIZE, j requires 0 <= j => if w * WARP_SIZE + j < |l.x| then l.x[w * WARP_SIZE + j] else 0)
  }

  predicate AtStart(l: Launch, s: Grid) {
    |s.warps| == l.warps && forall w :: 0 <= w < l.warps ==> s.warps[w] == Begin(Loaded(l, w))
  }

  predicate CanStep(l: Launch, s: Grid, w: nat, lane: nat) {
    |s.warps| == l.warps && w < l.warps && CanMove(s.warps[w], lane)
  }

  /** A lane that asks for nothing more leaves, and lane 0 stores on its way out. */
  predicate Stores(l: Launch, v: Warp, lane: nat)
    requires lane < |v.lanes|
  {
    lane == 0 && v.lanes[0].Idle? && Program(l).ask(0, v.lanes[0].k, v.lanes[0].acc).None?
  }

  function Step(l: Launch, s: Grid, w: nat, lane: nat): Grid
    requires CanStep(l, s, w, lane)
  {
    Grid(s.warps[w := Move(Program(l), s.warps[w], lane)],
          if Stores(l, s.warps[w], lane) && w < |s.out| then s.out[w := s.warps[w].lanes[0].acc] else s.out)
  }

  predicate Runs(l: Launch, s: Grid, run: seq<(nat, nat)>)
    decreases |run|
  {
    run == [] || (CanStep(l, s, run[0].0, run[0].1) && Runs(l, Step(l, s, run[0].0, run[0].1), run[1..]))
  }

  function After(l: Launch, s: Grid, run: seq<(nat, nat)>): Grid
    requires Runs(l, s, run)
    decreases |run|
  {
    if run == [] then s else After(l, Step(l, s, run[0].0, run[0].1), run[1..])
  }

  predicate AllOut(s: Grid) {
    forall w, lane :: 0 <= w < |s.warps| && 0 <= lane < |s.warps[w].lanes| ==> s.warps[w].lanes[lane].Out?
  }

  // What holds of a launch

  predicate OutOk(l: Launch, s: Grid, init: seq<int>, w: nat)
    requires w < |s.out| == |init| && |s.warps| == l.warps
  {
    s.out[w] ==
      if w < l.warps && |s.warps[w].lanes| > 0 && s.warps[w].lanes[0].Out? then Tree(l.plus, Loaded(l, w), ROUNDS, 0)
      else init[w]
  }

  ghost predicate LaunchInv(l: Launch, init: seq<int>, s: Grid) {
    && |s.warps| == l.warps && |s.out| == |init|
    && (forall w :: 0 <= w < l.warps ==> InStep(Program(l), Loaded(l, w), s.warps[w]))
    && forall w :: 0 <= w < |s.out| ==> OutOk(l, s, init, w)
  }

  lemma StartInv(l: Launch, s: Grid)
    requires AtStart(l, s)
    ensures LaunchInv(l, s.out, s)
  {
    forall w | 0 <= w < l.warps ensures InStep(Program(l), Loaded(l, w), s.warps[w]) {
      BeginInStep(Program(l), Loaded(l, w));
    }
  }

  /** What lane 0 has in hand when it leaves is the tree of its warp. */
  lemma LeavesWithTree(plus: (int, int) -> int, x: seq<int>, k: nat, acc: int)
    requires |x| == WARP_SIZE && Off(k) == 0 && Level(Reduction(plus), x, k)[0] == Some(acc)
    ensures k == ROUNDS && acc == Tree(plus, x, k, 0)
  {
    NoMoreRounds(plus, x, k, 0);
    AllTake(plus, x, k);
    LastTree(plus, x, k);
    FiveRounds(k);
  }

  /** A lane that is idle holds what lockstep gives it. */
  lemma IdleHolds(p: WarpExchange.Program, init: seq<int>, v: Warp, lane: nat)
    requires InStep(p, init, v) && lane < |v.lanes| && v.lanes[lane].Idle?
    ensures Level(p, init, v.lanes[lane].k)[lane] == Some(v.lanes[lane].acc)
  {
    assert LaneOk(p, init, Cur(v.bar), lane, v.lanes[lane], v.slots[lane], v.ops[lane]);
  }

  /** A move changes its own lane only, and takes it out exactly where it asks for nothing. */
  lemma MoveLeaves(p: WarpExchange.Program, v: Warp, lane: nat)
    requires CanMove(v, lane)
    ensures forall j :: 0 <= j < |v.lanes| && j != lane ==> Move(p, v, lane).lanes[j] == v.lanes[j]
    ensures Move(p, v, lane).lanes[lane].Out? <==> v.lanes[lane].Idle? && p.ask(lane, v.lanes[lane].k, v.lanes[lane].acc).None?
  {
  }

  lemma StoresTree(l: Launch, v: Warp, w: nat)
    requires InStep(Program(l), Loaded(l, w), v) && |v.lanes| > 0 && Stores(l, v, 0)
    ensures v.lanes[0].acc == Tree(l.plus, Loaded(l, w), ROUNDS, 0)
  {
    IdleHolds(Program(l), Loaded(l, w), v, 0);
    LeavesWithTree(l.plus, Loaded(l, w), v.lanes[0].k, v.lanes[0].acc);
  }

  lemma StepInv(l: Launch, init: seq<int>, s: Grid, w: nat, lane: nat)
    requires LaunchInv(l, init, s) && CanStep(l, s, w, lane)
    ensures LaunchInv(l, init, Step(l, s, w, lane))
  {
    var r := Step(l, s, w, lane);
    MoveInStep(Program(l), Loaded(l, w), s.warps[w], lane);
    MoveLeaves(Program(l), s.warps[w], lane);
    forall v | 0 <= v < |r.out| ensures OutOk(l, r, init, v) {
      assert OutOk(l, s, init, v);
      if v == w { OutStep(l, s, init, w, lane); }
    }
  }

  /** The word of its own warp. */
  lemma OutStep(l: Launch, s: Grid, init: seq<int>, w: nat, lane: nat)
    requires CanStep(l, s, w, lane) && InStep(Program(l), Loaded(l, w), s.warps[w]) && w < |s.out| == |init| && OutOk(l, s, init, w)
    ensures OutOk(l, Step(l, s, w, lane), init, w)
  {
    MoveLeaves(Program(l), s.warps[w], lane);
    if Stores(l, s.warps[w], lane) { StoresTree(l, s.warps[w], w); }
  }

  lemma {:induction false} RunInv(l: Launch, init: seq<int>, s: Grid, run: seq<(nat, nat)>)
    requires LaunchInv(l, init, s) && Runs(l, s, run)
    ensures LaunchInv(l, init, After(l, s, run))
    decreases |run|
  {
    if run != [] {
      StepInv(l, init, s, run[0].0, run[0].1);
      RunInv(l, init, Step(l, s, run[0].0, run[0].1), run[1..]);
    }
  }

  /** In every interleaving of every launch of whole warps, a finished kernel has left in out, for each
      warp, the balanced tree of its 32 inputs padded with zeros, and nothing else has changed. */
  lemma OutHoldsTrees(l: Launch, s: Grid, run: seq<(nat, nat)>, w: nat)
    requires AtStart(l, s) && Runs(l, s, run) && AllOut(After(l, s, run)) && w < |s.out|
    ensures |After(l, s, run).out| == |s.out|
    ensures After(l, s, run).out[w] == if w < l.warps then Tree(l.plus, Loaded(l, w), ROUNDS, 0) else s.out[w]
  {
    StartInv(l, s);
    RunInv(l, s.out, s, run);
    var r := After(l, s, run);
    assert OutOk(l, r, s.out, w);
    if w < l.warps { assert InStep(Program(l), Loaded(l, w), r.warps[w]); }
  }

  /** With an associative and commutative plus, the sum of the warp. */
  lemma OutHoldsSums(l: Launch, s: Grid, run: seq<(nat, nat)>, w: nat)
    requires Commutes(l.plus) && AtStart(l, s) && Runs(l, s, run) && AllOut(After(l, s, run)) && w < |s.out| && w < l.warps
    ensures |After(l, s, run).out| == |s.out| && After(l, s, run).out[w] == Sum(l.plus, Loaded(l, w))
  {
    OutHoldsTrees(l, s, run, w);
    FiveRounds(ROUNDS);
    TreeIsSum(l.plus, Loaded(l, w), ROUNDS);
  }

  /** The input and the zeros past its end, for every thread of the launch. */
  function Padded(l: Launch, n: nat): (r: seq<int>)
    ensures |r| == n
  {
    seq(n, i requires 0 <= i => if i < |l.x| then l.x[i] else 0)
  }

  lemma PaddedNext(l: Launch, w: nat)
    ensures Padded(l, (w + 1) * WARP_SIZE) == Padded(l, w * WARP_SIZE) + Loaded(l, w)
  {
  }

  /** Conservation: the sums that a finished launch leaves in out add up to the sum of the whole padded
      input, each element counted once. */
  lemma {:induction false} TotalIsKept(l: Launch, s: Grid, run: seq<(nat, nat)>, n: nat)
    requires Commutes(l.plus) && AtStart(l, s) && Runs(l, s, run) && AllOut(After(l, s, run))
    requires 0 < n <= l.warps && n <= |s.out|
    ensures |After(l, s, run).out| == |s.out|
    ensures Sum(l.plus, After(l, s, run).out[..n]) == Sum(l.plus, Padded(l, n * WARP_SIZE))
    decreases n
  {
    var out := After(l, s, run).out;
    OutHoldsSums(l, s, run, n - 1);
    PaddedNext(l, n - 1);
    if n == 1 {
      FirstIsSum(l.plus, out);
      assert Padded(l, 0) + Loaded(l, 0) == Loaded(l, 0);
    } else {
      TotalIsKept(l, s, run, n - 1);
      SumJoin(l.plus, Padded(l, (n - 1) * WARP_SIZE), Loaded(l, n - 1));
      assert out[..n][..n - 1] == out[..n - 1];
    }
  }

  /** No launch is stuck before every lane is out. */
  lemma SomebodySteps(l: Launch, s: Grid, run: seq<(nat, nat)>)
    requires AtStart(l, s) && Runs(l, s, run) && !AllOut(After(l, s, run))
    ensures exists w, lane :: CanStep(l, After(l, s, run), w, lane)
  {
    StartInv(l, s);
    RunInv(l, s.out, s, run);
    var r := After(l, s, run);
    var w, lane: nat :| 0 <= w < |r.warps| && lane < |r.warps[w].lanes| && !r.warps[w].lanes[lane].Out?;
    var m := MovableLane(Program(l), Loaded(l, w), r.warps[w], lane);
    assert CanStep(l, r, w, m);
  }

  /** The rounds from round k on, and what a lane has before it in one of them. */
  function RoundsLeft(k: nat): nat { if k < ROUNDS then ROUNDS - k else 0 }

  function Left(s: Lane): nat {
    match s
    case Idle(k, _) => 7 * RoundsLeft(k) + 1
    case Wrote(k, _, _) => 7 * RoundsLeft(k + 1) + 7
    case Named(k, _, _) => 7 * RoundsLeft(k + 1) + 6
    case Meeting(k, _, _, _) => 7 * RoundsLeft(k + 1) + 5
    case Met(k, _, _, _) => 7 * RoundsLeft(k + 1) + 4
    case Read(k, _, _, _, _) => 7 * RoundsLeft(k + 1) + 3
    case Parting(k, _, _, _) => 7 * RoundsLeft(k + 1) + 2
    case Out => 0
  }

  function WarpLeft(v: Warp): int { Total((j: nat) => if j < |v.lanes| then Left(v.lanes[j]) else 0, |v.lanes|) }

  function AllLeft(s: Grid): int { Total((w: nat) => if w < |s.warps| then WarpLeft(s.warps[w]) else 0, |s.warps|) }

  lemma LaneLeft(plus: (int, int) -> int, v: Warp, lane: nat)
    requires CanMove(v, lane)
    ensures Left(Move(Reduction(plus), v, lane).lanes[lane]) < Left(v.lanes[lane])
  {
  }

  lemma WarpStepLeft(plus: (int, int) -> int, v: Warp, lane: nat)
    requires CanMove(v, lane)
    ensures WarpLeft(Move(Reduction(plus), v, lane)) < WarpLeft(v)
  {
    var r := Move(Reduction(plus), v, lane);
    LaneLeft(plus, v, lane);
    MoveLeaves(Reduction(plus), v, lane);
    TotalOne((j: nat) => if j < |v.lanes| then Left(v.lanes[j]) else 0, (j: nat) => if j < |r.lanes| then Left(r.lanes[j]) else 0, |v.lanes|, lane);
  }

  lemma StepLeft(l: Launch, s: Grid, w: nat, lane: nat)
    requires CanStep(l, s, w, lane)
    ensures AllLeft(Step(l, s, w, lane)) < AllLeft(s)
  {
    var r := Step(l, s, w, lane);
    WarpStepLeft(l.plus, s.warps[w], lane);
    TotalOne((c: nat) => if c < |s.warps| then WarpLeft(s.warps[c]) else 0,
      (c: nat) => if c < |r.warps| then WarpLeft(r.warps[c]) else 0, l.warps, w);
  }

  lemma NothingNegative(s: Grid)
    ensures AllLeft(s) >= 0
  {
    forall w: nat | w < |s.warps| ensures WarpLeft(s.warps[w]) >= 0 {
      TotalNatural((j: nat) => if j < |s.warps[w].lanes| then Left(s.warps[w].lanes[j]) else 0, |s.warps[w].lanes|);
    }
    TotalNatural((w: nat) => if w < |s.warps| then WarpLeft(s.warps[w]) else 0, |s.warps|);
  }

  /** And every launch finishes: no run is longer than the work there is at its start. */
  lemma {:induction false} RunsEnd(l: Launch, s: Grid, run: seq<(nat, nat)>)
    requires Runs(l, s, run)
    ensures |run| <= AllLeft(s)
    decreases |run|
  {
    NothingNegative(s);
    if run != [] {
      StepLeft(l, s, run[0].0, run[0].1);
      RunsEnd(l, Step(l, s, run[0].0, run[0].1), run[1..]);
    }
  }

  lemma {:induction false} Each(f: nat -> int, n: nat, most: nat)
    requires forall t: nat :: t < n ==> f(t) <= most
    ensures Total(f, n) <= n * most
  {
    if n > 0 { Each(f, n - 1, most); }
  }

  /** That work is 36 steps for each lane. */
  lemma StartLeft(l: Launch, s: Grid)
    requires AtStart(l, s)
    ensures AllLeft(s) <= l.warps * (WARP_SIZE * 36)
  {
    forall w: nat | w < l.warps ensures WarpLeft(s.warps[w]) <= WARP_SIZE * 36 {
      var v := s.warps[w];
      Each((j: nat) => if j < |v.lanes| then Left(v.lanes[j]) else 0, |v.lanes|, 36);
    }
    Each((w: nat) => if w < |s.warps| then WarpLeft(s.warps[w]) else 0, l.warps, WARP_SIZE * 36);
  }
}
