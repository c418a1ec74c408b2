/** Every run of the generated kernel comes to an end, and finishes if it is left to. */
module TileEnd {
  import opened Basics
  import opened TileGraph
  import opened TileKernel
  import opened TileRun

  /** More steps than a thread spends on one window. */
  const WINDOW_STEPS: nat := TILE + MAX_TAPS + 4

  /** The steps of the windows after window j, and the store. */
  function Later(l: Launch, j: nat): nat { Base(if j < |l.k.windows| then |l.k.windows| - j - 1 else 0, WINDOW_STEPS) + 1 }

  /** How many steps a thread has before it at most. */
  function Left(l: Launch, pc: Pc): nat {
    match pc
    case Stage(j, i) => Later(l, j) + MAX_TAPS + 3 + if i < TILE then TILE - i else 0
    case Wait(j) => Later(l, j) + MAX_TAPS + 2
    case Term(j, i, _) => Later(l, j) + 1 + if i < MAX_TAPS then MAX_TAPS - i else 0
    case Store => 1
    case Done => 0
  }

  function BlockLeft(l: Launch, s: Block): int {
    Total((t: nat) => if t < |s.threads| then Left(l, s.threads[t].pc) else 0, |s.threads|)
  }

  function AllLeft(l: Launch, w: World): int {
    Total((b: nat) => if b < |w.blocks| then BlockLeft(l, w.blocks[b]) else 0, |w.blocks|)
  }

  lemma EnterLeft(l: Launch, j: nat, t: nat)
    requires j < |l.k.windows|
    ensures Left(l, Enter(l, j + 1, t)) <= Later(l, j)
  {
  }

  lemma TapsFit(l: Launch, j: nat)
    requires Launched(l) && j < |l.k.windows|
    ensures 1 <= Count(l, j) <= MAX_TAPS && l.dim + Count(l, j) - 1 <= TILE
  {
    var loc := WindowFacts(l, j);
  }

  lemma PcLeft(l: Launch, s: Block, base: nat, t: nat)
    requires Launched(l) && ShapedBlock(l, s) && t < l.dim && Passes(l, s, t)
    ensures Left(l, StepBlock(l, s, base, t).0.threads[t].pc) < Left(l, s.threads[t].pc)
  {
    var pc := s.threads[t].pc;
    if pc.Stage? {
      TapsFit(l, pc.j);
    } else if pc.Term? {
      TapsFit(l, pc.j);
      EnterLeft(l, pc.j, t);
    }
  }

  lemma BlockStepLeft(l: Launch, s: Block, base: nat, t: nat)
    requires Launched(l) && ShapedBlock(l, s) && t < l.dim && Passes(l, s, t)
    ensures BlockLeft(l, StepBlock(l, s, base, t).0) < BlockLeft(l, s)
  {
    var q := StepBlock(l, s, base, t).0;
    PcLeft(l, s, base, t);
    OnlyOne(l, s, base, t);
    TotalOne((u: nat) => if u < |s.threads| then Left(l, s.threads[u].pc) else 0,
      (u: nat) => if u < |q.threads| then Left(l, q.threads[u].pc) else 0, l.dim, t);
  }

  lemma StepLeft(l: Launch, w: World, b: nat, t: nat)
    requires Launched(l) && CanStep(l, w, b, t)
    ensures AllLeft(l, Step(l, w, b, t)) < AllLeft(l, w)
  {
    var r := Step(l, w, b, t);
    BlockStepLeft(l, w.blocks[b], Base(b, l.dim), t);
    TotalOne((c: nat) => if c < |w.blocks| then BlockLeft(l, w.blocks[c]) else 0,
      (c: nat) => if c < |r.blocks| then BlockLeft(l, r.blocks[c]) else 0, l.grid, b);
  }

  lemma NothingNegative(l: Launch, w: World)
    ensures AllLeft(l, w) >= 0
  {
    forall b: nat | b < |w.blocks| ensures BlockLeft(l, w.blocks[b]) >= 0 {
      var s := w.blocks[b];
      TotalNatural((t: nat) => if t < |s.threads| then Left(l, s.threads[t].pc) else 0, |s.threads|);
    }
    TotalNatural((b: nat) => if b < |w.blocks| then BlockLeft(l, w.blocks[b]) else 0, |w.blocks|);
  }

  /** No run is longer than the work there is at its start. */
  lemma {:induction false} RunsEnd(l: Launch, w: World, run: seq<(nat, nat)>)
    requires Launched(l) && Runs(l, w, run)
    ensures |run| <= AllLeft(l, w)
    decreases |run|
  {
    NothingNegative(l, w);
    if run != [] {
      StepLeft(l, w, run[0].0, run[0].1);
      RunsEnd(l, Step(l, w, run[0].0, run[0].1), run[1..]);
    }
  }

  /** A run can be left to finish from wherever it has come to. */
  lemma {:induction false} RunFinishes(l: Launch, w: World) returns (more: seq<(nat, nat)>)
    requires WorldInv(l, w)
    ensures Runs(l, w, more) && Finished(l, After(l, w, more))
    decreases AllLeft(l, w)
  {
    NothingNegative(l, w);
    if Finished(l, w) {
      more := [];
    } else {
      var b, t := SomebodyCan(l, w);
      WorldStep(l, w, b, t);
      StepLeft(l, w, b, t);
      var rest := RunFinishes(l, Step(l, w, b, t));
      more := StepThen(l, w, b, t, rest);
    }
  }

  lemma StepThen(l: Launch, w: World, b: nat, t: nat, rest: seq<(nat, nat)>) returns (run: seq<(nat, nat)>)
    requires CanStep(l, w, b, t) && Runs(l, Step(l, w, b, t), rest)
    ensures Runs(l, w, run) && After(l, w, run) == After(l, Step(l, w, b, t), rest)
  {
    run := [(b, t)] + rest;
    assert run[1..] == rest;
  }
}
