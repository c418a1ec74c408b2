/** Threads of a block that wait a fixed number of times at its barrier and then leave: a wait that
    returns true returns when every thread has come to it. */
module BlockWait {
  import opened Barrier

  /** Where a thread is in its kernel: after n waits, about to wait for the n-th time or parked there, or
      out of the kernel. */
  datatype Place = Busy(n: nat) | AtWait(n: nat) | Away

  /** A thread has come to wait n. */
  predicate Came(p: Place, n: nat) {
    match p
    case Busy(k) => k > n
    case AtWait(k) => k >= n
    case Away => true
  }

  predicate AllCame(places: seq<Place>, n: nat) { forall t :: 0 <= t < |places| ==> Came(places[t], n) }

  /** A thread and its barrier, c generations of which have been released. */
  predicate InPhase(waits: nat, p: Place, s: Status, c: nat) {
    match p
    case Busy(n) => n <= waits && s.Running? && n == c
    case AtWait(n) => n < waits && ((s == Parked(n) && n <= c <= n + 1) || (s.Running? && n == c))
    case Away => s.Gone? && c == waits
  }

  predicate AllInPhase(waits: nat, places: seq<Place>, lanes: seq<Status>, c: nat) {
    |lanes| == |places| && forall t :: 0 <= t < |places| ==> InPhase(waits, places[t], lanes[t], c)
  }

  ghost predicate Coupled(waits: nat, places: seq<Place>, w: World) {
    Inv(w) && AllInPhase(waits, places, w.lanes, Cur(w.bar))
  }

  lemma StartCoupled(waits: nat, places: seq<Place>)
    requires forall t :: 0 <= t < |places| ==> places[t] == Busy(0)
    ensures Coupled(waits, places, Start(|places|))
  {
    StartInv(|places|);
  }

  /** Going on to the next wait. */
  lemma Goes(waits: nat, places: seq<Place>, w: World, t: nat, p: Place)
    requires Coupled(waits, places, w) && t < |places| && places[t].Busy?
    requires p == places[t] || (p == AtWait(places[t].n) && p.n < waits)
    ensures Coupled(waits, places[t := p], w)
  {
  }

  /** An arrival that parks. */
  lemma Parks(waits: nat, places: seq<Place>, w: World, t: nat)
    requires Coupled(waits, places, w) && t < |places| && places[t].AtWait? && Enabled(w, Reach(t))
    requires Step(w, Reach(t)).lanes[t].Parked?
    ensures Coupled(waits, places, Step(w, Reach(t)))
  {
    ReachInv(w, t);
  }

  /** The closer's own generation holds every thread that has not left. */
  lemma ClosedWith(w: World, t: nat, u: nat)
    requires Inv(w) && Enabled(w, Reach(t)) && Step(w, Reach(t)).lanes[t].Running? && u < |w.lanes| && u != t
    ensures w.lanes[u].Gone? || w.lanes[u] == Parked(Cur(w.bar))
  {
    var r := Step(w, Reach(t));
    ReachInv(w, t);
    assert r.bar.gens[Cur(w.bar)] == Closed(Present(r)) && r.bar.gens[Cur(w.bar)] == Closed(Waiting(w) + {t});
    assert r.lanes[u] == w.lanes[u] && (u in Present(r) <==> u in Waiting(w) + {t});
  }

  /** An arrival that completes the generation. */
  lemma Completes(waits: nat, places: seq<Place>, w: World, t: nat)
    requires Coupled(waits, places, w) && t < |places| && places[t].AtWait? && Enabled(w, Reach(t))
    requires Step(w, Reach(t)).lanes[t].Running?
    ensures AllCame(places, places[t].n) && Coupled(waits, places[t := Busy(places[t].n + 1)], Step(w, Reach(t)))
  {
    var n, c := places[t].n, Cur(w.bar);
    assert InPhase(waits, places[t], w.lanes[t], c);
    forall u | 0 <= u < |places| && u != t ensures places[u] == AtWait(n) && w.lanes[u] == Parked(n) {
      assert InPhase(waits, places[u], w.lanes[u], c);
      ClosedWith(w, t, u);
    }
    ReachInv(w, t);
  }

  /** A return of a thread whose generation was released. */
  lemma Wakes(waits: nat, places: seq<Place>, w: World, t: nat)
    requires Coupled(waits, places, w) && t < |places| && places[t].AtWait? && Enabled(w, Wake(t))
    ensures AllCame(places, places[t].n) && Coupled(waits, places[t := Busy(places[t].n + 1)], Step(w, Wake(t)))
  {
    var n, c := places[t].n, Cur(w.bar);
    assert InPhase(waits, places[t], w.lanes[t], c);
    forall u | 0 <= u < |places| ensures Came(places[u], n) {
      assert InPhase(waits, places[u], w.lanes[u], c);
    }
    WakeInv(w, Wake(t));
  }

  /** A return from the kernel: nobody waits any more, so it releases nothing. */
  lemma Leaves(waits: nat, places: seq<Place>, w: World, t: nat)
    requires Coupled(waits, places, w) && t < |places| && places[t] == Busy(waits) && Enabled(w, Depart(t))
    ensures Coupled(waits, places[t := Away], Step(w, Depart(t)))
  {
    var c := Cur(w.bar);
    assert InPhase(waits, places[t], w.lanes[t], c);
    forall u: nat ensures u !in Waiting(w) {
      if u < |places| { assert InPhase(waits, places[u], w.lanes[u], c); }
    }
    assert Waiting(w) == {};
    LeaveInv(w, t);
  }

  /** Until everybody has left, somebody is about to do something or has been released. */
  lemma Somebody(waits: nat, places: seq<Place>, w: World) returns (t: nat)
    requires Coupled(waits, places, w) && exists u :: 0 <= u < |places| && !places[u].Away?
    ensures t < |places| && !places[t].Away?
    ensures w.lanes[t].Running? || Enabled(w, Wake(t))
  {
    var u :| 0 <= u < |places| && !places[u].Away?;
    assert InPhase(waits, places[u], w.lanes[u], Cur(w.bar)) && u in Present(w);
    NoneLeftUnreleased(w);
    t :| t in Present(w) && t !in Waiting(w);
    assert InPhase(waits, places[t], w.lanes[t], Cur(w.bar));
  }

  // A kernel whose barrier is a guard on the whole block, and the same kernel over the real barrier.

  /** Where a thread of a block is in state s, and what its next step does to s. */
  datatype Kernel<!S> = Kernel(blocks: nat, threads: nat, waits: nat, ok: S -> bool, place: (S, nat, nat) -> Place, act: (S, nat, nat) -> S)

  function Places<S>(k: Kernel<S>, s: S, b: nat): (r: seq<Place>)
    ensures |r| == k.threads
  {
    seq(k.threads, t requires 0 <= t < k.threads => k.place(s, b, t))
  }

  /** A thread goes on within its part of the kernel, to the wait after it, or out after the last. */
  predicate Follows(waits: nat, p: Place, q: Place) {
    match p
    case Busy(n) => q == p || (q == AtWait(n) && n < waits) || (q.Away? && n == waits)
    case AtWait(n) => n < waits && q == Busy(n + 1)
    case Away => false
  }

  /** A step of one thread moves it and no other. */
  ghost predicate Lawful<S(!new)>(k: Kernel<S>) {
    forall s: S, b: nat, t: nat {:trigger k.act(s, b, t)} ::
      k.ok(s) && b < k.blocks && t < k.threads && !k.place(s, b, t).Away? ==> MovesOne(k, s, b, t, k.act(s, b, t))
  }

  ghost predicate MovesOne<S>(k: Kernel<S>, s: S, b: nat, t: nat, r: S) {
    && k.ok(r) && Follows(k.waits, k.place(s, b, t), k.place(r, b, t))
    && forall c, u :: 0 <= c < k.blocks && 0 <= u < k.threads && (c != b || u != t) ==> k.place(r, c, u) == k.place(s, c, u)
  }

  /** The guard: a thread passes its wait once every thread of the block has come to it. */
  predicate Guarded<S>(k: Kernel<S>, s: S, b: nat, t: nat) {
    && k.ok(s) && b < k.blocks && t < k.threads && !k.place(s, b, t).Away?
    && (k.place(s, b, t).AtWait? ==> AllCame(Places(k, s, b), k.place(s, b, t).n))
  }

  predicate GuardedRun<S>(k: Kernel<S>, s: S, run: seq<(nat, nat)>)
    decreases |run|
  {
    run == [] || (Guarded(k, s, run[0].0, run[0].1) && GuardedRun(k, k.act(s, run[0].0, run[0].1), run[1..]))
  }

  function GuardedAfter<S>(k: Kernel<S>, s: S, run: seq<(nat, nat)>): S
    decreases |run|
  {
    if run == [] then s else GuardedAfter(k, k.act(s, run[0].0, run[0].1), run[1..])
  }

  /** The kernel beside the barriers of its blocks. */
  datatype Machine<S> = Machine(s: S, bars: seq<World>)

  function WaitAction(w: World, t: nat): Action
    requires t < |w.lanes|
  {
    if w.lanes[t].Running? then Reach(t) else Wake(t)
  }

  predicate CanMove<S>(k: Kernel<S>, m: Machine<S>, b: nat, t: nat) {
    && b < k.blocks == |m.bars| && t < k.threads == |m.bars[b].lanes|
    && match k.place(m.s, b, t)
       case Away => false
       case AtWait(_) => Enabled(m.bars[b], WaitAction(m.bars[b], t))
       case Busy(_) => Enabled(m.bars[b], Depart(t))
  }

  /** A wait arrives or returns, and the kernel goes on only when it returns; a thread that is done leaves
      its barrier. */
  function Move<S>(k: Kernel<S>, m: Machine<S>, b: nat, t: nat): Machine<S>
    requires CanMove(k, m, b, t)
  {
    var r := k.act(m.s, b, t);
    if k.place(m.s, b, t).AtWait? then
      var w := Step(m.bars[b], WaitAction(m.bars[b], t));
      Machine(if w.lanes[t].Running? then r else m.s, m.bars[b := w])
    else Machine(r, if k.place(r, b, t).Away? then m.bars[b := Step(m.bars[b], Depart(t))] else m.bars)
  }

  predicate Moves<S>(k: Kernel<S>, m: Machine<S>, run: seq<(nat, nat)>)
    decreases |run|
  {
    run == [] || (CanMove(k, m, run[0].0, run[0].1) && Moves(k, Move(k, m, run[0].0, run[0].1), run[1..]))
  }

  function MovesAfter<S>(k: Kernel<S>, m: Machine<S>, run: seq<(nat, nat)>): Machine<S>
    requires Moves(k, m, run)
    decreases |run|
  {
    if run == [] then m else MovesAfter(k, Move(k, m, run[0].0, run[0].1), run[1..])
  }

  ghost predicate AllCoupled<S>(k: Kernel<S>, m: Machine<S>) {
    k.ok(m.s) && |m.bars| == k.blocks && forall b :: 0 <= b < k.blocks ==> Coupled(k.waits, Places(k, m.s, b), m.bars[b])
  }

  lemma BlockMoves<S>(k: Kernel<S>, s: S, b: nat, t: nat, r: S, c: nat)
    requires b < k.blocks && t < k.threads && c < k.blocks && MovesOne(k, s, b, t, r)
    ensures Places(k, r, c) == if c == b then Places(k, s, b)[t := k.place(r, b, t)] else Places(k, s, c)
  {
  }

  /** Every successful wait finds the guard open, and every step keeps kernel and barriers together. */
  lemma MoveGuarded<S(!new)>(k: Kernel<S>, m: Machine<S>, b: nat, t: nat)
    requires Lawful(k) && AllCoupled(k, m) && CanMove(k, m, b, t)
    ensures AllCoupled(k, Move(k, m, b, t))
    ensures Move(k, m, b, t).s == m.s || (Guarded(k, m.s, b, t) && Move(k, m, b, t).s == k.act(m.s, b, t))
  {
    var r := k.act(m.s, b, t);
    var p := Places(k, m.s, b);
    assert MovesOne(k, m.s, b, t, r);
    forall c | 0 <= c < k.blocks ensures Coupled(k.waits, Places(k, Move(k, m, b, t).s, c), Move(k, m, b, t).bars[c]) {
      BlockMoves(k, m.s, b, t, r, c);
      if c == b { OwnMove(k, m, b, t, r); }
    }
    OwnMove(k, m, b, t, r);
  }

  lemma OwnMove<S>(k: Kernel<S>, m: Machine<S>, b: nat, t: nat, r: S)
    requires AllCoupled(k, m) && CanMove(k, m, b, t) && r == k.act(m.s, b, t) && MovesOne(k, m.s, b, t, r)
    ensures Coupled(k.waits, Places(k, Move(k, m, b, t).s, b), Move(k, m, b, t).bars[b])
    ensures Move(k, m, b, t).s == m.s || Guarded(k, m.s, b, t)
  {
    var p, w := Places(k, m.s, b), m.bars[b];
    BlockMoves(k, m.s, b, t, r, b);
    if p[t].Busy? {
      if k.place(r, b, t).Away? { Leaves(k.waits, p, w, t); } else { Goes(k.waits, p, w, t, k.place(r, b, t)); }
    } else if w.lanes[t].Parked? {
      Wakes(k.waits, p, w, t);
    } else if Step(w, Reach(t)).lanes[t].Parked? {
      Parks(k.waits, p, w, t);
    } else {
      Completes(k.waits, p, w, t);
    }
  }

  /** So a run over the real barriers is, for the kernel, a run under the guard. */
  lemma {:induction false} RunGuarded<S(!new)>(k: Kernel<S>, m: Machine<S>, run: seq<(nat, nat)>) returns (part: seq<(nat, nat)>)
    requires Lawful(k) && AllCoupled(k, m) && Moves(k, m, run)
    ensures GuardedRun(k, m.s, part) && GuardedAfter(k, m.s, part) == MovesAfter(k, m, run).s
    ensures AllCoupled(k, MovesAfter(k, m, run))
    decreases |run|
  {
    part := [];
    if run != [] {
      var b, t := run[0].0, run[0].1;
      var n := Move(k, m, b, t);
      MoveGuarded(k, m, b, t);
      part := RunGuarded(k, n, run[1..]);
      if n.s != m.s { part := GuardedFirst(k, m.s, b, t, part); }
    }
  }

  lemma GuardedFirst<S>(k: Kernel<S>, s: S, b: nat, t: nat, rest: seq<(nat, nat)>) returns (run: seq<(nat, nat)>)
    requires Guarded(k, s, b, t) && GuardedRun(k, k.act(s, b, t), rest)
    ensures GuardedRun(k, s, run) && GuardedAfter(k, s, run) == GuardedAfter(k, k.act(s, b, t), rest)
  {
    run := [(b, t)] + rest;
    assert run[1..] == rest;
  }

  /** Nor is such a run ever stuck before every thread has left. */
  lemma SomebodyMoves<S>(k: Kernel<S>, m: Machine<S>, b: nat) returns (t: nat)
    requires AllCoupled(k, m) && b < k.blocks && exists u :: 0 <= u < k.threads && !k.place(m.s, b, u).Away?
    ensures CanMove(k, m, b, t)
  {
    var p := Places(k, m.s, b);
    var u :| 0 <= u < k.threads && !k.place(m.s, b, u).Away?;
    assert !p[u].Away?;
    t := Somebody(k.waits, p, m.bars[b]);
    assert InPhase(k.waits, p[t], m.bars[b].lanes[t], Cur(m.bars[b].bar));
  }
}
