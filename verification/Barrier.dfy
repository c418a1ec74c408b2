/** The generation barriers of gpu/gpu.go and gpu/warp.go: what one critical section does, and what
    holds whatever order arrivals, wake-ups, timeouts and departures come in. */
module Barrier {

  // One barrier

  /** A rendezvous: its channel is closed once it is released, and then it says who took part. */
  datatype Gen = Open | Closed(mask: set<nat>)

  /** A warp barrier; the generation being assembled is the last. */
  datatype Bar = Bar(n: int, count: int, mask: set<nat>, gens: seq<Gen>)

  predicate Shaped(b: Bar) { b.gens != [] && b.gens[|b.gens| - 1].Open? }

  function Cur(b: Bar): nat
    requires Shaped(b)
  {
    |b.gens| - 1
  }

  function Fresh(n: int): (b: Bar)
    ensures Shaped(b)
  {
    Bar(n, 0, {}, [Open])
  }

  /** releaseLocked */
  function Release(b: Bar): (r: Bar)
    requires Shaped(b)
    ensures Shaped(r)
  {
    Bar(b.n, 0, {}, b.gens[Cur(b) := Closed(b.mask)] + [Open])
  }

  /** The first critical section of wait. */
  function Arrive(b: Bar, lane: nat): (r: Bar)
    requires Shaped(b)
    ensures Shaped(r)
  {
    var a := b.(mask := b.mask + {lane}, count := b.count + 1);
    if a.count >= a.n then Release(a) else a
  }

  /** The critical section of a timer that fired on generation gen. */
  function Expire(b: Bar, lane: nat, gen: nat): (r: Bar)
    requires Shaped(b)
    ensures Shaped(r)
  {
    if gen != Cur(b) then b else b.(mask := b.mask - {lane}, count := b.count - 1)
  }

  /** abandon */
  function Abandon(b: Bar): (r: Bar)
    requires Shaped(b)
    ensures Shaped(r)
  {
    var a := b.(n := b.n - 1);
    if a.n > 0 && a.count >= a.n then Release(a) else a
  }

  class WarpBarrier {
    var n: int
    var count: int
    var mask: set<nat>
    var gens: seq<Gen>

    ghost predicate Valid()
      reads this
    {
      Shaped(State())
    }

    function State(): Bar
      reads this
    {
      Bar(n, count, mask, gens)
    }

    constructor (n: int)
      ensures Valid() && State() == Fresh(n)
    {
      this.n, count, mask, gens := n, 0, {}, [Open];
    }

    method ReleaseLocked() returns (who: set<nat>)
      requires Valid()
      modifies this
      ensures Valid() && State() == Release(old(State())) && who == old(mask)
    {
      who := mask;
      gens := gens[|gens| - 1 := Closed(mask)] + [Open];
      mask, count := {}, 0;
    }

    /** Whether the arrival completed the generation it joined. */
    method ArriveAt(lane: nat) returns (gen: nat, released: bool, who: set<nat>)
      requires Valid()
      modifies this
      ensures Valid() && State() == Arrive(old(State()), lane)
      ensures gen == Cur(old(State())) && released == gens[gen].Closed?
      ensures released ==> gens[gen] == Closed(who)
    {
      mask := mask + {lane};
      count := count + 1;
      gen, released, who := |gens| - 1, false, {};
      if count >= n {
        who := ReleaseLocked();
        released := true;
      } else {
        assert gens[gen] == old(gens)[gen];
      }
    }

    /** Whether the generation was released between the timer firing and the lock being taken. */
    method GiveUp(lane: nat, gen: nat) returns (released: bool)
      requires Valid()
      modifies this
      ensures Valid() && State() == Expire(old(State()), lane, gen) && released == (gen != Cur(old(State())))
    {
      released := gen != |gens| - 1;
      if !released {
        mask := mask - {lane};
        count := count - 1;
      }
    }

    method Leave()
      requires Valid()
      modifies this
      ensures Valid() && State() == Abandon(old(State()))
    {
      n := n - 1;
      if n > 0 && count >= n {
        var who := ReleaseLocked();
      }
    }
  }

  /** The block barrier of gpu.go counts without saying who. */
  class BlockBarrier {
    var n: int
    var count: int
    var cur: nat

    constructor (n: int)
      ensures Counts(this, Fresh(n))
    {
      this.n, count, cur := n, 0, 0;
    }

    method ReleaseLocked()
      modifies this
      ensures n == old(n) && count == 0 && cur == old(cur) + 1
    {
      count := 0;
      cur := cur + 1;
    }

    method ArriveAt(ghost b: Bar, ghost lane: nat) returns (gen: nat, released: bool)
      requires Shaped(b) && Counts(this, b)
      modifies this
      ensures Counts(this, Arrive(b, lane)) && gen == Cur(b) && released == Arrive(b, lane).gens[gen].Closed?
    {
      count := count + 1;
      gen, released := cur, false;
      if count >= n {
        ReleaseLocked();
        released := true;
      }
    }

    method GiveUp(ghost b: Bar, ghost lane: nat, gen: nat) returns (released: bool)
      requires Shaped(b) && Counts(this, b)
      modifies this
      ensures Counts(this, Expire(b, lane, gen)) && released == (gen != Cur(b))
    {
      released := gen != cur;
      if !released { count := count - 1; }
    }

    method Leave(ghost b: Bar)
      requires Shaped(b) && Counts(this, b)
      modifies this
      ensures Counts(this, Abandon(b))
    {
      n := n - 1;
      if n > 0 && count >= n { ReleaseLocked(); }
    }
  }

  /** A block barrier is a warp barrier with the mask forgotten. */
  ghost predicate Counts(c: BlockBarrier, b: Bar)
    requires Shaped(b)
    reads c
  {
    c.n == b.n && c.count == b.count && c.cur == Cur(b)
  }

  // Every thread of a warp or a block, in any order

  /** Parked: waiting on the channel of a generation. */
  datatype Status = Running | Parked(gen: nat) | Gone

  datatype World = World(bar: Bar, lanes: seq<Status>)

  datatype Action =
    | Reach(lane: nat)                     // arrive at the barrier
    | Wake(lane: nat)                      // the channel is closed
    | Timer(lane: nat)                     // the timer fires, in the end
    | Depart(lane: nat)                    // return or panic

  predicate Enabled(w: World, a: Action) {
    && Shaped(w.bar) && a.lane < |w.lanes|
    && match a
       case Reach(l) => w.lanes[l].Running?
       case Wake(l) => w.lanes[l].Parked? && w.lanes[l].gen < |w.bar.gens| && w.bar.gens[w.lanes[l].gen].Closed?
       case Timer(l) => w.lanes[l].Parked?
       case Depart(l) => w.lanes[l].Running?
  }

  function Step(w: World, a: Action): (r: World)
    requires Enabled(w, a)
    ensures Shaped(r.bar) && |r.lanes| == |w.lanes|
  {
    match a
    case Reach(l) =>
      var b := Arrive(w.bar, l);
      World(b, w.lanes[l := if b.gens[Cur(w.bar)].Closed? then Running else Parked(Cur(w.bar))])
    case Wake(l) => World(w.bar, w.lanes[l := Running])
    case Timer(l) => World(Expire(w.bar, l, w.lanes[l].gen), w.lanes[l := Running])
    case Depart(l) => World(Abandon(w.bar), w.lanes[l := Gone])
  }

  /** What a wait that ends here returns, if it returns true: the generation it joined. */
  function Joined(w: World, a: Action): (r: Gen)
    requires Enabled(w, a)
  {
    match a
    case Reach(l) => Arrive(w.bar, l).gens[Cur(w.bar)]
    case Wake(l) => w.bar.gens[w.lanes[l].gen]
    case Timer(l) => if w.lanes[l].gen < Cur(w.bar) then w.bar.gens[w.lanes[l].gen] else Open
    case Depart(_) => Open
  }

  /** The generation an arrival or a parked thread belongs to. */
  function Mine(w: World, a: Action): nat
    requires Enabled(w, a)
  {
    if w.lanes[a.lane].Parked? then w.lanes[a.lane].gen else Cur(w.bar)
  }

  function Present(w: World): (r: set<nat>)
    ensures forall l: nat :: l in r <==> l < |w.lanes| && !w.lanes[l].Gone?
  {
    set l: nat | l < |w.lanes| && !w.lanes[l].Gone?
  }

  /** The threads parked in the generation being assembled. */
  function Waiting(w: World): (r: set<nat>)
    requires Shaped(w.bar)
    ensures forall l: nat :: l in r <==> l < |w.lanes| && w.lanes[l] == Parked(Cur(w.bar))
  {
    set l: nat | l < |w.lanes| && w.lanes[l] == Parked(Cur(w.bar))
  }

  /** count and mask are exactly the threads parked in the current generation, n those still in the
      kernel, every earlier generation is released, and a complete one is never left unreleased. */
  predicate Inv(w: World) {
    && Shaped(w.bar)
    && w.bar.n == |Present(w)|
    && w.bar.mask == Waiting(w) && w.bar.count == |Waiting(w)|
    && (w.bar.n > 0 ==> w.bar.count < w.bar.n)
    && (forall g :: 0 <= g < Cur(w.bar) ==> w.bar.gens[g].Closed?)
    && (forall l :: 0 <= l < |w.lanes| && w.lanes[l].Parked? ==> w.lanes[l].gen <= Cur(w.bar))
  }

  function Start(lanes: nat): World { World(Fresh(lanes), seq(lanes, _ => Running)) }

  /** The numbers below n. */
  function Below(n: nat): (r: set<nat>)
    ensures |r| == n && forall l: nat :: l in r <==> l < n
  {
    if n == 0 then {} else Below(n - 1) + {n - 1}
  }

  lemma StartInv(lanes: nat)
    ensures Inv(Start(lanes))
  {
    assert Present(Start(lanes)) == Below(lanes);
    assert Waiting(Start(lanes)) == {};
  }

  lemma SubsetSize(a: set<nat>, b: set<nat>)
    requires a <= b
    ensures |a| <= |b| && (|a| == |b| ==> a == b)
  {
    assert b == a + (b - a);
  }

  lemma ReachInv(w: World, l: nat)
    requires Inv(w) && Enabled(w, Reach(l))
    ensures Inv(Step(w, Reach(l)))
    ensures var r := Step(w, Reach(l)); r.bar.gens[Cur(w.bar)].Closed? ==> r.bar.gens[Cur(w.bar)] == Closed(Present(r))
  {
    assert Present(Step(w, Reach(l))) == Present(w);
    assert |Waiting(w) + {l}| == |Waiting(w)| + 1;
    if w.bar.count + 1 >= w.bar.n { ReachLast(w, l); } else { ReachMore(w, l); }
  }

  lemma ReachMore(w: World, l: nat)
    requires Inv(w) && Enabled(w, Reach(l)) && w.bar.count + 1 < w.bar.n && |Waiting(w) + {l}| == |Waiting(w)| + 1
    requires Present(Step(w, Reach(l))) == Present(w)
    ensures var r := Step(w, Reach(l)); Inv(r) && r.bar.gens[Cur(w.bar)].Open?
  {
    assert Waiting(Step(w, Reach(l))) == Waiting(w) + {l};
  }

  lemma ReachLast(w: World, l: nat)
    requires Inv(w) && Enabled(w, Reach(l)) && w.bar.count + 1 >= w.bar.n && |Waiting(w) + {l}| == |Waiting(w)| + 1
    requires Present(Step(w, Reach(l))) == Present(w)
    ensures var r := Step(w, Reach(l)); Inv(r) && r.bar.gens[Cur(w.bar)] == Closed(Present(r))
  {
    SubsetSize(Waiting(w) + {l}, Present(w));
    assert Waiting(Step(w, Reach(l))) == {};
  }

  lemma LeaveInv(w: World, l: nat)
    requires Inv(w) && Enabled(w, Depart(l))
    ensures Inv(Step(w, Depart(l)))
    ensures var r := Step(w, Depart(l)); r.bar.gens[Cur(w.bar)].Closed? ==> r.bar.gens[Cur(w.bar)] == Closed(Present(r))
  {
    var r := Step(w, Depart(l));
    assert Present(r) == Present(w) - {l};
    SubsetSize(Waiting(w), Present(r));
    if r.bar.gens[Cur(w.bar)].Closed? {
      assert Waiting(r) == {};
    } else {
      assert Waiting(r) == Waiting(w);
    }
  }

  lemma WakeInv(w: World, a: Action)
    requires Inv(w) && Enabled(w, a) && (a.Wake? || a.Timer?)
    ensures Inv(Step(w, a)) && Step(w, a).bar.gens == w.bar.gens
  {
    assert Present(Step(w, a)) == Present(w);
    if a.Timer? && w.lanes[a.lane].gen == Cur(w.bar) { WithdrawInv(w, a.lane); } else { ReleasedInv(w, a); }
  }

  /** A timer that withdraws the arrival. */
  lemma WithdrawInv(w: World, l: nat)
    requires Inv(w) && Enabled(w, Timer(l)) && w.lanes[l].gen == Cur(w.bar) && Present(Step(w, Timer(l))) == Present(w)
    ensures Inv(Step(w, Timer(l)))
  {
    assert Waiting(Step(w, Timer(l))) == Waiting(w) - {l};
  }

  /** A return of a thread that had been released. */
  lemma ReleasedInv(w: World, a: Action)
    requires Inv(w) && Enabled(w, a) && (a.Wake? || a.Timer?) && w.lanes[a.lane].gen < Cur(w.bar)
    requires Present(Step(w, a)) == Present(w)
    ensures Inv(Step(w, a)) && Step(w, a).bar == w.bar
  {
    assert Waiting(Step(w, a)) == Waiting(w);
  }

  /** Every step keeps the invariant. */
  lemma StepInv(w: World, a: Action)
    requires Inv(w) && Enabled(w, a)
    ensures Inv(Step(w, a))
  {
    match a
    case Reach(l) => ReachInv(w, l);
    case Depart(l) => LeaveInv(w, l);
    case _ => WakeInv(w, a);
  }

  /** No complete generation is left unreleased: somebody still in the kernel is not parked in it. */
  lemma NoneLeftUnreleased(w: World)
    requires Inv(w) && Present(w) != {}
    ensures Waiting(w) < Present(w)
  {
    assert |Waiting(w)| < |Present(w)| by { assert |Present(w)| > 0; }
    assert forall l: nat :: l in Waiting(w) ==> l in Present(w);
    assert Waiting(w) != Present(w);
  }

  // Runs

  predicate Possible(w: World, run: seq<Action>)
    decreases |run|
  {
    run == [] || (Enabled(w, run[0]) && Possible(Step(w, run[0]), run[1..]))
  }

  function After(w: World, run: seq<Action>): World
    requires Possible(w, run)
    decreases |run|
  {
    if run == [] then w else After(Step(w, run[0]), run[1..])
  }

  /** Safety over every run. */
  lemma {:induction false} RunInv(w: World, run: seq<Action>)
    requires Inv(w) && Possible(w, run)
    ensures Inv(After(w, run))
    decreases |run|
  {
    if run != [] {
      StepInv(w, run[0]);
      RunInv(Step(w, run[0]), run[1..]);
    }
  }

  lemma {:induction false} Prefix(w: World, run: seq<Action>, k: nat)
    requires Possible(w, run) && k <= |run|
    ensures Possible(w, run[..k])
    ensures k < |run| ==> Enabled(After(w, run[..k]), run[k])
    ensures k < |run| ==> Possible(w, run[..k + 1]) && After(w, run[..k + 1]) == Step(After(w, run[..k]), run[k])
    decreases k
  {
    if k > 0 {
      Prefix(Step(w, run[0]), run[1..], k - 1);
      assert run[..k][1..] == run[1..][..k - 1];
      if k < |run| { assert run[..k + 1][1..] == run[1..][..k]; }
    } else if run != [] {
      assert run[..1][1..] == [];
    }
  }

  /** The step a generation was released in: every thread then in the kernel had arrived. */
  predicate ReleasedAt(w: World, run: seq<Action>, j: nat, g: nat, mask: set<nat>)
    requires j < |run| && Possible(w, run[..j]) && Possible(w, run[..j + 1])
  {
    var before, now := After(w, run[..j]).bar, After(w, run[..j + 1]);
    (g >= |before.gens| || before.gens[g].Open?) && g < |now.bar.gens| && now.bar.gens[g] == Closed(mask) && mask == Present(now)
  }

  lemma Closing(w: World, a: Action, g: nat)
    requires Inv(w) && Enabled(w, a) && g < |Step(w, a).bar.gens| && Step(w, a).bar.gens[g].Closed?
    requires g >= |w.bar.gens| || w.bar.gens[g].Open?
    ensures Step(w, a).bar.gens[g] == Closed(Present(Step(w, a)))
  {
    match a
    case Reach(l) => ReachInv(w, l);
    case Depart(l) => LeaveInv(w, l);
    case _ => WakeInv(w, a);
  }

  lemma ReleasedNow(w: World, run: seq<Action>, j: nat, g: nat, mask: set<nat>)
    requires Inv(w) && Possible(w, run) && j < |run| && Possible(w, run[..j]) && Possible(w, run[..j + 1])
    requires Enabled(After(w, run[..j]), run[j]) && After(w, run[..j + 1]) == Step(After(w, run[..j]), run[j])
    requires ClosedAs(After(w, run[..j + 1]), g, mask) && !IsClosed(After(w, run[..j]), g)
    ensures ReleasedAt(w, run, j, g, mask)
  {
    RunInv(w, run[..j]);
    Closing(After(w, run[..j]), run[j], g);
  }

  predicate IsClosed(w: World, g: nat) { g < |w.bar.gens| && w.bar.gens[g].Closed? }

  predicate ClosedAs(w: World, g: nat, mask: set<nat>) { g < |w.bar.gens| && w.bar.gens[g] == Closed(mask) }

  lemma KeepsClosed(w: World, a: Action, g: nat, mask: set<nat>)
    requires Enabled(w, a) && IsClosed(w, g) && ClosedAs(Step(w, a), g, mask)
    ensures ClosedAs(w, g, mask)
  {
  }

  /** Every world of a run. */
  predicate Tracks(v: seq<World>, run: seq<Action>) {
    |v| == |run| + 1 && forall i {:trigger run[i]} :: 0 <= i < |run| ==> Enabled(v[i], run[i]) && v[i + 1] == Step(v[i], run[i])
  }

  predicate IsTrace(w: World, run: seq<Action>, v: seq<World>) {
    |v| == |run| + 1 && v[0] == w && forall k {:trigger v[k]} :: 0 <= k <= |run| ==> Possible(w, run[..k]) && v[k] == After(w, run[..k])
  }

  lemma Trace(w: World, run: seq<Action>) returns (v: seq<World>)
    requires Possible(w, run)
    ensures Tracks(v, run) && IsTrace(w, run, v)
  {
    forall k | 0 <= k <= |run| ensures Possible(w, run[..k]) { Prefix(w, run, k); }
    v := seq(|run| + 1, k requires 0 <= k <= |run| => After(w, run[..k]));
    forall i | 0 <= i < |run| ensures Enabled(v[i], run[i]) && v[i + 1] == Step(v[i], run[i]) { Prefix(w, run, i); }
  }

  lemma {:induction false} LastOpen(v: seq<World>, run: seq<Action>, k: nat, g: nat, mask: set<nat>) returns (j: nat)
    requires Tracks(v, run) && k <= |run| && ClosedAs(v[k], g, mask) && !IsClosed(v[0], g)
    ensures j < k && !IsClosed(v[j], g) && ClosedAs(v[j + 1], g, mask)
    decreases k
  {
    j := k - 1;
    if IsClosed(v[j], g) {
      KeepsClosed(v[j], run[j], g, mask);
      j := LastOpen(v, run, j, g, mask);
    }
  }

  /** Whatever generation is closed, it was closed with everybody there. */
  lemma WhenReleased(w: World, run: seq<Action>, k: nat, g: nat, mask: set<nat>) returns (j: nat)
    requires Inv(w) && Possible(w, run) && k <= |run| && Possible(w, run[..k])
    requires ClosedAs(After(w, run[..k]), g, mask) && !IsClosed(w, g)
    ensures j < k && Possible(w, run[..j]) && Possible(w, run[..j + 1]) && ReleasedAt(w, run, j, g, mask)
  {
    var v := Trace(w, run);
    assert v[k] == After(w, run[..k]);
    j := LastOpen(v, run, k, g, mask);
    assert v[j] == After(w, run[..j]) && v[j + 1] == After(w, run[..j + 1]) && Enabled(v[j], run[j]);
    ReleasedNow(w, run, j, g, mask);
  }

  /** A wait that returns true, in any run from the start, does so for the generation it joined, released
      when every thread still in the kernel had arrived in it, and reports their mask. */
  lemma WaitIsRendezvous(lanes: nat, run: seq<Action>, k: nat) returns (j: nat)
    requires Possible(Start(lanes), run) && k < |run| && Possible(Start(lanes), run[..k])
    requires Enabled(After(Start(lanes), run[..k]), run[k]) && Joined(After(Start(lanes), run[..k]), run[k]).Closed?
    ensures j <= k && Possible(Start(lanes), run[..j]) && Possible(Start(lanes), run[..j + 1])
    ensures
      var v := After(Start(lanes), run[..k]);
      ReleasedAt(Start(lanes), run, j, Mine(v, run[k]), Joined(v, run[k]).mask)
  {
    var w := Start(lanes);
    var v := After(w, run[..k]);
    StartInv(lanes);
    Prefix(w, run, k);
    j := WhenReleased(w, run, k + 1, Mine(v, run[k]), Joined(v, run[k]).mask);
  }
}
