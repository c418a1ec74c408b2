/** The warp reduction of kernels/warpreduce.go, on top of the exchange. */
module WarpReduce {
  import opened Basics
  import opened Barrier
  import opened WarpExchange

  const WARP_SIZE := 32
  const ROUNDS := 5

  /** The distance of round k: half the warp, then half of that, down to 0. */
  function Off(k: nat): nat {
    if k == 0 then 16 else if k == 1 then 8 else if k == 2 then 4 else if k == 3 then 2 else if k == 4 then 1 else 0
  }

  /** How many lanes still count before round k. */
  function Live(k: nat): nat { if k == 0 then 32 else Off(k - 1) }

  /** Round k is one of the loop, or the exit from it. */
  predicate InLoop(k: nat) { k == 0 || Off(k - 1) > 0 }

  lemma FiveRounds(k: nat)
    ensures InLoop(k) && Off(k) == 0 <==> k == ROUNDS
  {
  }

  lemma OffIs(k: nat)
    requires Off(k) > 0
    ensures InLoop(k) && Off(k) > 0 && Live(k) == 2 * Off(k) && Live(k + 1) == Off(k) && Off(k + 1) == Off(k) / 2 && Live(k) <= WARP_SIZE
  {
  }

  /** The loop of the kernel: v += ShuffleDown(v, off). */
  function Reduction(plus: (int, int) -> int): Program {
    Program(
      (l: nat, k: nat, acc: int) => if Off(k) > 0 then Some(Request("ShuffleDownF32", Shuffle(l + Off(k)), acc)) else None,
      (l: nat, k: nat, acc: int, got: Answer) => if got.Value? then plus(acc, got.v) else acc)
  }

  /** One round: a lane that walks off the end of the warp adds its own value. */
  function Round(plus: (int, int) -> int, v: seq<int>, off: nat): (r: seq<int>)
    ensures |r| == |v|
  {
    seq(|v|, l requires 0 <= l < |v| => plus(v[l], if l + off < |v| then v[l + off] else v[l]))
  }

  function Halved(plus: (int, int) -> int, x: seq<int>, k: nat): (r: seq<int>)
    ensures |r| == |x|
  {
    if k == 0 then x else Round(plus, Halved(plus, x, k - 1), Off(k - 1))
  }

  method Reduce(plus: (int, int) -> int, x: seq<int>) returns (v: seq<int>)
    ensures v == Halved(plus, x, ROUNDS)
  {
    v := x;
    var off := WARP_SIZE / 2;
    ghost var k := 0;
    while off > 0
      invariant InLoop(k) && off == Off(k) && v == Halved(plus, x, k)
      decreases off
    {
      OffIs(k);
      v := Round(plus, v, off);
      off := off / 2;
      k := k + 1;
    }
    FiveRounds(k);
  }

  // Any interleaving

  /** Lockstep is at round k of the loop. */
  predicate AtRound(plus: (int, int) -> int, x: seq<int>, k: nat) {
    |x| == WARP_SIZE && forall l :: 0 <= l < |x| ==> Level(Reduction(plus), x, k)[l] == Some(Halved(plus, x, k)[l])
  }

  lemma LaneAsks(plus: (int, int) -> int, x: seq<int>, k: nat, l: nat, off: nat)
    requires AtRound(plus, x, k) && l < |x| && off == Off(k) > 0
    ensures l in Takers(Reduction(plus), x, k)
    ensures Asked(Reduction(plus), x, k, l).kind == Shuffle(l + off) && Asked(Reduction(plus), x, k, l).v == Halved(plus, x, k)[l]
  {
  }

  lemma LaneGets(plus: (int, int) -> int, x: seq<int>, k: nat, l: nat, off: nat)
    requires AtRound(plus, x, k) && l < |x| && off == Off(k) > 0
    ensures l in Takers(Reduction(plus), x, k)
    ensures Due(Reduction(plus), x, k, l) == Value(Halved(plus, x, k)[if l + off < |x| then l + off else l])
  {
    LaneAsks(plus, x, k, l, off);
    if l + off < |x| { LaneAsks(plus, x, k, l + off, off); }
  }

  lemma LaneTakes(plus: (int, int) -> int, x: seq<int>, k: nat, l: nat, off: nat)
    requires AtRound(plus, x, k) && l < |x| && off == Off(k) > 0
    ensures Level(Reduction(plus), x, k + 1)[l] == Some(Round(plus, Halved(plus, x, k), off)[l])
  {
    LaneGets(plus, x, k, l, off);
    NextLevel(Reduction(plus), x, k, l);
  }

  lemma {:induction false} AllTake(plus: (int, int) -> int, x: seq<int>, k: nat)
    requires |x| == WARP_SIZE && InLoop(k)
    ensures AtRound(plus, x, k)
  {
    if k > 0 {
      var j: nat := k - 1;
      OffIs(j);
      AllTake(plus, x, j);
      forall l | 0 <= l < |x| ensures Level(Reduction(plus), x, k)[l] == Some(Halved(plus, x, k)[l]) {
        LaneTakes(plus, x, j, l, Off(j));
      }
    }
  }

  /** The balanced tree that round k has built below lane l. */
  function Tree(plus: (int, int) -> int, x: seq<int>, k: nat, l: nat): int {
    if k == 0 then (if l < |x| then x[l] else 0)
    else plus(Tree(plus, x, k - 1, l), Tree(plus, x, k - 1, l + Off(k - 1)))
  }

  lemma HalvedNext(plus: (int, int) -> int, x: seq<int>, k: nat, off: nat, l: nat)
    requires off == Off(k) && l + off < |x|
    ensures Halved(plus, x, k + 1)[l] == plus(Halved(plus, x, k)[l], Halved(plus, x, k)[l + off])
  {
  }

  lemma TreeNext(plus: (int, int) -> int, x: seq<int>, k: nat, off: nat, l: nat)
    requires off == Off(k)
    ensures Tree(plus, x, k + 1, l) == plus(Tree(plus, x, k, l), Tree(plus, x, k, l + off))
  {
  }

  lemma {:induction false} HalvedIsTree(plus: (int, int) -> int, x: seq<int>, k: nat, l: nat)
    requires |x| == WARP_SIZE && InLoop(k) && l < Live(k) <= |x|
    ensures Halved(plus, x, k)[l] == Tree(plus, x, k, l)
  {
    if k > 0 {
      var j: nat := k - 1;
      var off := Off(j);
      OffIs(j);
      HalvedIsTree(plus, x, j, l);
      HalvedIsTree(plus, x, j, l + off);
      HalvedNext(plus, x, j, off, l);
      TreeNext(plus, x, j, off, l);
    }
  }

  /** Nobody is in the kernel after the last round. */
  lemma NoMoreRounds(plus: (int, int) -> int, x: seq<int>, k: nat, lane: nat)
    requires lane < |x| && Level(Reduction(plus), x, k)[lane].Some?
    ensures InLoop(k)
  {
    if k > 0 {
      assert Level(Reduction(plus), x, k)[lane] == Next(Reduction(plus), x, k - 1, lane);
      assert lane in Takers(Reduction(plus), x, k - 1);
    }
  }

  /** Lane 0 has left the loop, off being 0. */
  predicate Finished(plus: (int, int) -> int, x: seq<int>, schedule: seq<nat>, k: nat) {
    && |x| == WARP_SIZE && Schedules(Reduction(plus), Begin(x), schedule)
    && AfterAll(Reduction(plus), Begin(x), schedule).lanes[0].Idle?
    && AfterAll(Reduction(plus), Begin(x), schedule).lanes[0].k == k && Off(k) == 0
  }

  lemma LaneZeroHolds(plus: (int, int) -> int, x: seq<int>, schedule: seq<nat>, k: nat)
    requires Finished(plus, x, schedule, k)
    ensures InLoop(k) && AfterAll(Reduction(plus), Begin(x), schedule).lanes[0].acc == Halved(plus, x, k)[0]
  {
    ExchangeIsLockstep(Reduction(plus), x, schedule, 0);
    NoMoreRounds(plus, x, k, 0);
    AllTake(plus, x, k);
  }

  /** In every interleaving of a full warp, the lane that writes leaves the loop after five rounds with
      the balanced tree of all 32 inputs. */
  lemma LaneZeroHoldsTree(plus: (int, int) -> int, x: seq<int>, schedule: seq<nat>, k: nat)
    requires Finished(plus, x, schedule, k)
    ensures k == ROUNDS && AfterAll(Reduction(plus), Begin(x), schedule).lanes[0].acc == Tree(plus, x, k, 0)
  {
    LaneZeroHolds(plus, x, schedule, k);
    LastTree(plus, x, k);
    FiveRounds(k);
  }

  lemma LastTree(plus: (int, int) -> int, x: seq<int>, k: nat)
    requires |x| == WARP_SIZE && InLoop(k) && Off(k) == 0
    ensures Halved(plus, x, k)[0] == Tree(plus, x, k, 0)
  {
    HalvedIsTree(plus, x, k, 0);
  }

  // With an associative and commutative plus, the tree is the sum.

  predicate Swaps(plus: (int, int) -> int, a: int, b: int) { plus(a, b) == plus(b, a) }

  predicate Groups(plus: (int, int) -> int, a: int, b: int, c: int) { plus(plus(a, b), c) == plus(a, plus(b, c)) }

  ghost predicate Commutes(plus: (int, int) -> int) {
    (forall a, b :: Swaps(plus, a, b)) && (forall a, b, c :: Groups(plus, a, b, c))
  }

  /** From left to right. */
  function Sum(plus: (int, int) -> int, s: seq<int>): int
    requires s != []
  {
    if |s| == 1 then s[0] else plus(Sum(plus, s[..|s| - 1]), s[|s| - 1])
  }

  lemma {:induction false} SumJoin(plus: (int, int) -> int, a: seq<int>, b: seq<int>)
    requires Commutes(plus) && a != [] && b != []
    ensures Sum(plus, a + b) == plus(Sum(plus, a), Sum(plus, b))
    decreases |b|
  {
    var n := |b| - 1;
    assert (a + b)[..|a| + n] == a + b[..n] && (a + b)[|a| + n] == b[n];
    if n > 0 {
      SumJoin(plus, a, b[..n]);
      assert Groups(plus, Sum(plus, a), Sum(plus, b[..n]), b[n]);
    } else {
      assert a + b[..n] == a;
    }
  }

  function Zip(plus: (int, int) -> int, a: seq<int>, b: seq<int>): (r: seq<int>)
    requires |a| == |b|
    ensures |r| == |a|
  {
    seq(|a|, l requires 0 <= l < |a| => plus(a[l], b[l]))
  }

  lemma Interchange(plus: (int, int) -> int, a: int, b: int, c: int, d: int)
    requires Commutes(plus)
    ensures plus(plus(a, b), plus(c, d)) == plus(plus(a, c), plus(b, d))
  {
    assert Groups(plus, a, b, plus(c, d)) && Groups(plus, b, c, d);
    assert Swaps(plus, b, c);
    assert Groups(plus, c, b, d) && Groups(plus, a, c, plus(b, d));
  }

  lemma {:induction false} SumZip(plus: (int, int) -> int, a: seq<int>, b: seq<int>)
    requires Commutes(plus) && |a| == |b| > 0
    ensures Sum(plus, Zip(plus, a, b)) == plus(Sum(plus, a), Sum(plus, b))
    decreases |a|
  {
    var n := |a| - 1;
    if n > 0 {
      SumZip(plus, a[..n], b[..n]);
      assert Zip(plus, a, b)[..n] == Zip(plus, a[..n], b[..n]);
      Interchange(plus, Sum(plus, a[..n]), Sum(plus, b[..n]), a[n], b[n]);
    }
  }

  /** A round folds the second half of what counts onto the first. */
  lemma RoundKeepsSum(plus: (int, int) -> int, v: seq<int>, off: nat)
    requires Commutes(plus) && off > 0 && 2 * off <= |v|
    ensures Sum(plus, Round(plus, v, off)[..off]) == Sum(plus, v[..2 * off])
  {
    var a, b := v[..off], v[off..2 * off];
    RoundIsZip(plus, v, off);
    SumZip(plus, a, b);
    SumJoin(plus, a, b);
  }

  lemma RoundIsZip(plus: (int, int) -> int, v: seq<int>, off: nat)
    requires 2 * off <= |v|
    ensures Round(plus, v, off)[..off] == Zip(plus, v[..off], v[off..2 * off]) && v[..2 * off] == v[..off] + v[off..2 * off]
  {
  }

  lemma {:induction false} HalvedKeepsSum(plus: (int, int) -> int, x: seq<int>, k: nat)
    requires Commutes(plus) && |x| == WARP_SIZE && InLoop(k)
    ensures 0 < Live(k) <= |x| && Sum(plus, Halved(plus, x, k)[..Live(k)]) == Sum(plus, x)
  {
    if k == 0 {
      assert x[..|x|] == x;
    } else {
      var j: nat := k - 1;
      OffIs(j);
      HalvedKeepsSum(plus, x, j);
      SumNext(plus, x, j, Off(j));
    }
  }

  lemma SumNext(plus: (int, int) -> int, x: seq<int>, k: nat, off: nat)
    requires Commutes(plus) && off == Off(k) && 0 < 2 * off <= |x|
    ensures Sum(plus, Halved(plus, x, k + 1)[..off]) == Sum(plus, Halved(plus, x, k)[..2 * off])
  {
    RoundKeepsSum(plus, Halved(plus, x, k), off);
    assert Halved(plus, x, k + 1) == Round(plus, Halved(plus, x, k), off);
  }

  lemma FirstIsSum(plus: (int, int) -> int, v: seq<int>)
    requires v != []
    ensures Sum(plus, v[..1]) == v[0]
  {
  }

  /** The balanced tree is the sum. */
  lemma TreeIsSum(plus: (int, int) -> int, x: seq<int>, k: nat)
    requires Commutes(plus) && |x| == WARP_SIZE && InLoop(k) && Off(k) == 0
    ensures Tree(plus, x, k, 0) == Sum(plus, x)
  {
    LastTree(plus, x, k);
    HalvedKeepsSum(plus, x, k);
    LiveOne(k);
    FirstIsSum(plus, Halved(plus, x, k));
  }

  lemma LiveOne(k: nat)
    requires InLoop(k) && Off(k) == 0
    ensures Live(k) == 1
  {
  }

  /** Then the total of the warp is in lane 0, whatever the interleaving. */
  lemma LaneZeroHoldsSum(plus: (int, int) -> int, x: seq<int>, schedule: seq<nat>, k: nat)
    requires Commutes(plus) && Finished(plus, x, schedule, k)
    ensures AfterAll(Reduction(plus), Begin(x), schedule).lanes[0].acc == Sum(plus, x)
  {
    LaneZeroHolds(plus, x, schedule, k);
    LastTree(plus, x, k);
    TreeIsSum(plus, x, k);
  }
}
