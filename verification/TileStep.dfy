/** The op-at-a-time path of tile/run.go: one kernel for each operation, a buffer between each, and the
    same values. */
module TileStep {
  import opened Basics
  import opened TileGraph
  import opened TileKernel
  import opened TileRun
  import opened TileEnd

  /** One operation over buffers that are already there. */
  function Single(d: Node, vals: seq<seq<int>>): seq<Node> {
    seq(|vals|, k requires 0 <= k < |vals| => Node(Input, |vals[k]|, [], vals[k], 0, "")) +
    [Node(d.kind, d.n, seq(|vals|, k => k), [], d.scale, d.fn)]
  }

  lemma SingleBuilt(nodes: seq<Node>, id: nat, vals: seq<seq<int>>)
    requires Built(nodes) && id < |nodes| && NodeOk(nodes, id) && !nodes[id].kind.Input?
    requires |vals| == |nodes[id].args| && forall k :: 0 <= k < |vals| ==> |vals[k]| == nodes[nodes[id].args[k]].n
    ensures Built(Single(nodes[id], vals))
  {
  }

  /** The operation over the values of its arguments has the value it has in the graph. */
  lemma SingleValue(o: Ops, nodes: seq<Node>, id: nat, vals: seq<seq<int>>, i: nat)
    requires Built(nodes) && id < |nodes| && NodeOk(nodes, id) && !nodes[id].kind.Input? && i < nodes[id].n
    requires |vals| == |nodes[id].args| && forall k :: 0 <= k < |vals| ==> vals[k] == Meaning(o, nodes, nodes[id].args[k])
    ensures Built(Single(nodes[id], vals))
    ensures Value(o, Single(nodes[id], vals), |vals|, i) == Value(o, nodes, id, i)
  {
    var one := Single(nodes[id], vals);
    SingleBuilt(nodes, id, vals);
    if nodes[id].kind.Fir? {
      assert one[2].args == [0, 1];
      SingleTaps(o, nodes, id, vals, i, nodes[nodes[id].args[1]].n);
    } else {
      assert forall k: nat :: k < |vals| ==> Value(o, one, k, i) == vals[k][i];
    }
  }

  lemma {:induction false} SingleTaps(o: Ops, nodes: seq<Node>, id: nat, vals: seq<seq<int>>, i: int, k: nat)
    requires Built(nodes) && id < |nodes| && NodeOk(nodes, id) && nodes[id].kind.Fir? && k <= nodes[nodes[id].args[1]].n
    requires |vals| == 2 && forall k :: 0 <= k < 2 ==> vals[k] == Meaning(o, nodes, nodes[id].args[k])
    requires var one := Single(nodes[id], vals); one[2].args == [0, 1] && k <= one[1].n
    requires Built(Single(nodes[id], vals)) && NodeOk(Single(nodes[id], vals), 2)
    ensures Taps(o, Single(nodes[id], vals), 2, i, k) == Taps(o, nodes, id, i, k)
    decreases k
  {
    if k > 0 {
      var one := Single(nodes[id], vals);
      SingleTaps(o, nodes, id, vals, i, k - 1);
      assert NodeOk(nodes, nodes[id].args[1]);
      assert one[1].host == vals[1];
      assert vals[1][k - 1] == Value(o, nodes, nodes[id].args[1], k - 1);
      assert Extended(o, one, 0, i - (k - 1)) == Extended(o, nodes, nodes[id].args[0], i - (k - 1));
    }
  }

  // What a launch leaves behind

  predicate Holds(out: seq<Option<int>>, v: seq<int>) { |out| == |v| && forall i :: 0 <= i < |v| ==> out[i] == Some(v[i]) }

  /** A finished run of the fused kernel of a graph whose root is its last node. */
  ghost predicate Delivered(l: Launch, w: World, run: seq<(nat, nat)>, o: Ops, one: seq<Node>, v: seq<int>) {
    && l.o == o && l.nodes == one && |one| == l.root + 1 && AtStart(l, w) && Runs(l, w, run)
    && Finished(l, After(l, w, run)) && Holds(After(l, w, run).out, v)
  }

  ghost predicate Delivers(o: Ops, one: seq<Node>, v: seq<int>) { exists l, w, run :: Delivered(l, w, run, o, one, v) }

  /** In any run of any launch the kernel leaves the meaning of its root. */
  lemma HoldsMeaning(l: Launch, w: World, run: seq<(nat, nat)>)
    requires AtStart(l, w) && Runs(l, w, run) && Finished(l, After(l, w, run))
    ensures Holds(After(l, w, run).out, Meaning(l.o, l.nodes, l.root))
  {
    RunInv(l, w, run);
    forall i | 0 <= i < Len(l) ensures After(l, w, run).out[i] == Some(Meaning(l.o, l.nodes, l.root)[i]) {
      FusedIsMeaning(l, w, run, i);
    }
  }

  function Uploaded(nodes: seq<Node>, params: seq<nat>): seq<seq<int>> {
    seq(|params|, p requires 0 <= p < |params| => if params[p] < |nodes| then nodes[params[p]].host else [])
  }

  /** The launch of tile/run.go:75. */
  function LaunchOf(o: Ops, nodes: seq<Node>, root: nat): Launch
    requires Built(nodes) && root < |nodes|
  {
    var k := Generate(nodes, root);
    Launch(o, nodes, root, k, Uploaded(nodes, k.params), (nodes[root].n + BLOCK_SIZE - 1) / BLOCK_SIZE, BLOCK_SIZE)
  }

  function FreshBlock(l: Launch): Block {
    Block(seq(l.dim, t requires 0 <= t => Thread(Enter(l, 0, t), map[])),
          seq(|l.k.windows|, _ => seq(TILE, _ => None)))
  }

  function FreshWorld(l: Launch): World
    requires l.root < |l.nodes|
  {
    World(seq(l.grid, _ => FreshBlock(l)), seq(Len(l), _ => None), false)
  }

  lemma {:induction false} ParamsKnown(nodes: seq<Node>, order: seq<nat>)
    requires Known(nodes, order)
    ensures Known(nodes, Inputs(nodes, order))
    decreases |order|
  {
    if order != [] { ParamsKnown(nodes, order[1..]); }
  }

  /** The blocks cover the result, and no block is without a thread that has an index of it. */
  lemma IsLaunched(o: Ops, nodes: seq<Node>, root: nat)
    requires Built(nodes) && root < |nodes|
    ensures Launched(LaunchOf(o, nodes, root))
    ensures forall b: nat :: b < LaunchOf(o, nodes, root).grid <==> b * BLOCK_SIZE < nodes[root].n
  {
    var l := LaunchOf(o, nodes, root);
    ParamsKnown(nodes, Order(nodes, root));
    BaseIs(l.grid, l.dim);
  }

  lemma FreshAtStart(l: Launch)
    requires Launched(l)
    ensures AtStart(l, FreshWorld(l))
  {
    assert BlockAtStart(l, FreshBlock(l));
  }

  /** That launch can be made, and finishes with the meaning of the root. */
  lemma MeaningDelivered(o: Ops, one: seq<Node>, root: nat)
    requires Built(one) && |one| == root + 1
    ensures Delivers(o, one, Meaning(o, one, root))
  {
    var l := LaunchOf(o, one, root);
    IsLaunched(o, one, root);
    FreshAtStart(l);
    StartInv(l, FreshWorld(l));
    var run := RunFinishes(l, FreshWorld(l));
    HoldsMeaning(l, FreshWorld(l), run);
    assert Delivered(l, FreshWorld(l), run, o, one, Meaning(o, one, root));
  }

  /** And no launch leaves anything else. */
  lemma DeliversMeaning(o: Ops, one: seq<Node>, root: nat, v: seq<int>)
    requires Built(one) && |one| == root + 1 && Delivers(o, one, v)
    ensures v == Meaning(o, one, root)
  {
    var l, w, run :| Delivered(l, w, run, o, one, v);
    HoldsMeaning(l, w, run);
    assert forall i :: 0 <= i < |v| ==> Some(v[i]) == After(l, w, run).out[i];
  }

  // The buffers of the stepwise path

  function Buffers(cache: map<nat, seq<int>>, args: seq<nat>): seq<seq<int>>
    requires forall k :: 0 <= k < |args| ==> args[k] in cache
  {
    seq(|args|, k requires 0 <= k < |args| => cache[args[k]])
  }

  /** The buffer of a node: an uploaded input, or what some run of the kernel of one operation left,
      launched over the buffers of its arguments. */
  ghost predicate BufferOk(o: Ops, nodes: seq<Node>, cache: map<nat, seq<int>>, x: nat)
    requires Built(nodes) && x in cache
  {
    x < |nodes| && NodeOk(nodes, x) &&
    if nodes[x].kind.Input? then cache[x] == nodes[x].host
    else
      && (forall k :: 0 <= k < |nodes[x].args| ==> nodes[x].args[k] in cache)
      && Delivers(o, Single(nodes[x], Buffers(cache, nodes[x].args)), cache[x])
  }

  ghost predicate Stepped(o: Ops, nodes: seq<Node>, cache: map<nat, seq<int>>)
    requires Built(nodes)
  {
    forall x {:trigger BufferOk(o, nodes, cache, x)} :: x in cache ==> BufferOk(o, nodes, cache, x)
  }

  /** An operation over buffers that hold the meanings of its arguments holds its own. */
  lemma SingleMeaning(o: Ops, nodes: seq<Node>, id: nat, vals: seq<seq<int>>)
    requires Built(nodes) && id < |nodes| && NodeOk(nodes, id) && !nodes[id].kind.Input?
    requires |vals| == |nodes[id].args| && forall k :: 0 <= k < |vals| ==> vals[k] == Meaning(o, nodes, nodes[id].args[k])
    ensures Built(Single(nodes[id], vals)) && Meaning(o, Single(nodes[id], vals), |vals|) == Meaning(o, nodes, id)
  {
    SingleBuilt(nodes, id, vals);
    forall i | 0 <= i < nodes[id].n ensures Value(o, Single(nodes[id], vals), |vals|, i) == Value(o, nodes, id, i) {
      SingleValue(o, nodes, id, vals, i);
    }
  }

  /** Whatever the launches between them did, every buffer holds the meaning of its node. */
  lemma {:induction false} BufferIsMeaning(o: Ops, nodes: seq<Node>, cache: map<nat, seq<int>>, x: nat)
    requires Built(nodes) && Stepped(o, nodes, cache) && x in cache
    ensures x < |nodes| && cache[x] == Meaning(o, nodes, x)
    decreases x
  {
    assert BufferOk(o, nodes, cache, x);
    var d := nodes[x];
    if !d.kind.Input? {
      var vals := Buffers(cache, d.args);
      forall k | 0 <= k < |vals| ensures vals[k] == Meaning(o, nodes, d.args[k]) {
        BufferIsMeaning(o, nodes, cache, d.args[k]);
      }
      SingleMeaning(o, nodes, x, vals);
      DeliversMeaning(o, Single(d, vals), |vals|, cache[x]);
    }
  }

  /** The two paths agree: whatever run the one fused kernel makes, and whatever runs the kernels of the
      stepwise path make, they leave the same values. */
  lemma FusedIsStepwise(l: Launch, w: World, run: seq<(nat, nat)>, cache: map<nat, seq<int>>)
    requires AtStart(l, w) && Runs(l, w, run) && Finished(l, After(l, w, run))
    requires Stepped(l.o, l.nodes, cache) && l.root in cache
    ensures Holds(After(l, w, run).out, cache[l.root])
  {
    HoldsMeaning(l, w, run);
    BufferIsMeaning(l.o, l.nodes, cache, l.root);
  }

  /** A new buffer leaves the others as they were. */
  lemma StillStepped(o: Ops, nodes: seq<Node>, cache: map<nat, seq<int>>, id: nat, v: seq<int>)
    requires Built(nodes) && Stepped(o, nodes, cache) && id !in cache
    requires BufferOk(o, nodes, cache[id := v], id)
    ensures Stepped(o, nodes, cache[id := v])
  {
    var r := cache[id := v];
    forall x | x in r ensures BufferOk(o, nodes, r, x) {
      if x != id {
        assert BufferOk(o, nodes, cache, x);
        if !nodes[x].kind.Input? { assert Buffers(r, nodes[x].args) == Buffers(cache, nodes[x].args); }
      }
    }
  }

  /** The operations among the nodes a cache has. */
  function Operations(nodes: seq<Node>, cache: map<nat, seq<int>>): set<nat> {
    set x | x in cache && x < |nodes| && !nodes[x].kind.Input?
  }

  lemma OneMore(nodes: seq<Node>, cache: map<nat, seq<int>>, id: nat, v: seq<int>)
    requires id < |nodes| && id !in cache
    ensures |Operations(nodes, cache[id := v])| == |Operations(nodes, cache)| + if nodes[id].kind.Input? then 0 else 1
  {
    if nodes[id].kind.Input? {
      assert Operations(nodes, cache[id := v]) == Operations(nodes, cache);
    } else {
      assert Operations(nodes, cache[id := v]) == Operations(nodes, cache) + {id};
    }
  }

  /** A cache that has only gained buffers of nodes below some handle. */
  predicate Grown(was: map<nat, seq<int>>, now: map<nat, seq<int>>, below: nat) {
    (forall x :: x in was ==> x in now && now[x] == was[x]) && forall x :: x in now && x !in was ==> x < below
  }

  /** The buffers of some arguments, holding their meanings. */
  predicate Given(o: Ops, nodes: seq<Node>, cache: map<nat, seq<int>>, args: seq<nat>, vals: seq<seq<int>>)
    requires Built(nodes)
  {
    |vals| == |args| && forall k :: 0 <= k < |args| ==>
      args[k] in cache && args[k] < |nodes| && NodeOk(nodes, args[k]) && vals[k] == cache[args[k]] == Meaning(o, nodes, args[k])
  }

  lemma GrownTwice(was: map<nat, seq<int>>, mid: map<nat, seq<int>>, now: map<nat, seq<int>>, below: nat, id: nat)
    requires Grown(was, mid, below) && Grown(mid, now, id) && id <= below
    ensures Grown(was, now, below)
  {
  }

  lemma GivenMore(o: Ops, nodes: seq<Node>, was: map<nat, seq<int>>, now: map<nat, seq<int>>, args: seq<nat>, vals: seq<seq<int>>, k: nat, below: nat)
    requires Built(nodes) && k < |args| && args[k] < |nodes| && Given(o, nodes, was, args[..k], vals) && Grown(was, now, below)
    requires NodeOk(nodes, args[k]) && args[k] in now && now[args[k]] == Meaning(o, nodes, args[k])
    ensures Given(o, nodes, now, args[..k + 1], vals + [now[args[k]]])
  {
    assert forall j :: 0 <= j < k ==> args[..k][j] == args[j];
  }

  class Stepwise {
    const o: Ops
    const nodes: seq<Node>
    var cache: map<nat, seq<int>>
    var launches: nat

    constructor (o: Ops, nodes: seq<Node>)
      requires Built(nodes)
      ensures this.o == o && this.nodes == nodes && Valid() && cache == map[]
    {
      this.o, this.nodes := o, nodes;
      cache, launches := map[], 0;
      new;
      assert Operations(nodes, map[]) == {};
    }

    /** Every buffer was left by its own launch, and one kernel was launched for each operation. */
    ghost predicate Valid()
      reads this
    {
      Built(nodes) && Stepped(o, nodes, cache) && launches == |Operations(nodes, cache)|
    }

    method Step(id: nat) returns (v: seq<int>)
      requires Valid() && id < |nodes|
      modifies this
      ensures Valid() && id in cache && v == cache[id] == Meaning(o, nodes, id)
      ensures Grown(old(cache), cache, id + 1)
      decreases id, 1
    {
      if id !in cache {
        if nodes[id].kind.Input? {
          Remember(id, nodes[id].host);
        } else {
          var vals := Arguments(id);
          v := RunOne(id, vals);
          Remember(id, v);
          launches := launches + 1;
        }
      }
      BufferIsMeaning(o, nodes, cache, id);
      v := cache[id];
    }

    /** The buffers of an operation's arguments. */
    method Arguments(id: nat) returns (vals: seq<seq<int>>)
      requires Valid() && id < |nodes| && id !in cache && NodeOk(nodes, id)
      modifies this
      ensures Valid() && id !in cache && Grown(old(cache), cache, id)
      ensures Given(o, nodes, cache, nodes[id].args, vals)
      decreases id, 0
    {
      vals := [];
      for k := 0 to |nodes[id].args|
        invariant Valid() && Grown(old(cache), cache, id) && Given(o, nodes, cache, nodes[id].args[..k], vals)
      {
        ghost var was := cache;
        var u := Step(nodes[id].args[k]);
        GrownTwice(old(cache), was, cache, id, nodes[id].args[k] + 1);
        GivenMore(o, nodes, was, cache, nodes[id].args, vals, k, nodes[id].args[k] + 1);
        vals := vals + [u];
      }
      assert nodes[id].args[..|nodes[id].args|] == nodes[id].args;
    }

    /** The launch of one operation. */
    method RunOne(id: nat, vals: seq<seq<int>>) returns (v: seq<int>)
      requires Built(nodes) && id < |nodes| && NodeOk(nodes, id) && !nodes[id].kind.Input?
      requires id !in cache && Given(o, nodes, cache, nodes[id].args, vals)
      ensures BufferOk(o, nodes, cache[id := v], id)
    {
      SingleBuilt(nodes, id, vals);
      MeaningDelivered(o, Single(nodes[id], vals), |vals|);
      v := Meaning(o, Single(nodes[id], vals), |vals|);
      assert Buffers(cache[id := v], nodes[id].args) == vals;
    }

    method Remember(id: nat, v: seq<int>)
      requires Valid() && id < |nodes| && id !in cache && BufferOk(o, nodes, cache[id := v], id)
      modifies this`cache
      ensures cache == old(cache)[id := v] && Stepped(o, nodes, cache)
      ensures |Operations(nodes, cache)| == launches + if nodes[id].kind.Input? then 0 else 1
    {
      StillStepped(o, nodes, cache, id, v);
      OneMore(nodes, cache, id, v);
      cache := cache[id := v];
    }
  }

  /** The kernel of one operation, in any run, leaves the node's value. */
  lemma SingleLaunch(l: Launch, w: World, run: seq<(nat, nat)>, nodes: seq<Node>, id: nat, vals: seq<seq<int>>)
    requires Built(nodes) && id < |nodes| && NodeOk(nodes, id) && !nodes[id].kind.Input?
    requires |vals| == |nodes[id].args| && forall k :: 0 <= k < |vals| ==> vals[k] == Meaning(l.o, nodes, nodes[id].args[k])
    requires l.nodes == Single(nodes[id], vals) && l.root == |vals|
    requires AtStart(l, w) && Runs(l, w, run) && Finished(l, After(l, w, run))
    ensures Holds(After(l, w, run).out, Meaning(l.o, nodes, id))
  {
    HoldsMeaning(l, w, run);
    SingleMeaning(l.o, nodes, id, vals);
  }
}
