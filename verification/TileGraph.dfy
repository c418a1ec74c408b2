/** The pipelines of tile/tile.go: what the builder accepts and what a graph means, point by point. */
module TileGraph {

  const BLOCK_SIZE: nat := 256
  const MAX_TAPS: nat := 64

  datatype Kind = Input | Scale | Add | Mul | Unary | Hypot | Fir

  /** A node; its identity is its position in the graph. */
  datatype Node = Node(kind: Kind, n: nat, args: seq<nat>, host: seq<int>, scale: int, fn: string)

  /** Elements are whatever these operations say; nothing is assumed of them. */
  datatype Ops = Ops(
    zero: int,
    add: (int, int) -> int,
    mul: (int, int) -> int,
    hypot: (int, int) -> int,
    unary: (string, int) -> int)

  predicate ContainsFir(nodes: seq<Node>, id: nat)
    decreases id
  {
    id < |nodes| &&
    (nodes[id].kind.Fir? || exists k :: 0 <= k < |nodes[id].args| && nodes[id].args[k] < id && ContainsFir(nodes, nodes[id].args[k]))
  }

  /** A way from a node through arguments. */
  predicate Way(nodes: seq<Node>, id: nat, way: seq<nat>) {
    && way != [] && way[0] == id && (forall k :: 0 <= k < |way| ==> way[k] < |nodes|)
    && forall k :: 0 < k < |way| ==> way[k] in nodes[way[k - 1]].args && way[k] < way[k - 1]
  }

  /** A graph contains a window exactly if a way leads to one. */
  lemma {:induction false} ContainsFirIs(nodes: seq<Node>, id: nat)
    ensures ContainsFir(nodes, id) <==> exists way :: Way(nodes, id, way) && nodes[way[|way| - 1]].kind.Fir?
    decreases id
  {
    if ContainsFir(nodes, id) {
      var way := WayToFir(nodes, id);
    }
    if way :| Way(nodes, id, way) && nodes[way[|way| - 1]].kind.Fir? { FirOnWay(nodes, id, way); }
  }

  lemma {:induction false} WayToFir(nodes: seq<Node>, id: nat) returns (way: seq<nat>)
    requires ContainsFir(nodes, id)
    ensures Way(nodes, id, way) && nodes[way[|way| - 1]].kind.Fir?
    decreases id
  {
    if nodes[id].kind.Fir? {
      way := [id];
    } else {
      var k :| 0 <= k < |nodes[id].args| && nodes[id].args[k] < id && ContainsFir(nodes, nodes[id].args[k]);
      var rest := WayToFir(nodes, nodes[id].args[k]);
      way := [id] + rest;
    }
  }

  lemma {:induction false} FirOnWay(nodes: seq<Node>, id: nat, way: seq<nat>)
    requires Way(nodes, id, way) && nodes[way[|way| - 1]].kind.Fir?
    ensures ContainsFir(nodes, id)
    decreases |way|
  {
    if |way| > 1 {
      var rest := way[1..];
      assert forall k :: 0 <= k < |rest| ==> rest[k] == way[k + 1];
      FirOnWay(nodes, way[1], rest);
      var k :| 0 <= k < |nodes[id].args| && nodes[id].args[k] == way[1];
    }
  }

  function Arity(k: Kind): nat { match k case Input => 0 case Scale => 1 case Unary => 1 case _ => 2 }

  /** What the constructors check. */
  predicate NodeOk(nodes: seq<Node>, id: nat) {
    id < |nodes| &&
    var d := nodes[id];
    && |d.args| == Arity(d.kind)
    && (forall k :: 0 <= k < |d.args| ==> d.args[k] < id)
    && (d.kind.Input? ==> |d.host| == d.n)
    && (if d.kind.Fir? then
          && nodes[d.args[0]].n == d.n && !ContainsFir(nodes, d.args[0])
          && nodes[d.args[1]].kind.Input? && 1 <= nodes[d.args[1]].n <= MAX_TAPS
        else forall k :: 0 <= k < |d.args| ==> nodes[d.args[k]].n == d.n)
  }

  predicate Built(nodes: seq<Node>) { forall id :: 0 <= id < |nodes| ==> NodeOk(nodes, id) }

  /** The value of a node at an index of it, and FIR y[n] = sum h[k] * a[n-k] with a zero before its
      start. */
  function Value(o: Ops, nodes: seq<Node>, id: nat, i: nat): int
    requires Built(nodes) && id < |nodes| && i < nodes[id].n
    decreases id, 1, 0
  {
    assert NodeOk(nodes, id);
    var d := nodes[id];
    match d.kind
    case Input => d.host[i]
    case Scale => o.mul(d.scale, Value(o, nodes, d.args[0], i))
    case Add => o.add(Value(o, nodes, d.args[0], i), Value(o, nodes, d.args[1], i))
    case Mul => o.mul(Value(o, nodes, d.args[0], i), Value(o, nodes, d.args[1], i))
    case Unary => o.unary(d.fn, Value(o, nodes, d.args[0], i))
    case Hypot => o.hypot(Value(o, nodes, d.args[0], i), Value(o, nodes, d.args[1], i))
    case Fir => Taps(o, nodes, id, i, nodes[d.args[1]].n)
  }

  /** The first k terms of a FIR at i, in order. */
  function Taps(o: Ops, nodes: seq<Node>, id: nat, i: int, k: nat): int
    requires Built(nodes) && NodeOk(nodes, id) && nodes[id].kind.Fir? && k <= nodes[nodes[id].args[1]].n
    decreases id, 0, k
  {
    if k == 0 then o.zero
    else
      assert NodeOk(nodes, nodes[id].args[1]);
      var h := nodes[nodes[id].args[1]].host;
      o.add(Taps(o, nodes, id, i, k - 1), o.mul(h[k - 1], Extended(o, nodes, nodes[id].args[0], i - (k - 1))))
  }

  /** A signal with zeros around it. */
  function Extended(o: Ops, nodes: seq<Node>, id: nat, i: int): int
    requires Built(nodes) && id < |nodes|
    decreases id, 2, 0
  {
    if 0 <= i < nodes[id].n then Value(o, nodes, id, i) else o.zero
  }

  /** The whole value of a node. */
  function Meaning(o: Ops, nodes: seq<Node>, id: nat): (r: seq<int>)
    requires Built(nodes) && id < |nodes|
    ensures |r| == nodes[id].n
  {
    seq(nodes[id].n, i requires 0 <= i < nodes[id].n => Value(o, nodes, id, i))
  }

  // The builder

  lemma {:induction false} ContainsFirPrefix(nodes: seq<Node>, more: seq<Node>, id: nat)
    requires id < |nodes|
    ensures ContainsFir(nodes + more, id) == ContainsFir(nodes, id)
    decreases id
  {
    assert (nodes + more)[id] == nodes[id];
    forall k | 0 <= k < |nodes[id].args| && nodes[id].args[k] < id
      ensures ContainsFir(nodes + more, nodes[id].args[k]) == ContainsFir(nodes, nodes[id].args[k])
    {
      ContainsFirPrefix(nodes, more, nodes[id].args[k]);
    }
  }

  /** Appending a node that is itself all right. */
  lemma BuiltAppend(nodes: seq<Node>, d: Node)
    requires Built(nodes) && NodeOk(nodes + [d], |nodes|)
    ensures Built(nodes + [d])
  {
    forall id | 0 <= id < |nodes| ensures NodeOk(nodes + [d], id) {
      assert NodeOk(nodes, id);
      if nodes[id].kind.Fir? { ContainsFirPrefix(nodes, [d], nodes[id].args[0]); }
    }
  }

  datatype Tensor = Tensor(g: Graph, node: nat)

  class Graph {
    var nodes: seq<Node>
    var failed: bool

    ghost predicate Valid()
      reads this
    {
      Built(nodes)
    }

    constructor ()
      ensures Valid() && nodes == [] && !failed
    {
      nodes, failed := [], false;
    }

    method Append(d: Node) returns (t: Tensor)
      requires Valid() && NodeOk(nodes + [d], |nodes|)
      modifies this
      ensures Valid() && nodes == old(nodes) + [d] && failed == old(failed)
      ensures t == Tensor(this, |old(nodes)|)
    {
      BuiltAppend(nodes, d);
      t := Tensor(this, |nodes|);
      nodes := nodes + [d];
    }

    method NewInput(xs: seq<int>) returns (t: Tensor)
      requires Valid()
      modifies this
      ensures Valid() && nodes == old(nodes) + [Node(Input, |xs|, [], xs, 0, "")] && failed == old(failed)
      ensures t == Tensor(this, |old(nodes)|)
    {
      t := Append(Node(Input, |xs|, [], xs, 0, ""));
    }
  }

  ghost predicate Handle(t: Tensor)
    reads t.g
  {
    t.g.Valid() && t.node < |t.g.nodes|
  }

  /** Add, Mul and Hypot: both operands from one graph, and of one length. */
  method Binary(a: Tensor, b: Tensor, kind: Kind) returns (t: Tensor)
    requires Handle(a) && Handle(b) && (kind.Add? || kind.Mul? || kind.Hypot?)
    modifies a.g
    ensures Handle(t) && t.g == a.g
    ensures
      var was := old(a.g.nodes);
      if a.g != b.g || was[a.node].n != was[b.node].n then a.g.failed && a.g.nodes == was && t == a
      else
        && a.g.failed == old(a.g.failed) && t.node == |was|
        && a.g.nodes == was + [Node(kind, was[a.node].n, [a.node, b.node], [], 0, "")]
  {
    if a.g != b.g || a.g.nodes[a.node].n != b.g.nodes[b.node].n {
      a.g.failed := true;
      return a;
    }
    t := a.g.Append(Node(kind, a.g.nodes[a.node].n, [a.node, b.node], [], 0, ""));
  }

  /** Scale, Sqrt and Abs. */
  method Pointwise(a: Tensor, kind: Kind, scale: int, fn: string) returns (t: Tensor)
    requires Handle(a) && (kind.Scale? || kind.Unary?)
    modifies a.g
    ensures Handle(t) && t == Tensor(a.g, |old(a.g.nodes)|) && a.g.failed == old(a.g.failed)
    ensures a.g.nodes == old(a.g.nodes) + [Node(kind, old(a.g.nodes[a.node].n), [a.node], [], scale, fn)]
  {
    t := a.g.Append(Node(kind, a.g.nodes[a.node].n, [a.node], [], scale, fn));
  }

  /** A window of 1 to MAX_TAPS coefficients over a signal that has no window in it. */
  method NewFir(a: Tensor, h: seq<int>) returns (t: Tensor)
    requires Handle(a)
    modifies a.g
    ensures Handle(t) && t.g == a.g
    ensures
      var was := old(a.g.nodes);
      if h == [] || |h| > MAX_TAPS || (exists way :: Way(was, a.node, way) && was[way[|way| - 1]].kind.Fir?) then a.g.failed && a.g.nodes == was && t == a
      else
        && a.g.failed == old(a.g.failed) && t.node == |was| + 1
        && a.g.nodes == was + [Node(Input, |h|, [], h, 0, "")] + [Node(Fir, was[a.node].n, [a.node, |was|], [], 0, "")]
  {
    ContainsFirIs(a.g.nodes, a.node);
    if h == [] || |h| > MAX_TAPS || ContainsFir(a.g.nodes, a.node) {
      a.g.failed := true;
      return a;
    }
    ghost var was := a.g.nodes;
    var n := a.g.nodes[a.node].n;
    var taps := a.g.NewInput(h);
    var d := Node(Fir, n, [a.node, taps.node], [], 0, "");
    ContainsFirPrefix(was, [Node(Input, |h|, [], h, 0, "")] + [d], a.node);
    assert was + [Node(Input, |h|, [], h, 0, "")] + [d] == was + ([Node(Input, |h|, [], h, 0, "")] + [d]);
    t := a.g.Append(d);
  }
}
