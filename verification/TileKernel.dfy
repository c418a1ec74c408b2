/** The code generator of tile/codegen.go: one kernel for a whole graph. */
module TileKernel {
  import opened Basics
  import opened TileGraph

  /** An expression of the generated kernel, at whatever index it is evaluated. */
  datatype Code =
    | Param(p: nat)
    | Local(id: nat)
    | Scaled(c: int, a: Code)
    | Sum(a: Code, b: Code)
    | Product(a: Code, b: Code)
    | Applied(fn: string, a: Code)
    | Magnitude(a: Code, b: Code)
    | ZeroLit

  /** A windowed operation: the parameter its coefficients are in and the expression it stages. */
  datatype Window = Window(id: nat, taps: nat, signal: Code)

  /** The nodes behind the parameters, the windowed operations in order, and what is stored. */
  datatype Kernel = Kernel(params: seq<nat>, windows: seq<Window>, result: Code)

  // postorder

  function Visit(nodes: seq<Node>, id: nat, out: seq<nat>): seq<nat>
    requires Built(nodes) && id < |nodes|
    decreases id, 1, 0
  {
    assert NodeOk(nodes, id);
    if id in out then out else VisitArgs(nodes, id, 0, out) + [id]
  }

  function VisitArgs(nodes: seq<Node>, id: nat, k: nat, out: seq<nat>): seq<nat>
    requires Built(nodes) && id < |nodes| && NodeOk(nodes, id) && k <= |nodes[id].args|
    decreases id, 0, |nodes[id].args| - k
  {
    if k == |nodes[id].args| then out else VisitArgs(nodes, id, k + 1, Visit(nodes, nodes[id].args[k], out))
  }

  /** Nothing in order depends on anything outside it. */
  predicate Complete(nodes: seq<Node>, order: seq<nat>) {
    forall x :: x in order ==> x < |nodes| && forall k :: 0 <= k < |nodes[x].args| ==> nodes[x].args[k] in order
  }

  predicate Distinct(order: seq<nat>) { forall j, k :: 0 <= j < k < |order| ==> order[j] != order[k] }

  /** What an order grows to. */
  predicate Extends(nodes: seq<Node>, out: seq<nat>, r: seq<nat>, below: nat, n: nat) {
    && out <= r && (Complete(nodes, out) ==> Complete(nodes, r)) && (Distinct(out) ==> Distinct(r))
    && (forall x :: x in r && x !in out ==> x < below && x < |nodes| && (nodes[x].n == n || nodes[x].kind.Input?))
  }

  lemma {:induction false} VisitExtends(nodes: seq<Node>, id: nat, out: seq<nat>)
    requires Built(nodes) && id < |nodes|
    ensures Extends(nodes, out, Visit(nodes, id, out), id + 1, nodes[id].n) && id in Visit(nodes, id, out)
    decreases id, 1, 0
  {
    assert NodeOk(nodes, id);
    if id !in out {
      VisitArgsExtend(nodes, id, 0, out);
      var r := VisitArgs(nodes, id, 0, out);
      assert forall x :: x in r + [id] <==> x in r || x == id;
    }
  }

  lemma {:induction false} VisitArgsExtend(nodes: seq<Node>, id: nat, k: nat, out: seq<nat>)
    requires Built(nodes) && id < |nodes| && NodeOk(nodes, id) && k <= |nodes[id].args|
    ensures Extends(nodes, out, VisitArgs(nodes, id, k, out), id, nodes[id].n)
    ensures forall j :: k <= j < |nodes[id].args| ==> nodes[id].args[j] in VisitArgs(nodes, id, k, out)
    decreases id, 0, |nodes[id].args| - k
  {
    if k < |nodes[id].args| {
      var a := nodes[id].args[k];
      var mid := Visit(nodes, a, out);
      VisitExtends(nodes, a, out);
      VisitArgsExtend(nodes, id, k + 1, mid);
      assert forall x :: x in mid ==> x in VisitArgs(nodes, id, k + 1, mid);
      assert forall x :: x in out ==> x in mid;
      assert nodes[a].n == nodes[id].n || nodes[a].kind.Input?;
      if nodes[a].n != nodes[id].n { InputVisit(nodes, a, out); }
    }
  }

  /** An input brings nothing else with it. */
  lemma InputVisit(nodes: seq<Node>, id: nat, out: seq<nat>)
    requires Built(nodes) && id < |nodes| && nodes[id].kind.Input?
    ensures forall x :: x in Visit(nodes, id, out) ==> x in out || x == id
  {
    assert NodeOk(nodes, id);
    assert VisitArgs(nodes, id, 0, out) == out;
  }

  predicate Known(nodes: seq<Node>, order: seq<nat>) { forall k :: 0 <= k < |order| ==> order[k] < |nodes| }

  /** What the root depends on, each node once. */
  function Order(nodes: seq<Node>, root: nat): (r: seq<nat>)
    requires Built(nodes) && root < |nodes|
    ensures Known(nodes, r) && Complete(nodes, r) && Distinct(r) && root in r
    ensures forall x :: x in r ==> x < |nodes| && (nodes[x].n == nodes[root].n || nodes[x].kind.Input?)
  {
    VisitExtends(nodes, root, []);
    var r := Visit(nodes, root, []);
    assert forall k :: 0 <= k < |r| ==> r[k] in r;
    r
  }

  // Parameters, expressions and windows

  function Inputs(nodes: seq<Node>, order: seq<nat>): seq<nat>
    requires Known(nodes, order)
  {
    if order == [] then []
    else (if nodes[order[0]].kind.Input? then [order[0]] else []) + Inputs(nodes, order[1..])
  }

  function IndexOf(s: seq<nat>, x: nat): (r: nat)
    ensures x in s ==> r < |s| && s[r] == x
  {
    if s == [] || s[0] == x then 0 else IndexOf(s[1..], x) + 1
  }

  /** expr: windowed nodes are locals by the time they are asked for. */
  function Expr(nodes: seq<Node>, params: seq<nat>, local: set<nat>, id: nat): Code
    requires Built(nodes) && id < |nodes|
    decreases id
  {
    assert NodeOk(nodes, id);
    var d := nodes[id];
    if id in local then Local(id)
    else
      match d.kind
      case Input => Param(IndexOf(params, id))
      case Scale => Scaled(d.scale, Expr(nodes, params, local, d.args[0]))
      case Add => Sum(Expr(nodes, params, local, d.args[0]), Expr(nodes, params, local, d.args[1]))
      case Mul => Product(Expr(nodes, params, local, d.args[0]), Expr(nodes, params, local, d.args[1]))
      case Unary => Applied(d.fn, Expr(nodes, params, local, d.args[0]))
      case Hypot => Magnitude(Expr(nodes, params, local, d.args[0]), Expr(nodes, params, local, d.args[1]))
      case Fir => ZeroLit
  }

  function WindowOf(nodes: seq<Node>, params: seq<nat>, local: set<nat>, id: nat): Window
    requires Built(nodes) && NodeOk(nodes, id) && nodes[id].kind.Fir?
  {
    Window(id, IndexOf(params, nodes[id].args[1]), Expr(nodes, params, local, nodes[id].args[0]))
  }

  function Windows(nodes: seq<Node>, params: seq<nat>, local: set<nat>, order: seq<nat>): seq<Window>
    requires Built(nodes) && Known(nodes, order)
    decreases |order|
  {
    if order == [] then []
    else
      var id := order[0];
      assert NodeOk(nodes, id);
      if nodes[id].kind.Fir? then [WindowOf(nodes, params, local, id)] + Windows(nodes, params, local + {id}, order[1..])
      else Windows(nodes, params, local, order[1..])
  }

  function Firs(nodes: seq<Node>, order: seq<nat>): set<nat> {
    set x | x in order && x < |nodes| && nodes[x].kind.Fir?
  }

  /** generate */
  function Generate(nodes: seq<Node>, root: nat): Kernel
    requires Built(nodes) && root < |nodes|
  {
    var order := Order(nodes, root);
    var params := Inputs(nodes, order);
    Kernel(params, Windows(nodes, params, {}, order), Expr(nodes, params, Firs(nodes, order), root))
  }

  class Generator {
    const nodes: seq<Node>
    var seen: set<nat>
    var order: seq<nat>
    var inputs: seq<nat>
    var local: set<nat>
    var windows: seq<Window>

    constructor (nodes: seq<Node>)
      ensures this.nodes == nodes && seen == {} && order == [] && inputs == [] && local == {} && windows == []
    {
      this.nodes := nodes;
      seen, order, inputs, local, windows := {}, [], [], {}, [];
    }

    /** A node is marked before its dependencies are, so what is seen is what is listed and what is
        still being visited. */
    method Postorder(id: nat, ghost active: set<nat>)
      requires Built(nodes) && id < |nodes| && forall x :: x in active ==> x > id
      requires forall x :: x in seen <==> x in order || x in active
      modifies this`seen, this`order
      ensures order == Visit(nodes, id, old(order))
      ensures forall x :: x in seen <==> x in order || x in active
      decreases id
    {
      if id in seen { return; }
      assert NodeOk(nodes, id);
      seen := seen + {id};
      var args := nodes[id].args;
      for k := 0 to |args|
        invariant forall x :: x in seen <==> x in order || x in active || x == id
        invariant VisitArgs(nodes, id, 0, old(order)) == VisitArgs(nodes, id, k, order)
      {
        Postorder(args[k], active + {id});
      }
      order := order + [id];
    }

    method CollectInputs()
      requires Built(nodes) && Known(nodes, order) && inputs == []
      modifies this`inputs
      ensures inputs == Inputs(nodes, order)
    {
      for i := 0 to |order|
        invariant Inputs(nodes, order) == inputs + Inputs(nodes, order[i..])
      {
        assert order[i..][1..] == order[i + 1..];
        if nodes[order[i]].kind.Input? { inputs := inputs + [order[i]]; }
      }
    }

    method Windowed(id: nat)
      requires Built(nodes) && NodeOk(nodes, id) && nodes[id].kind.Fir?
      modifies this`windows, this`local
      ensures windows == old(windows) + [WindowOf(nodes, inputs, old(local), id)] && local == old(local) + {id}
    {
      windows := windows + [WindowOf(nodes, inputs, local, id)];
      local := local + {id};
    }

    method CollectWindows()
      requires Built(nodes) && Known(nodes, order) && local == {} && windows == []
      modifies this`windows, this`local
      ensures windows == Windows(nodes, inputs, {}, order) && local == Firs(nodes, order)
    {
      for i := 0 to |order|
        invariant local == Firs(nodes, order[..i])
        invariant Windows(nodes, inputs, {}, order) == windows + Windows(nodes, inputs, local, order[i..])
      {
        assert order[i..][1..] == order[i + 1..] && order[..i + 1] == order[..i] + [order[i]];
        assert NodeOk(nodes, order[i]);
        if nodes[order[i]].kind.Fir? { Windowed(order[i]); }
      }
      assert order[..|order|] == order;
    }

    method Run(root: nat) returns (k: Kernel)
      requires Built(nodes) && root < |nodes|
      requires seen == {} && order == [] && inputs == [] && local == {} && windows == []
      modifies this
      ensures k == Generate(nodes, root)
    {
      Postorder(root, {});
      assert order == Order(nodes, root);
      CollectInputs();
      CollectWindows();
      k := Kernel(inputs, windows, Expr(nodes, inputs, local, root));
    }
  }
}
