/** The two-wait exchange of gpu/warp.go: publish, meet, read, part.  Lanes run a program of exchanges
    in any interleaving; every one of them computes what lockstep execution would. */
module WarpExchange {
  import opened Basics
  import opened Barrier

  /** What a lane asks of one rendezvous. */
  datatype Kind = Shuffle(src: int) | Vote

  datatype Request = Request(op: string, kind: Kind, v: int)

  /** A shuffle gets a value, a vote the lanes that took part and those that voted for. */
  datatype Answer = Value(v: int) | Ballot(here: set<nat>, mask: set<nat>)

  /** What a request gets from the published slots: an absent source gives the caller its own value. */
  function Answered(r: Request, here: set<nat>, slots: seq<int>): Answer
    requires forall l :: l in here ==> l < |slots|
  {
    match r.kind
    case Shuffle(src) => if src >= 0 && src in here then Value(slots[src]) else Value(r.v)
    case Vote => Ballot(here, set l | l in here && slots[l] != 0)
  }

  /** A kernel as far as its exchanges go: what lane l asks in round k with acc in hand, None to leave
      the kernel, and what it makes of the answer. */
  datatype Program = Program(ask: (nat, nat, int) -> Option<Request>, take: (nat, nat, int, Answer) -> int)

  // Lockstep execution

  /** What every lane has in hand at round k; a lane that has left has None. */
  function Level(p: Program, init: seq<int>, k: nat): (r: seq<Option<int>>)
    ensures |r| == |init|
    decreases k, 1
  {
    if k == 0 then seq(|init|, l requires 0 <= l < |init| => Some(init[l]))
    else seq(|init|, l requires 0 <= l < |init| => Next(p, init, k - 1, l))
  }

  /** What lane l has in hand after round k. */
  function Next(p: Program, init: seq<int>, k: nat, l: nat): Option<int>
    requires l < |init|
    decreases k, 6
  {
    if l in Takers(p, init, k) then Some(p.take(l, k, Level(p, init, k)[l].value, Due(p, init, k, l))) else None
  }

  function Due(p: Program, init: seq<int>, k: nat, l: nat): Answer
    requires l in Takers(p, init, k)
    decreases k, 5
  {
    Answered(Asked(p, init, k, l), Takers(p, init, k), Slots(p, init, k))
  }

  /** The lanes that take part in round k. */
  function Takers(p: Program, init: seq<int>, k: nat): (r: set<nat>)
    ensures forall l: nat :: l in r <==>
      l < |init| && Level(p, init, k)[l].Some? && p.ask(l, k, Level(p, init, k)[l].value).Some?
    decreases k, 2
  {
    set l: nat | l < |init| && Level(p, init, k)[l].Some? && p.ask(l, k, Level(p, init, k)[l].value).Some?
  }

  function Asked(p: Program, init: seq<int>, k: nat, l: nat): Request
    requires l in Takers(p, init, k)
    decreases k, 3
  {
    p.ask(l, k, Level(p, init, k)[l].value).value
  }

  /** What round k publishes, 0 in the slot of a lane that does not take part. */
  function Slots(p: Program, init: seq<int>, k: nat): (r: seq<int>)
    ensures |r| == |init|
    decreases k, 4
  {
    seq(|init|, l requires 0 <= l < |init| => if l in Takers(p, init, k) then Asked(p, init, k, l).v else 0)
  }

  /** What a request of round k is to get, by the values the lanes of that round asked with: a shuffle that
      of its source, or its own if the source takes no part; a vote those that took part, and those of
      them whose value was not zero. */
  ghost predicate Told(p: Program, init: seq<int>, k: nat, r: Request, got: Answer) {
    match r.kind
    case Shuffle(src) => got == Value(if src >= 0 && src in Takers(p, init, k) then Asked(p, init, k, src).v else r.v)
    case Vote =>
      && got.Ballot? && got.here == Takers(p, init, k)
      && forall j: nat :: j in got.mask <==> j in Takers(p, init, k) && Asked(p, init, k, j).v != 0
  }

  lemma DueIsTold(p: Program, init: seq<int>, k: nat, l: nat)
    requires l in Takers(p, init, k)
    ensures Told(p, init, k, Asked(p, init, k, l), Due(p, init, k, l))
  {
    forall j: nat | j in Takers(p, init, k) ensures j < |init| && Slots(p, init, k)[j] == Asked(p, init, k, j).v {}
  }

  /** Lockstep: whoever takes part in round k goes on with what it makes of that, and nobody else goes on. */
  lemma NextIsTold(p: Program, init: seq<int>, k: nat, l: nat)
    requires l < |init|
    ensures Level(p, init, 0)[l] == Some(init[l])
    ensures l !in Takers(p, init, k) ==> Level(p, init, k + 1)[l] == None
    ensures l in Takers(p, init, k) ==>
      (exists got :: Told(p, init, k, Asked(p, init, k, l), got) && Level(p, init, k + 1)[l] == Some(p.take(l, k, Level(p, init, k)[l].value, got)))
  {
    assert Level(p, init, k + 1)[l] == Next(p, init, k, l);
    if l in Takers(p, init, k) { DueIsTold(p, init, k, l); }
  }

  // Any interleaving

  /** One lane, between two of its steps. */
  datatype Lane =
    | Idle(k: nat, acc: int)
    | Wrote(k: nat, acc: int, r: Request)                // its slot is written
    | Named(k: nat, acc: int, r: Request)                // so is its operation
    | Meeting(k: nat, acc: int, r: Request, gen: nat)    // parked in the first wait
    | Met(k: nat, acc: int, r: Request, here: set<nat>)
    | Read(k: nat, acc: int, r: Request, got: Answer, odd: bool)
    | Parting(k: nat, acc: int, got: Answer, gen: nat)   // parked in the second
    | Out

  datatype Warp = Warp(bar: Bar, lanes: seq<Lane>, slots: seq<int>, ops: seq<string>)

  function StatusOf(s: Lane): Status {
    match s
    case Meeting(_, _, _, g) => Parked(g)
    case Parting(_, _, _, g) => Parked(g)
    case Out => Gone
    case _ => Running
  }

  /** The warp as its barrier sees it. */
  function Seen(w: Warp): World { World(w.bar, seq(|w.lanes|, l requires 0 <= l < |w.lanes| => StatusOf(w.lanes[l]))) }

  predicate Sized(w: Warp) { |w.slots| == |w.lanes| == |w.ops| && Shaped(w.bar) }

  /** A parked lane moves only when its generation is closed: no wait times out. */
  predicate CanMove(w: Warp, l: nat) {
    && Sized(w) && l < |w.lanes|
    && match w.lanes[l]
       case Out => false
       case Meeting(_, _, _, g) => g < |w.bar.gens| && w.bar.gens[g].Closed? && forall j :: j in w.bar.gens[g].mask ==> j < |w.lanes|
       case Parting(_, _, _, g) => g < |w.bar.gens| && w.bar.gens[g].Closed?
       case Met(_, _, _, here) => forall j :: j in here ==> j < |w.lanes|
       case _ => true
  }

  /** Lane l's next step. */
  function Move(p: Program, w: Warp, l: nat): (r: Warp)
    requires CanMove(w, l)
    ensures Sized(r) && |r.lanes| == |w.lanes|
  {
    var g := Cur(w.bar);
    match w.lanes[l]
    case Idle(k, acc) =>
      var a := p.ask(l, k, acc);
      if a.None? then w.(bar := Abandon(w.bar), lanes := w.lanes[l := Out])
      else w.(lanes := w.lanes[l := Wrote(k, acc, a.value)], slots := w.slots[l := a.value.v])
    case Wrote(k, acc, r) => w.(lanes := w.lanes[l := Named(k, acc, r)], ops := w.ops[l := r.op])
    case Named(k, acc, r) =>
      var b := Arrive(w.bar, l);
      w.(bar := b, lanes := w.lanes[l := if b.gens[g].Closed? then Met(k, acc, r, b.gens[g].mask) else Meeting(k, acc, r, g)])
    case Meeting(k, acc, r, gen) => w.(lanes := w.lanes[l := Met(k, acc, r, w.bar.gens[gen].mask)])
    case Met(k, acc, r, here) =>
      w.(lanes := w.lanes[l := Read(k, acc, r, Answered(r, here, w.slots), exists j :: j in here && w.ops[j] != r.op)])
    case Read(k, acc, _, got, _) =>
      var b := Arrive(w.bar, l);
      w.(bar := b, lanes := w.lanes[l := if b.gens[g].Closed? then Idle(k + 1, p.take(l, k, acc, got)) else Parting(k, acc, got, g)])
    case Parting(k, acc, got, _) => w.(lanes := w.lanes[l := Idle(k + 1, p.take(l, k, acc, got))])
  }

  function Begin(init: seq<int>): Warp {
    Warp(Fresh(|init|), seq(|init|, l requires 0 <= l < |init| => Idle(0, init[l])),
         seq(|init|, _ => 0), seq(|init|, _ => ""))
  }

  // The invariant: rendezvous alternate, the even generations being where lanes meet and the odd ones
  // where they part, and the lanes are never more than one generation apart.

  predicate Holding(p: Program, init: seq<int>, k: nat, l: nat, acc: int) {
    l < |init| && Level(p, init, k)[l] == Some(acc)
  }

  /** A lane that takes part in round k with request r. */
  predicate Taking(p: Program, init: seq<int>, k: nat, l: nat, acc: int, r: Request) {
    l in Takers(p, init, k) && Holding(p, init, k, l, acc) && r == Asked(p, init, k, l)
  }

  /** Lane l while round k is meeting. */
  predicate MeetingOk(p: Program, init: seq<int>, k: nat, l: nat, s: Lane, slot: int, op: string) {
    match s
    case Idle(j, acc) => j == k && Holding(p, init, k, l, acc)
    case Wrote(j, acc, r) => j == k && Taking(p, init, k, l, acc, r) && slot == r.v
    case Named(j, acc, r) => j == k && Taking(p, init, k, l, acc, r) && slot == r.v && op == r.op
    case Meeting(j, acc, r, g) => j == k && Taking(p, init, k, l, acc, r) && slot == r.v && op == r.op && g == 2 * k
    case Parting(j, acc, got, g) => k == j + 1 && g == 2 * k - 1 && Holding(p, init, k, l, p.take(l, j, acc, got))
    case Out => l !in Takers(p, init, k)
    case _ => false
  }

  /** Lane l while round k is parting. */
  predicate PartingOk(p: Program, init: seq<int>, k: nat, l: nat, s: Lane, slot: int, op: string) {
    match s
    case Meeting(j, acc, r, g) => j == k && Taking(p, init, k, l, acc, r) && slot == r.v && op == r.op && g == 2 * k
    case Met(j, acc, r, here) => j == k && Taking(p, init, k, l, acc, r) && slot == r.v && op == r.op && here == Takers(p, init, k)
    case Read(j, acc, r, got, odd) =>
      && j == k && Taking(p, init, k, l, acc, r) && slot == r.v && op == r.op && got == Due(p, init, k, l)
      && (odd <==> exists i :: i in Takers(p, init, k) && Asked(p, init, k, i).op != r.op)
    case Parting(j, acc, got, g) =>
      j == k && l in Takers(p, init, k) && slot == Asked(p, init, k, l).v && op == Asked(p, init, k, l).op &&
      Holding(p, init, k, l, acc) && got == Due(p, init, k, l) && g == 2 * k + 1
    case Out => l !in Takers(p, init, k)
    case _ => false
  }

  predicate LaneOk(p: Program, init: seq<int>, c: nat, l: nat, s: Lane, slot: int, op: string) {
    if c % 2 == 0 then MeetingOk(p, init, c / 2, l, s, slot, op) else PartingOk(p, init, c / 2, l, s, slot, op)
  }

  predicate LanesOk(p: Program, init: seq<int>, c: nat, w: Warp) {
    && |w.slots| == |w.lanes| == |w.ops| == |init|
    && forall l :: 0 <= l < |init| ==> LaneOk(p, init, c, l, w.lanes[l], w.slots[l], w.ops[l])
  }

  ghost predicate InStep(p: Program, init: seq<int>, w: Warp) {
    && Sized(w) && Inv(Seen(w)) && LanesOk(p, init, Cur(w.bar), w)
    && (Cur(w.bar) % 2 == 1 ==> w.bar.gens[Cur(w.bar) - 1] == Closed(Takers(p, init, Cur(w.bar) / 2)))
  }

  lemma BeginInStep(p: Program, init: seq<int>)
    ensures InStep(p, init, Begin(init))
  {
    StartInv(|init|);
    assert Seen(Begin(init)) == Start(|init|);
  }

  // Every step keeps it.

  lemma NextLevel(p: Program, init: seq<int>, k: nat, l: nat)
    requires l < |init|
    ensures l in Takers(p, init, k) ==>
      Level(p, init, k + 1)[l] == Some(p.take(l, k, Level(p, init, k)[l].value, Due(p, init, k, l)))
    ensures l !in Takers(p, init, k) ==> l !in Takers(p, init, k + 1)
  {
    assert Level(p, init, k + 1)[l] == Next(p, init, k, l);
  }

  /** Only lane l has moved. */
  predicate Others(w: Warp, l: nat, r: Warp) {
    && |w.slots| == |w.lanes| == |w.ops| == |r.slots| == |r.lanes| == |r.ops| && l < |w.lanes|
    && forall j :: 0 <= j < |w.lanes| && j != l ==> r.lanes[j] == w.lanes[j] && r.slots[j] == w.slots[j] && r.ops[j] == w.ops[j]
  }

  lemma MovesOne(p: Program, w: Warp, l: nat)
    requires CanMove(w, l)
    ensures Others(w, l, Move(p, w, l))
  {
  }

  /** A lane that has moved within its phase. */
  lemma LanesStay(p: Program, init: seq<int>, c: nat, w: Warp, l: nat, r: Warp)
    requires LanesOk(p, init, c, w) && Others(w, l, r) && LaneOk(p, init, c, l, r.lanes[l], r.slots[l], r.ops[l])
    ensures LanesOk(p, init, c, r)
  {
  }

  /** Writing the slot, then naming the operation. */
  lemma Publishes(p: Program, init: seq<int>, c: nat, l: nat, s: Lane, slot: int, op: string, r: Request)
    requires LaneOk(p, init, c, l, s, slot, op) && l < |init|
    ensures s.Idle? && p.ask(l, s.k, s.acc) == Some(r) ==> LaneOk(p, init, c, l, Wrote(s.k, s.acc, r), r.v, op)
    ensures s.Wrote? ==> LaneOk(p, init, c, l, Named(s.k, s.acc, s.r), slot, s.r.op)
  {
  }

  lemma QuietSeen(p: Program, w: Warp, l: nat)
    requires CanMove(w, l)
    requires w.lanes[l].Wrote? || w.lanes[l].Met? || (w.lanes[l].Idle? && p.ask(l, w.lanes[l].k, w.lanes[l].acc).Some?)
    ensures Move(p, w, l).bar == w.bar && Seen(Move(p, w, l)) == Seen(w)
  {
  }

  /** A step that leaves the barrier alone. */
  lemma QuietMove(p: Program, init: seq<int>, w: Warp, l: nat)
    requires InStep(p, init, w) && CanMove(w, l)
    requires w.lanes[l].Wrote? || w.lanes[l].Met? || (w.lanes[l].Idle? && p.ask(l, w.lanes[l].k, w.lanes[l].acc).Some?)
    ensures InStep(p, init, Move(p, w, l))
  {
    var r := Move(p, w, l);
    QuietSeen(p, w, l);
    MovesOne(p, w, l);
    QuietLane(p, init, w, l, r);
    LanesStay(p, init, Cur(w.bar), w, l, r);
  }

  lemma QuietLane(p: Program, init: seq<int>, w: Warp, l: nat, r: Warp)
    requires InStep(p, init, w) && CanMove(w, l) && r == Move(p, w, l)
    requires w.lanes[l].Wrote? || w.lanes[l].Met? || (w.lanes[l].Idle? && p.ask(l, w.lanes[l].k, w.lanes[l].acc).Some?)
    ensures LaneOk(p, init, Cur(w.bar), l, r.lanes[l], r.slots[l], r.ops[l])
  {
    assert LaneOk(p, init, Cur(w.bar), l, w.lanes[l], w.slots[l], w.ops[l]);
    if w.lanes[l].Met? {
      ReadsDue(p, init, w, l, Cur(w.bar) / 2);
    } else if w.lanes[l].Idle? {
      Publishes(p, init, Cur(w.bar), l, w.lanes[l], w.slots[l], w.ops[l], p.ask(l, w.lanes[l].k, w.lanes[l].acc).value);
    } else {
      Publishes(p, init, Cur(w.bar), l, w.lanes[l], w.slots[l], w.ops[l], w.lanes[l].r);
    }
  }

  /** Between the waits every slot holds what its lane published for this rendezvous. */
  lemma SlotsHold(p: Program, init: seq<int>, w: Warp, j: nat)
    requires InStep(p, init, w) && Cur(w.bar) % 2 == 1 && j in Takers(p, init, Cur(w.bar) / 2)
    ensures w.slots[j] == Asked(p, init, Cur(w.bar) / 2, j).v && w.ops[j] == Asked(p, init, Cur(w.bar) / 2, j).op
  {
    assert LaneOk(p, init, Cur(w.bar), j, w.lanes[j], w.slots[j], w.ops[j]);
  }

  /** A lane that reads gets what the source lane published in the same rendezvous. */
  lemma ReadsDue(p: Program, init: seq<int>, w: Warp, l: nat, k: nat)
    requires InStep(p, init, w) && CanMove(w, l) && w.lanes[l].Met? && k == Cur(w.bar) / 2
    ensures Cur(w.bar) % 2 == 1 && l in Takers(p, init, k) && w.lanes[l].here == Takers(p, init, k)
    ensures var r := Asked(p, init, k, l);
      && w.lanes[l].r == r
      && Answered(r, Takers(p, init, k), w.slots) == Due(p, init, k, l) && Told(p, init, k, r, Due(p, init, k, l))
      && ((exists j :: j in Takers(p, init, k) && w.ops[j] != r.op) <==>
          exists j :: j in Takers(p, init, k) && Asked(p, init, k, j).op != r.op)
  {
    assert LaneOk(p, init, Cur(w.bar), l, w.lanes[l], w.slots[l], w.ops[l]);
    var here := Takers(p, init, k);
    forall j | j in here
      ensures w.slots[j] == Slots(p, init, k)[j] && w.ops[j] == Asked(p, init, k, j).op
    {
      SlotsHold(p, init, w, j);
    }
    assert (set j | j in here && w.slots[j] != 0) == set j | j in here && Slots(p, init, k)[j] != 0;
    DueIsTold(p, init, k, l);
  }

  lemma WakeSeen(p: Program, w: Warp, l: nat)
    requires CanMove(w, l) && (w.lanes[l].Meeting? || w.lanes[l].Parting?)
    ensures Enabled(Seen(w), Wake(l)) && Seen(Move(p, w, l)) == Step(Seen(w), Wake(l)) && Move(p, w, l).bar == w.bar
  {
    assert Seen(w).lanes[l] == StatusOf(w.lanes[l]);
  }

  /** Out of the first wait with the mask it was released with, or out of the second. */
  lemma WakeOk(p: Program, init: seq<int>, w: Warp, l: nat)
    requires InStep(p, init, w) && CanMove(w, l) && (w.lanes[l].Meeting? || w.lanes[l].Parting?)
    ensures var r := Move(p, w, l); LaneOk(p, init, Cur(w.bar), l, r.lanes[l], r.slots[l], r.ops[l])
  {
    assert LaneOk(p, init, Cur(w.bar), l, w.lanes[l], w.slots[l], w.ops[l]);
  }

  lemma WakeMove(p: Program, init: seq<int>, w: Warp, l: nat)
    requires InStep(p, init, w) && CanMove(w, l) && (w.lanes[l].Meeting? || w.lanes[l].Parting?)
    ensures InStep(p, init, Move(p, w, l))
  {
    WakeSeen(p, w, l);
    WakeOk(p, init, w, l);
    WakeInv(Seen(w), Wake(l));
    MovesOne(p, w, l);
    LanesStay(p, init, Cur(w.bar), w, l, Move(p, w, l));
  }

  /** A step that closes the generation being assembled. */
  predicate Closes(w: Warp, a: Action, r: Warp) {
    && Sized(w) && Sized(r) && (a.Reach? || a.Depart?) && Others(w, a.lane, r)
    && Enabled(Seen(w), a) && Seen(r) == Step(Seen(w), a) && r.bar.gens[Cur(w.bar)].Closed?
  }

  lemma ClosesWithAll(w: Warp, a: Action, r: Warp)
    requires Closes(w, a, r) && Inv(Seen(w))
    ensures Inv(Seen(r)) && Cur(r.bar) == Cur(w.bar) + 1 && r.bar.gens[Cur(w.bar)] == Closed(Present(Seen(r)))
  {
    if a.Reach? { ReachInv(Seen(w), a.lane); } else { LeaveInv(Seen(w), a.lane); }
  }

  /** Whoever is still in the kernel when a generation closes was parked in it, the closer apart. */
  lemma EverybodyParked(w: Warp, a: Action, r: Warp, j: nat)
    requires Closes(w, a, r) && Inv(Seen(w))
    requires j < |w.lanes| && j != a.lane && !w.lanes[j].Out?
    ensures StatusOf(w.lanes[j]) == Parked(Cur(w.bar))
  {
    assert Seen(w).lanes[j] == StatusOf(w.lanes[j]) && Seen(r).lanes[j] == StatusOf(r.lanes[j]);
    ClosesWithAll(w, a, r);
    assert j in Present(Seen(r));
  }

  /** From meeting to parting. */
  lemma Meets(p: Program, init: seq<int>, k: nat, l: nat, s: Lane, slot: int, op: string)
    requires MeetingOk(p, init, k, l, s, slot, op) && (s.Out? || StatusOf(s) == Parked(2 * k))
    ensures PartingOk(p, init, k, l, s, slot, op) && (s.Out? <==> l !in Takers(p, init, k))
  {
  }

  /** From parting to the next meeting. */
  lemma Parts(p: Program, init: seq<int>, k: nat, l: nat, s: Lane, slot: int, op: string)
    requires PartingOk(p, init, k, l, s, slot, op) && (s.Out? || StatusOf(s) == Parked(2 * k + 1)) && l < |init|
    ensures MeetingOk(p, init, k + 1, l, s, slot, op)
  {
    NextLevel(p, init, k, l);
  }

  predicate AllParked(lanes: seq<Lane>, c: nat, l: nat) {
    forall j :: 0 <= j < |lanes| && j != l ==> lanes[j].Out? || StatusOf(lanes[j]) == Parked(c)
  }

  lemma ClosesParked(w: Warp, a: Action, r: Warp)
    requires Closes(w, a, r) && Inv(Seen(w))
    ensures AllParked(w.lanes, Cur(w.bar), a.lane)
  {
    forall j | 0 <= j < |w.lanes| && j != a.lane && !w.lanes[j].Out? ensures StatusOf(w.lanes[j]) == Parked(Cur(w.bar)) {
      EverybodyParked(w, a, r, j);
    }
  }

  /** A lane that the closing of generation c takes from one phase to the next. */
  lemma Crosses(p: Program, init: seq<int>, c: nat, w: Warp, l: nat, r: Warp, j: nat)
    requires LanesOk(p, init, c, w) && Others(w, l, r) && AllParked(w.lanes, c, l) && j < |init| && j != l
    ensures LaneOk(p, init, c + 1, j, r.lanes[j], r.slots[j], r.ops[j])
    ensures c % 2 == 0 ==> (r.lanes[j].Out? <==> j !in Takers(p, init, c / 2))
  {
    NextPhase(p, init, c, j, w.lanes[j], w.slots[j], w.ops[j]);
  }

  lemma NextPhase(p: Program, init: seq<int>, c: nat, l: nat, s: Lane, slot: int, op: string)
    requires LaneOk(p, init, c, l, s, slot, op) && (s.Out? || StatusOf(s) == Parked(c)) && l < |init|
    ensures LaneOk(p, init, c + 1, l, s, slot, op)
    ensures c % 2 == 0 ==> (s.Out? <==> l !in Takers(p, init, c / 2))
  {
    if c % 2 == 0 {
      assert c == 2 * (c / 2) && (c + 1) / 2 == c / 2;
      Meets(p, init, c / 2, l, s, slot, op);
    } else {
      assert c == 2 * (c / 2) + 1 && (c + 1) / 2 == c / 2 + 1;
      Parts(p, init, c / 2, l, s, slot, op);
    }
  }

  lemma LanesCross(p: Program, init: seq<int>, c: nat, w: Warp, l: nat, r: Warp)
    requires LanesOk(p, init, c, w) && Others(w, l, r) && AllParked(w.lanes, c, l)
    requires LaneOk(p, init, c + 1, l, r.lanes[l], r.slots[l], r.ops[l])
    ensures LanesOk(p, init, c + 1, r)
  {
    forall j | 0 <= j < |init| ensures LaneOk(p, init, c + 1, j, r.lanes[j], r.slots[j], r.ops[j]) {
      if j != l { Crosses(p, init, c, w, l, r, j); }
    }
  }

  lemma PresentAre(r: Warp, here: set<nat>)
    requires forall j: nat :: j in here <==> j < |r.lanes| && !r.lanes[j].Out?
    ensures Present(Seen(r)) == here
  {
    assert forall j: nat :: j < |r.lanes| ==> Seen(r).lanes[j] == StatusOf(r.lanes[j]);
  }

  /** The lanes that meet are the takers. */
  lemma Assembled(p: Program, init: seq<int>, c: nat, w: Warp, l: nat, r: Warp)
    requires LanesOk(p, init, c, w) && Others(w, l, r) && AllParked(w.lanes, c, l) && c % 2 == 0
    requires r.lanes[l].Out? <==> l !in Takers(p, init, c / 2)
    ensures Present(Seen(r)) == Takers(p, init, c / 2)
  {
    forall j: nat ensures j in Takers(p, init, c / 2) <==> j < |r.lanes| && !r.lanes[j].Out? {
      if j < |init| && j != l { Crosses(p, init, c, w, l, r, j); }
    }
    PresentAre(r, Takers(p, init, c / 2));
  }

  /** From w to r lane l has closed the generation, every other lane being parked in it or gone. */
  ghost predicate ClosedBy(w: Warp, l: nat, r: Warp) {
    && Sized(w) && Sized(r) && Others(w, l, r) && AllParked(w.lanes, Cur(w.bar), l) && Inv(Seen(r))
    && Cur(r.bar) == Cur(w.bar) + 1 && r.bar.gens[Cur(w.bar)] == Closed(Present(Seen(r)))
  }

  lemma Closer(w: Warp, a: Action, r: Warp)
    requires Closes(w, a, r) && Inv(Seen(w))
    ensures ClosedBy(w, a.lane, r)
  {
    ClosesWithAll(w, a, r);
    ClosesParked(w, a, r);
  }

  lemma AllCross(p: Program, init: seq<int>, c: nat, w: Warp, l: nat, r: Warp)
    requires ClosedBy(w, l, r) && c == Cur(w.bar) && LanesOk(p, init, c, w)
    requires LaneOk(p, init, c + 1, l, r.lanes[l], r.slots[l], r.ops[l])
    requires c % 2 == 0 ==> (r.lanes[l].Out? <==> l !in Takers(p, init, c / 2))
    ensures InStep(p, init, r)
  {
    LanesCross(p, init, c, w, l, r);
    if c % 2 == 0 { Assembled(p, init, c, w, l, r); }
  }

  /** Lane l has arrived at the barrier, or left. */
  predicate Acted(w: Warp, a: Action, r: Warp) {
    && Sized(w) && Sized(r) && Others(w, a.lane, r) && (a.Reach? || a.Depart?)
    && Enabled(Seen(w), a) && Seen(r) == Step(Seen(w), a)
  }

  lemma StillOpen(w: World, a: Action, r: World)
    requires Enabled(w, a) && (a.Reach? || a.Depart?) && r == Step(w, a) && !r.bar.gens[Cur(w.bar)].Closed?
    ensures r.bar.gens == w.bar.gens
  {
  }

  lemma StaysOpen(w: World, a: Action, r: World)
    requires Inv(w) && Enabled(w, a) && (a.Reach? || a.Depart?) && r == Step(w, a) && !r.bar.gens[Cur(w.bar)].Closed?
    ensures Inv(r) && r.bar.gens == w.bar.gens
  {
    StepInv(w, a);
    StillOpen(w, a, r);
  }

  /** An arrival or a departure that does not complete the generation. */
  lemma Waits(p: Program, init: seq<int>, w: Warp, a: Action, r: Warp)
    requires InStep(p, init, w) && Acted(w, a, r) && !r.bar.gens[Cur(w.bar)].Closed?
    requires LaneOk(p, init, Cur(w.bar), a.lane, r.lanes[a.lane], r.slots[a.lane], r.ops[a.lane])
    ensures InStep(p, init, r)
  {
    StaysOpen(Seen(w), a, Seen(r));
    LanesStay(p, init, Cur(w.bar), w, a.lane, r);
  }

  predicate Leaves(p: Program, w: Warp, l: nat, r: Warp) {
    && Acted(w, Depart(l), r) && w.lanes[l].Idle? && p.ask(l, w.lanes[l].k, w.lanes[l].acc).None?
    && r.lanes[l].Out?
  }

  lemma IdleLeaves(p: Program, w: Warp, l: nat)
    requires CanMove(w, l) && w.lanes[l].Idle? && p.ask(l, w.lanes[l].k, w.lanes[l].acc).None?
    ensures Leaves(p, w, l, Move(p, w, l))
  {
    assert Seen(w).lanes[l] == StatusOf(w.lanes[l]);
    assert Seen(Move(p, w, l)) == Step(Seen(w), Depart(l));
  }

  /** Whoever has left takes part in neither this round nor the phase after. */
  lemma LeftOk(p: Program, init: seq<int>, c: nat, l: nat, s: Lane, slot: int, op: string, slot': int, op': string)
    requires LaneOk(p, init, c, l, s, slot, op) && s.Idle? && p.ask(l, s.k, s.acc).None?
    ensures c % 2 == 0 && l !in Takers(p, init, c / 2)
    ensures LaneOk(p, init, c, l, Out, slot', op') && LaneOk(p, init, c + 1, l, Out, slot', op')
  {
    assert (c + 1) / 2 == c / 2;
  }

  lemma LeaveMove(p: Program, init: seq<int>, w: Warp, l: nat, r: Warp)
    requires InStep(p, init, w) && Leaves(p, w, l, r)
    ensures InStep(p, init, r)
  {
    var c := Cur(w.bar);
    LeftOk(p, init, c, l, w.lanes[l], w.slots[l], w.ops[l], r.slots[l], r.ops[l]);
    if r.bar.gens[c].Closed? {
      Closer(w, Depart(l), r);
      AllCross(p, init, c, w, l, r);
    } else {
      Waits(p, init, w, Depart(l), r);
    }
  }

  /** Lane l, its operation named, has arrived at the first wait. */
  predicate MeetArrived(w: Warp, l: nat, r: Warp) {
    && Acted(w, Reach(l), r) && w.lanes[l].Named? && r.slots == w.slots && r.ops == w.ops
    && var s := w.lanes[l];
      r.lanes[l] == match r.bar.gens[Cur(w.bar)]
        case Closed(mask) => Met(s.k, s.acc, s.r, mask)
        case Open => Meeting(s.k, s.acc, s.r, Cur(w.bar))
  }

  lemma NamedArrives(p: Program, w: Warp, l: nat)
    requires CanMove(w, l) && w.lanes[l].Named?
    ensures MeetArrived(w, l, Move(p, w, l))
  {
    assert Seen(w).lanes[l] == StatusOf(w.lanes[l]);
    assert Seen(Move(p, w, l)) == Step(Seen(w), Reach(l));
  }

  /** In the first wait, released or not. */
  lemma NamedOk(p: Program, init: seq<int>, c: nat, l: nat, s: Lane, slot: int, op: string)
    requires s.Named? && LaneOk(p, init, c, l, s, slot, op)
    ensures c % 2 == 0 && l in Takers(p, init, c / 2)
    ensures LaneOk(p, init, c, l, Meeting(s.k, s.acc, s.r, c), slot, op)
    ensures LaneOk(p, init, c + 1, l, Met(s.k, s.acc, s.r, Takers(p, init, c / 2)), slot, op)
  {
    assert c == 2 * (c / 2) && (c + 1) / 2 == c / 2;
  }

  lemma MeetMove(p: Program, init: seq<int>, w: Warp, l: nat, r: Warp)
    requires InStep(p, init, w) && MeetArrived(w, l, r)
    ensures InStep(p, init, r)
  {
    var c := Cur(w.bar);
    NamedOk(p, init, c, l, w.lanes[l], w.slots[l], w.ops[l]);
    if r.bar.gens[c].Closed? {
      Closer(w, Reach(l), r);
      Assembled(p, init, c, w, l, r);
      AllCross(p, init, c, w, l, r);
    } else {
      Waits(p, init, w, Reach(l), r);
    }
  }

  /** In the second wait, released or not. */
  lemma ReadOk(p: Program, init: seq<int>, c: nat, l: nat, s: Lane, slot: int, op: string)
    requires s.Read? && LaneOk(p, init, c, l, s, slot, op) && l < |init|
    ensures c % 2 == 1
    ensures LaneOk(p, init, c, l, Parting(s.k, s.acc, s.got, c), slot, op)
    ensures LaneOk(p, init, c + 1, l, Idle(s.k + 1, p.take(l, s.k, s.acc, s.got)), slot, op)
  {
    assert c == 2 * (c / 2) + 1 && (c + 1) / 2 == c / 2 + 1;
    NextLevel(p, init, c / 2, l);
  }

  /** Lane l, done reading, has arrived at the second wait. */
  predicate PartArrived(p: Program, w: Warp, l: nat, r: Warp) {
    && Acted(w, Reach(l), r) && w.lanes[l].Read? && r.slots == w.slots && r.ops == w.ops
    && var s := w.lanes[l];
      r.lanes[l] == if r.bar.gens[Cur(w.bar)].Closed? then Idle(s.k + 1, p.take(l, s.k, s.acc, s.got)) else Parting(s.k, s.acc, s.got, Cur(w.bar))
  }

  lemma ReadArrives(p: Program, w: Warp, l: nat)
    requires CanMove(w, l) && w.lanes[l].Read?
    ensures PartArrived(p, w, l, Move(p, w, l))
  {
    assert Seen(w).lanes[l] == StatusOf(w.lanes[l]);
    assert Seen(Move(p, w, l)) == Step(Seen(w), Reach(l));
  }

  lemma PartMove(p: Program, init: seq<int>, w: Warp, l: nat, r: Warp)
    requires InStep(p, init, w) && PartArrived(p, w, l, r)
    ensures InStep(p, init, r)
  {
    var c := Cur(w.bar);
    ReadOk(p, init, c, l, w.lanes[l], w.slots[l], w.ops[l]);
    if r.bar.gens[c].Closed? {
      Closer(w, Reach(l), r);
      AllCross(p, init, c, w, l, r);
    } else {
      Waits(p, init, w, Reach(l), r);
    }
  }

  lemma MoveInStep(p: Program, init: seq<int>, w: Warp, l: nat)
    requires InStep(p, init, w) && CanMove(w, l)
    ensures InStep(p, init, Move(p, w, l))
  {
    match w.lanes[l]
    case Idle(k, acc) => if p.ask(l, k, acc).Some? { QuietMove(p, init, w, l); } else { IdleLeaves(p, w, l); LeaveMove(p, init, w, l, Move(p, w, l)); }
    case Wrote(_, _, _) => QuietMove(p, init, w, l);
    case Named(_, _, _) => NamedArrives(p, w, l); MeetMove(p, init, w, l, Move(p, w, l));
    case Meeting(_, _, _, _) => WakeMove(p, init, w, l);
    case Met(_, _, _, _) => QuietMove(p, init, w, l);
    case Read(_, _, _, _, _) => ReadArrives(p, w, l); PartMove(p, init, w, l, Move(p, w, l));
    case Parting(_, _, _, _) => WakeMove(p, init, w, l);
  }

  // Runs

  /** The warp after the lanes in schedule have moved, one step each. */
  predicate Schedules(p: Program, w: Warp, schedule: seq<nat>)
    decreases |schedule|
  {
    schedule == [] || (CanMove(w, schedule[0]) && Schedules(p, Move(p, w, schedule[0]), schedule[1..]))
  }

  function AfterAll(p: Program, w: Warp, schedule: seq<nat>): (r: Warp)
    requires Schedules(p, w, schedule)
    ensures |r.lanes| == |w.lanes|
    decreases |schedule|
  {
    if schedule == [] then w else AfterAll(p, Move(p, w, schedule[0]), schedule[1..])
  }

  lemma {:induction false} StaysInStep(p: Program, init: seq<int>, w: Warp, schedule: seq<nat>)
    requires InStep(p, init, w) && Schedules(p, w, schedule)
    ensures InStep(p, init, AfterAll(p, w, schedule))
    decreases |schedule|
  {
    if schedule != [] {
      MoveInStep(p, init, w, schedule[0]);
      StaysInStep(p, init, Move(p, w, schedule[0]), schedule[1..]);
    }
  }

  /** Exchange correctness: whatever the interleaving, a lane that has read its k-th answer asked what it
      asks in lockstep execution and got what that gives it, reported a mismatch exactly if some lane met
      in another operation, and goes into its k-th exchange with lockstep's value. */
  lemma ExchangeIsLockstep(p: Program, init: seq<int>, schedule: seq<nat>, l: nat)
    requires Schedules(p, Begin(init), schedule) && l < |init|
    ensures var s := AfterAll(p, Begin(init), schedule).lanes[l];
      && (s.Idle? ==> Level(p, init, s.k)[l] == Some(s.acc))
      && (s.Met? ==> s.here == Takers(p, init, s.k))
      && (s.Read? ==>
          && l in Takers(p, init, s.k) && s.r == Asked(p, init, s.k, l)
          && s.got == Due(p, init, s.k, l) && Told(p, init, s.k, s.r, s.got)
          && (s.odd <==> exists j :: j in Takers(p, init, s.k) && Asked(p, init, s.k, j).op != Asked(p, init, s.k, l).op))
  {
    BeginInStep(p, init);
    StaysInStep(p, init, Begin(init), schedule);
    var w := AfterAll(p, Begin(init), schedule);
    assert LaneOk(p, init, Cur(w.bar), l, w.lanes[l], w.slots[l], w.ops[l]);
    if w.lanes[l].Read? { DueIsTold(p, init, w.lanes[l].k, l); }
  }

  /** Any and All, as gpu/warp.go has them of a ballot. */
  predicate Any(b: Answer)
    requires b.Ballot?
  {
    b.mask != {}
  }

  predicate All(b: Answer)
    requires b.Ballot?
  {
    b.mask == b.here
  }

  /** In any run, Any tells a lane whether some lane that took part voted for, and All whether every one
      did. */
  lemma VotesAreCounted(p: Program, init: seq<int>, schedule: seq<nat>, l: nat)
    requires Schedules(p, Begin(init), schedule) && l < |init|
    requires AfterAll(p, Begin(init), schedule).lanes[l].Read? && AfterAll(p, Begin(init), schedule).lanes[l].r.kind.Vote?
    ensures var s := AfterAll(p, Begin(init), schedule).lanes[l];
      && s.got.Ballot?
      && (Any(s.got) <==> exists j :: j in Takers(p, init, s.k) && Asked(p, init, s.k, j).v != 0)
      && (All(s.got) <==> forall j :: j in Takers(p, init, s.k) ==> Asked(p, init, s.k, j).v != 0)
  {
    ExchangeIsLockstep(p, init, schedule, l);
    var s := AfterAll(p, Begin(init), schedule).lanes[l];
    Counted(p, init, s.k, s.r, s.got);
  }

  lemma Counted(p: Program, init: seq<int>, k: nat, r: Request, got: Answer)
    requires Told(p, init, k, r, got) && r.kind.Vote?
    ensures got.Ballot? && (Any(got) <==> exists j :: j in Takers(p, init, k) && Asked(p, init, k, j).v != 0)
    ensures All(got) <==> forall j :: j in Takers(p, init, k) ==> Asked(p, init, k, j).v != 0
  {
    if j :| j in Takers(p, init, k) && Asked(p, init, k, j).v != 0 { assert j in got.mask; }
    if Any(got) {
      var j :| j in got.mask;
      assert j in Takers(p, init, k) && Asked(p, init, k, j).v != 0;
    }
    if forall j :: j in Takers(p, init, k) ==> Asked(p, init, k, j).v != 0 { assert got.mask == got.here; }
  }

  lemma MovableLane(p: Program, init: seq<int>, w: Warp, i: nat) returns (l: nat)
    requires InStep(p, init, w) && i < |init| && !w.lanes[i].Out?
    ensures CanMove(w, l)
  {
    assert Seen(w).lanes[i] == StatusOf(w.lanes[i]);
    assert i in Present(Seen(w));
    NoneLeftUnreleased(Seen(w));
    l :| l in Present(Seen(w)) && l !in Waiting(Seen(w));
    Unparked(p, init, w, l);
  }

  /** No interleaving is stuck: while a lane is in the kernel, some lane can move. */
  lemma SomebodyMoves(p: Program, init: seq<int>, schedule: seq<nat>)
    requires Schedules(p, Begin(init), schedule)
    requires exists l: nat :: l < |init| && !AfterAll(p, Begin(init), schedule).lanes[l].Out?
    ensures exists l :: CanMove(AfterAll(p, Begin(init), schedule), l)
  {
    BeginInStep(p, init);
    StaysInStep(p, init, Begin(init), schedule);
    var w := AfterAll(p, Begin(init), schedule);
    var i: nat :| i < |init| && !w.lanes[i].Out?;
    var l := MovableLane(p, init, w, i);
  }

  lemma Unparked(p: Program, init: seq<int>, w: Warp, l: nat)
    requires InStep(p, init, w) && l in Present(Seen(w)) && l !in Waiting(Seen(w))
    ensures CanMove(w, l)
  {
    assert Seen(w).lanes[l] == StatusOf(w.lanes[l]);
    assert LaneOk(p, init, Cur(w.bar), l, w.lanes[l], w.slots[l], w.ops[l]);
  }
}
