/** The struct padding of internal/lower/struct.go: declaring every hole pins every field to the offset
    Go gave it, and a padded literal puts every value into its own field. */
module StructLayout {
  import opened Basics
  import opened Decimal

  /** A Go field with its C name, its size, and where Go puts it. */
  datatype Field = Field(name: string, size: nat, off: nat, embedded: bool)

  datatype Member = Named(i: nat) | Pad(name: string, bytes: nat)

  /** structLayout, with the members in the order they are declared. */
  datatype Layout = Layout(members: seq<Member>, padBefore: seq<bool>, padTail: bool)

  const PAD_PREFIX := "simtgo_pad"

  function End(fields: seq<Field>): nat { if fields == [] then 0 else fields[|fields| - 1].off + fields[|fields| - 1].size }

  /** Go's layout: increasing offsets, no overlap, and a size that holds the last field. */
  predicate GoLayout(fields: seq<Field>, size: nat) {
    && (forall i :: 0 < i < |fields| ==> fields[i - 1].off + fields[i - 1].size <= fields[i].off)
    && End(fields) <= size
  }

  predicate FieldRefused(f: Field) { f.embedded || f.name == "_" || HasPrefix(f.name, PAD_PREFIX) }

  function PadName(k: nat): string { PAD_PREFIX + Dec(k) }

  // Sizes

  function SizeOf(fields: seq<Field>, m: Member): nat
    requires m.Named? ==> m.i < |fields|
  {
    if m.Named? then fields[m.i].size else m.bytes
  }

  predicate Known(fields: seq<Field>, members: seq<Member>) {
    forall k :: 0 <= k < |members| ==> members[k].Named? ==> members[k].i < |fields|
  }

  /** Where member k starts if nothing is inserted. */
  function Packed(fields: seq<Field>, members: seq<Member>, k: nat): nat
    requires Known(fields, members) && k <= |members|
  {
    if k == 0 then 0 else Packed(fields, members, k - 1) + SizeOf(fields, members[k - 1])
  }

  lemma {:induction false} PackedPrefix(fields: seq<Field>, members: seq<Member>, more: seq<Member>, k: nat)
    requires Known(fields, members) && Known(fields, members + more) && k <= |members|
    ensures Packed(fields, members + more, k) == Packed(fields, members, k)
  {
    if k > 0 { PackedPrefix(fields, members, more, k - 1); }
  }

  // The layout loop

  /** The hole Go leaves before field i. */
  function Gap(fields: seq<Field>, i: nat): int
    requires i < |fields|
  {
    fields[i].off - End(fields[..i])
  }

  function PadCount(fields: seq<Field>, n: nat): nat
    requires n <= |fields|
  {
    if n == 0 then 0 else PadCount(fields, n - 1) + if Gap(fields, n - 1) > 0 then 1 else 0
  }

  /** The members of the first n fields: each once, in order, behind a pad that fills its hole. */
  function Members(fields: seq<Field>, n: nat): seq<Member>
    requires n <= |fields|
  {
    if n == 0 then []
    else
      Members(fields, n - 1) +
      (if Gap(fields, n - 1) > 0 then [Pad(PadName(PadCount(fields, n - 1)), Gap(fields, n - 1))] else []) +
      [Named(n - 1)]
  }

  /** And a pad for what is left after the last. */
  function AllMembers(fields: seq<Field>, size: nat): seq<Member>
    requires End(fields) <= size
  {
    Members(fields, |fields|) +
    if size > End(fields) then [Pad(PadName(PadCount(fields, |fields|)), size - End(fields))] else []
  }

  /** One turn of structType's loop: a pad if Go leaves a hole, then the field. */
  method DeclareField(fields: seq<Field>, size: nat, i: nat, members: seq<Member>, next: nat, pads: nat)
    returns (ms: seq<Member>, end: nat, ps: nat, padded: bool)
    requires GoLayout(fields, size) && i < |fields|
    requires next == End(fields[..i]) && pads == PadCount(fields, i) && members == Members(fields, i)
    requires Pinned(fields, members, next)
    ensures end == End(fields[..i + 1]) && ps == PadCount(fields, i + 1) && ms == Members(fields, i + 1)
    ensures Pinned(fields, ms, end) && (padded <==> Gap(fields, i) > 0)
  {
    var f := fields[i];
    FieldFollows(fields, size, i);
    var gap := f.off - next;
    ms, ps, padded := members, pads, gap > 0;
    if padded {
      AppendPad(fields, ms, next, PadName(ps), gap);
      ms := ms + [Pad(PadName(ps), gap)];
      ps := ps + 1;
    }
    AppendNamed(fields, ms, i);
    ms := ms + [Named(i)];
    end := f.off + f.size;
    assert fields[..i + 1][i] == f;
  }

  /** structType: a pad for every hole and one for the tail, or a refusal. */
  method StructType(fields: seq<Field>, size: nat) returns (r: Option<Layout>)
    requires GoLayout(fields, size)
    ensures r.None? <==>
      exists i :: 0 <= i < |fields| && (
        || fields[i].embedded || fields[i].name == "_"
        || (|PAD_PREFIX| <= |fields[i].name| && fields[i].name[..|PAD_PREFIX|] == PAD_PREFIX))
    ensures r.Some? ==> LayoutOf(fields, size, r.value) && Pinned(fields, r.value.members, size)
  {
    var members: seq<Member> := [];
    var padBefore: seq<bool> := [];
    var next, pads := 0, 0;
    for i := 0 to |fields|
      invariant next == End(fields[..i]) && pads == PadCount(fields, i) && members == Members(fields, i)
      invariant Pinned(fields, members, next)
      invariant forall j :: 0 <= j < i ==> !FieldRefused(fields[j])
      invariant |padBefore| == i && forall j :: 0 <= j < i ==> (padBefore[j] <==> Gap(fields, j) > 0)
    {
      var f := fields[i];
      if FieldRefused(f) { return None; }
      var padded;
      members, next, pads, padded := DeclareField(fields, size, i, members, next, pads);
      padBefore := padBefore + [padded];
    }
    assert fields[..|fields|] == fields;
    assert next == End(fields);
    TailIsPinned(fields, size, members, pads);
    var tail := size - next;
    if tail > 0 { members := members + [Pad(PadName(pads), tail)]; }
    r := Some(Layout(members, padBefore, tail > 0));
  }

  lemma {:induction false} TailIsPinned(fields: seq<Field>, size: nat, members: seq<Member>, pads: nat)
    requires End(fields) <= size && pads == PadCount(fields, |fields|) && members == Members(fields, |fields|)
    requires Pinned(fields, members, End(fields))
    ensures AllMembers(fields, size) == members + if size > End(fields) then [Pad(PadName(pads), size - End(fields))] else []
    ensures Pinned(fields, AllMembers(fields, size), size)
  {
    if size > End(fields) {
      AppendPad(fields, members, End(fields), PadName(pads), size - End(fields));
    } else {
      assert AllMembers(fields, size) == members;
    }
  }

  predicate LayoutOf(fields: seq<Field>, size: nat, l: Layout)
    requires End(fields) <= size
  {
    && l.members == AllMembers(fields, size) && |l.padBefore| == |fields|
    && (forall i :: 0 <= i < |fields| ==> (l.padBefore[i] <==> Gap(fields, i) > 0))
    && (l.padTail <==> size > End(fields))
  }

  lemma FieldFollows(fields: seq<Field>, size: nat, i: nat)
    requires GoLayout(fields, size) && i < |fields|
    ensures End(fields[..i]) <= fields[i].off
  {
  }

  /** Every field is where Go has it, and the members fill the struct to the last byte. */
  predicate Pinned(fields: seq<Field>, members: seq<Member>, size: nat) {
    && Known(fields, members) && Packed(fields, members, |members|) == size
    && forall k :: 0 <= k < |members| && members[k].Named? ==> Packed(fields, members, k) == fields[members[k].i].off
  }

  lemma AppendPad(fields: seq<Field>, members: seq<Member>, size: nat, name: string, bytes: nat)
    requires Pinned(fields, members, size)
    ensures Pinned(fields, members + [Pad(name, bytes)], size + bytes)
  {
    forall k | 0 <= k <= |members| ensures Packed(fields, members + [Pad(name, bytes)], k) == Packed(fields, members, k) {
      PackedPrefix(fields, members, [Pad(name, bytes)], k);
    }
  }

  lemma AppendNamed(fields: seq<Field>, members: seq<Member>, i: nat)
    requires i < |fields| && Pinned(fields, members, fields[i].off)
    ensures Pinned(fields, members + [Named(i)], fields[i].off + fields[i].size)
  {
    forall k | 0 <= k <= |members| ensures Packed(fields, members + [Named(i)], k) == Packed(fields, members, k) {
      PackedPrefix(fields, members, [Named(i)], k);
    }
  }

  // C

  /** A layout C may choose (ISO C++17 section 12.2): members in order, none overlapping, all inside. */
  predicate Allowed(fields: seq<Field>, members: seq<Member>, place: seq<nat>, size: nat)
    requires Known(fields, members) && |place| == |members|
  {
    && (forall k :: 0 < k < |members| ==> place[k - 1] + SizeOf(fields, members[k - 1]) <= place[k])
    && (members != [] ==> place[|members| - 1] + SizeOf(fields, members[|members| - 1]) <= size)
  }

  lemma {:induction false} NotBefore(fields: seq<Field>, members: seq<Member>, place: seq<nat>, size: nat, k: nat)
    requires Known(fields, members) && |place| == |members| && Allowed(fields, members, place, size) && k < |members|
    ensures Packed(fields, members, k) <= place[k]
  {
    if k > 0 { NotBefore(fields, members, place, size, k - 1); }
  }

  lemma {:induction false} NotAfter(fields: seq<Field>, members: seq<Member>, place: seq<nat>, size: nat, k: nat)
    requires Known(fields, members) && |place| == |members| && Allowed(fields, members, place, size) && k < |members|
    requires Packed(fields, members, |members|) == size
    ensures place[k] <= Packed(fields, members, k)
    decreases |members| - k
  {
    if k < |members| - 1 { NotAfter(fields, members, place, size, k + 1); }
  }

  /** Layout pinning: whatever layout C chooses, if sizeof is Go's size then every member is packed, and
      every field is at Go's offset. */
  lemma OffsetsArePinned(fields: seq<Field>, members: seq<Member>, place: seq<nat>, size: nat, k: nat)
    requires Pinned(fields, members, size) && |place| == |members| && Allowed(fields, members, place, size) && k < |members|
    ensures place[k] == Packed(fields, members, k)
    ensures members[k].Named? ==> place[k] == fields[members[k].i].off
  {
    NotBefore(fields, members, place, size, k);
    NotAfter(fields, members, place, size, k);
  }

  /** Without the padding the size alone would not do: a one-byte field before an aligned one may end up
      at the end of its hole. */
  lemma HolesMove(a: Field, b: Field, size: nat)
    requires a.size == 1 && a.off == 0 && b.off >= 2 && size == b.off + b.size
    ensures GoLayout([a, b], size)
    ensures Allowed([a, b], [Named(0), Named(1)], [1, b.off], size) && [1, b.off][0] != a.off
  {
  }

  // The generated names are new.

  lemma PadNamesDiffer(j: nat, k: nat)
    requires PadName(j) == PadName(k)
    ensures j == k
  {
    assert PadName(j)[|PAD_PREFIX|..] == Dec(j) && PadName(k)[|PAD_PREFIX|..] == Dec(k);
    DecInjective(j, k);
  }

  lemma PadNameIsNew(f: Field, k: nat)
    requires !FieldRefused(f)
    ensures f.name != PadName(k)
  {
    StartsSo(PAD_PREFIX, Dec(k));
  }

  lemma StartsSo(prefix: string, rest: string)
    ensures HasPrefix(prefix + rest, prefix)
  {
  }

  function MemberName(fields: seq<Field>, m: Member): string
    requires m.Named? ==> m.i < |fields|
  {
    if m.Named? then fields[m.i].name else m.name
  }

  /** Go's own rule: two fields share a name only if it is the blank one. */
  predicate GoNames(fields: seq<Field>) {
    forall i, j :: 0 <= i < j < |fields| && fields[i].name == fields[j].name ==> fields[i].name == "_"
  }

  /** The members of the first n fields: each a field below n or a pad below their count, none twice. */
  predicate Numbered(fields: seq<Field>, members: seq<Member>, n: nat, pads: nat) {
    && Known(fields, members)
    && (forall k :: 0 <= k < |members| ==>
         if members[k].Named? then members[k].i < n else exists p :: 0 <= p < pads && members[k].name == PadName(p))
    && forall j, k :: 0 <= j < k < |members| ==>
         if members[j].Named? && members[k].Named? then members[j].i != members[k].i
         else members[j].Pad? && members[k].Pad? ==> members[j].name != members[k].name
  }

  lemma AddPad(fields: seq<Field>, members: seq<Member>, n: nat, pads: nat, bytes: nat)
    requires Numbered(fields, members, n, pads)
    ensures Numbered(fields, members + [Pad(PadName(pads), bytes)], n, pads + 1)
  {
    forall j | 0 <= j < |members| && members[j].Pad? ensures members[j].name != PadName(pads) {
      var p :| 0 <= p < pads && members[j].name == PadName(p);
      if members[j].name == PadName(pads) { PadNamesDiffer(p, pads); }
    }
  }

  lemma AddField(fields: seq<Field>, members: seq<Member>, n: nat, pads: nat)
    requires Numbered(fields, members, n, pads) && n < |fields|
    ensures Numbered(fields, members + [Named(n)], n + 1, pads)
  {
  }

  lemma {:induction false} MembersNumbered(fields: seq<Field>, n: nat)
    requires n <= |fields|
    ensures Numbered(fields, Members(fields, n), n, PadCount(fields, n))
  {
    if n > 0 {
      MembersNumbered(fields, n - 1);
      var ms, pads := Members(fields, n - 1), PadCount(fields, n - 1);
      if Gap(fields, n - 1) > 0 {
        AddPad(fields, ms, n - 1, pads, Gap(fields, n - 1));
        AddField(fields, ms + [Pad(PadName(pads), Gap(fields, n - 1))], n - 1, pads + 1);
      } else {
        AddField(fields, ms, n - 1, pads);
        assert ms + [] == ms;
      }
    }
  }

  /** No two members of an accepted struct share a name: what is refused is what would make two. */
  lemma MemberNamesDiffer(fields: seq<Field>, size: nat, j: nat, k: nat)
    requires End(fields) <= size && GoNames(fields) && forall i :: 0 <= i < |fields| ==> !FieldRefused(fields[i])
    requires j < k < |AllMembers(fields, size)|
    ensures Known(fields, AllMembers(fields, size))
    ensures MemberName(fields, AllMembers(fields, size)[j]) != MemberName(fields, AllMembers(fields, size)[k])
  {
    var n := |fields|;
    MembersNumbered(fields, n);
    if size > End(fields) {
      AddPad(fields, Members(fields, n), n, PadCount(fields, n), size - End(fields));
    } else {
      assert AllMembers(fields, size) == Members(fields, n);
    }
    NumberedDiffer(fields, AllMembers(fields, size), if size > End(fields) then PadCount(fields, n) + 1 else PadCount(fields, n), j, k);
  }

  lemma NumberedDiffer(fields: seq<Field>, members: seq<Member>, pads: nat, j: nat, k: nat)
    requires Numbered(fields, members, |fields|, pads) && GoNames(fields) && forall i :: 0 <= i < |fields| ==> !FieldRefused(fields[i])
    requires j < k < |members|
    ensures MemberName(fields, members[j]) != MemberName(fields, members[k])
  {
    var a, b := members[j], members[k];
    if a.Named? && b.Named? {
      assert fields[a.i].name != "_" && fields[b.i].name != "_";
    } else if a.Named? {
      var p :| 0 <= p < pads && b.name == PadName(p);
      PadNameIsNew(fields[a.i], p);
    } else if b.Named? {
      var p :| 0 <= p < pads && a.name == PadName(p);
      PadNameIsNew(fields[b.i], p);
    }
  }

  // Literals

  /** One element of a composite literal. */
  datatype Elt = Elt(key: Option<string>, v: string)

  function IndexOf(fields: seq<Field>, name: string): (r: nat)
    ensures r <= |fields| && (r < |fields| ==> fields[r].name == name)
    ensures forall j :: 0 <= j < r ==> fields[j].name != name
  {
    if fields == [] || fields[0].name == name then 0 else 1 + IndexOf(fields[1..], name)
  }

  /** What the first n elements say of field i: its own value, or the zero of its type. */
  function ValueOf(fields: seq<Field>, elts: seq<Elt>, n: nat, i: nat, zeros: seq<string>): string
    requires n <= |elts| && i < |fields| == |zeros|
  {
    if n == 0 then zeros[i]
    else
      var e := elts[n - 1];
      if (if e.key.Some? then e.key.value == fields[i].name else n - 1 == i) then e.v
      else ValueOf(fields, elts, n - 1, i, zeros)
  }

  /** The j-th element is for field i. */
  predicate For(fields: seq<Field>, elts: seq<Elt>, j: nat, i: nat)
    requires j < |elts| && i < |fields|
  {
    if elts[j].key.Some? then elts[j].key.value == fields[i].name else i == j
  }

  /** It is the last of the first n that is. */
  predicate LastFor(fields: seq<Field>, elts: seq<Elt>, n: nat, j: nat, i: nat)
    requires j < n <= |elts| && i < |fields|
  {
    For(fields, elts, j, i) && forall k :: j < k < n ==> !For(fields, elts, k, i)
  }

  lemma {:induction false} LastCounts(fields: seq<Field>, elts: seq<Elt>, n: nat, i: nat, zeros: seq<string>, j: nat)
    requires j < n <= |elts| && i < |fields| == |zeros| && LastFor(fields, elts, n, j, i)
    ensures ValueOf(fields, elts, n, i, zeros) == elts[j].v
  {
    if j < n - 1 {
      assert !For(fields, elts, n - 1, i);
      LastCounts(fields, elts, n - 1, i, zeros, j);
    }
  }

  lemma {:induction false} ZeroOtherwise(fields: seq<Field>, elts: seq<Elt>, n: nat, i: nat, zeros: seq<string>)
    requires n <= |elts| && i < |fields| == |zeros|
    requires forall j :: 0 <= j < n ==> !For(fields, elts, j, i)
    ensures ValueOf(fields, elts, n, i, zeros) == zeros[i]
  {
    if n > 0 {
      assert !For(fields, elts, n - 1, i);
      ZeroOtherwise(fields, elts, n - 1, i, zeros);
    }
  }

  predicate Distinct(fields: seq<Field>) { forall i, j :: 0 <= i < j < |fields| ==> fields[i].name != fields[j].name }

  /** An element for no field: an unknown name, a position past the end or after a name. */
  predicate Misplaced(fields: seq<Field>, elts: seq<Elt>, i: nat)
    requires i < |elts|
  {
    if elts[i].key.Some? then forall f :: f in fields ==> f.name != elts[i].key.value
    else i >= |fields| || exists j :: 0 <= j < i && elts[j].key.Some?
  }

  /** composite: every field written out, by name or by position, or a refusal. */
  method Composite(fields: seq<Field>, elts: seq<Elt>, zeros: seq<string>) returns (r: Option<seq<string>>)
    requires Distinct(fields) && |zeros| == |fields|
    ensures r.Some? ==> |r.value| == |fields| && forall i :: 0 <= i < |fields| ==> r.value[i] == ValueOf(fields, elts, |elts|, i, zeros)
    ensures r.Some? ==>
      forall i, j :: 0 <= i < |fields| && 0 <= j < |elts| && LastFor(fields, elts, |elts|, j, i) ==> r.value[i] == elts[j].v
    ensures r.Some? ==>
      forall i :: 0 <= i < |fields| && (forall j :: 0 <= j < |elts| ==> !For(fields, elts, j, i)) ==> r.value[i] == zeros[i]
    ensures r.None? <==> exists i :: 0 <= i < |elts| && Misplaced(fields, elts, i)
  {
    var values := zeros;
    var keyed := false;
    for i := 0 to |elts|
      invariant |values| == |fields| && (keyed <==> exists j :: 0 <= j < i && elts[j].key.Some?)
      invariant forall j :: 0 <= j < |fields| ==> values[j] == ValueOf(fields, elts, i, j, zeros)
      invariant forall j :: 0 <= j < i ==> !Misplaced(fields, elts, j)
    {
      var e := elts[i];
      if e.key.Some? {
        keyed := true;
        var at := IndexOf(fields, e.key.value);
        if at == |fields| {
          assert Misplaced(fields, elts, i);
          return None;
        }
        assert fields[at] in fields;
        values := values[at := e.v];
      } else {
        if keyed || i >= |values| {
          assert Misplaced(fields, elts, i);
          return None;
        }
        values := values[i := e.v];
      }
    }
    forall i, j | 0 <= i < |fields| && 0 <= j < |elts| && LastFor(fields, elts, |elts|, j, i) {
      LastCounts(fields, elts, |elts|, i, zeros, j);
    }
    forall i | 0 <= i < |fields| && forall j :: 0 <= j < |elts| ==> !For(fields, elts, j, i) {
      ZeroOtherwise(fields, elts, |elts|, i, zeros);
    }
    r := Some(values);
  }

  /** withPadding: an empty initialiser for every padding member. */
  method WithPadding(layout: Layout, values: seq<string>) returns (out: seq<string>)
    requires |layout.padBefore| == |values|
    ensures out == Padded(layout.padBefore, values, |values|) + (if layout.padTail then ["{}"] else [])
  {
    out := [];
    for i := 0 to |values|
      invariant out == Padded(layout.padBefore, values, i)
    {
      if layout.padBefore[i] { out := out + ["{}"]; }
      out := out + [values[i]];
    }
    if layout.padTail { out := out + ["{}"]; }
  }

  function Padded(padBefore: seq<bool>, values: seq<string>, n: nat): seq<string>
    requires |padBefore| == |values| && n <= |values|
  {
    if n == 0 then []
    else Padded(padBefore, values, n - 1) + (if padBefore[n - 1] then ["{}"] else []) + [values[n - 1]]
  }

  /** A positional initialiser meets its own member. */
  predicate Meets(members: seq<Member>, values: seq<string>, out: seq<string>) {
    && |out| == |members|
    && forall k :: 0 <= k < |members| ==>
         if members[k].Named? then members[k].i < |values| && out[k] == values[members[k].i] else out[k] == "{}"
  }

  lemma {:induction false} PaddedMeets(fields: seq<Field>, padBefore: seq<bool>, values: seq<string>, n: nat)
    requires |padBefore| == |values| == |fields| && n <= |fields|
    requires forall i :: 0 <= i < |fields| ==> (padBefore[i] <==> Gap(fields, i) > 0)
    ensures Meets(Members(fields, n), values, Padded(padBefore, values, n))
  {
    if n > 0 {
      PaddedMeets(fields, padBefore, values, n - 1);
      var ms, out := Members(fields, n - 1), Padded(padBefore, values, n - 1);
      if Gap(fields, n - 1) > 0 {
        var pad := Pad(PadName(PadCount(fields, n - 1)), Gap(fields, n - 1));
        OneMeets(ms, values, out, pad, "{}");
        ms, out := ms + [pad], out + ["{}"];
      }
      OneMeets(ms, values, out, Named(n - 1), values[n - 1]);
    }
  }

  lemma OneMeets(members: seq<Member>, values: seq<string>, out: seq<string>, m: Member, v: string)
    requires Meets(members, values, out)
    requires if m.Named? then m.i < |values| && v == values[m.i] else v == "{}"
    ensures Meets(members + [m], values, out + [v])
  {
  }

  /** A padded literal of a struct C lays out to Go's size stores the value of every field at the offset
      Go has it at. */
  lemma LiteralStores(fields: seq<Field>, l: Layout, values: seq<string>, place: seq<nat>, size: nat, k: nat)
    requires End(fields) <= size && LayoutOf(fields, size, l) && |values| == |fields|
    requires Pinned(fields, l.members, size) && |place| == |l.members| && Allowed(fields, l.members, place, size)
    requires k < |l.members| && l.members[k].Named?
    ensures
      var out := Padded(l.padBefore, values, |values|) + (if l.padTail then ["{}"] else []);
      |out| == |l.members| && out[k] == values[l.members[k].i] && place[k] == fields[l.members[k].i].off
  {
    PaddedMeets(fields, l.padBefore, values, |fields|);
    OffsetsArePinned(fields, l.members, place, size, k);
  }
}
