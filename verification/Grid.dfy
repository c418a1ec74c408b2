/** The numbering of threads in gpu/gpu.go: positions and flat indices are one to one, and so are
    threads and the lanes of warps. */
module Grid {
  import opened TwosComplement

  datatype Dim = Dim(x: nat, y: nat, z: nat)

  predicate Inside(p: Dim, extent: Dim) { p.x < extent.x && p.y < extent.y && p.z < extent.z }

  function CountOf(d: Dim): int { d.x * d.y * d.z }

  function Flat(pos: Dim, extent: Dim): int { pos.x + extent.x * (pos.y + extent.y * pos.z) }

  function Coord(d: Dim, i: nat): Dim
    requires d.x > 0 && d.y > 0
  {
    NonNegativeProduct(d.x, d.y);
    Dim(i % d.x, (i / d.x) % d.y, i / (d.x * d.y))
  }

  lemma NonNegativeProduct(a: nat, b: nat)
    requires a > 0 && b > 0
    ensures a * b > 0
  {
    Multiple(a, b);
  }

  /** i / (a * b) divides twice. */
  lemma DivideTwice(i: nat, a: nat, b: nat)
    requires a > 0 && b > 0
    ensures a * b > 0 && i / (a * b) == (i / a) / b
  {
    var q, r := i / a, i % a;
    var p, s := q / b, q % b;
    NonNegativeProduct(a, b);
    Division(i, a);
    Division(q, b);
    Regroup(p, b, a);
    Distribute(p * b, s, a);
    Reorder(p, b, a);
    Monotone(b - 1, s, a);
    Distribute(b, 1, a);
    Commute(a, b);
    ModUnique(i, a * b, p, s * a + r);
  }

  lemma Reorder(p: int, b: int, a: int)
    ensures (p * b) * a == p * (a * b)
  {
  }

  /** coord gives a position inside the extent, and flat gives the index back. */
  lemma CoordThenFlat(d: Dim, i: nat)
    requires d.x > 0 && d.y > 0 && i < CountOf(d)
    ensures Inside(Coord(d, i), d) && Flat(Coord(d, i), d) == i
  {
    var q := i / d.x;
    DivideTwice(i, d.x, d.y);
    Division(i, d.x);
    Division(q, d.y);
    Commute(q, d.x);
    Commute(q / d.y, d.y);
    var z := i / (d.x * d.y);
    Division(i, d.x * d.y);
    if z >= d.z {
      Monotone(z, d.z, d.x * d.y);
      Commute(d.x * d.y, d.z);
    }
  }

  /** flat numbers positions one to one. */
  lemma FlatThenCoord(d: Dim, p: Dim)
    requires d.x > 0 && d.y > 0 && Inside(p, d)
    ensures 0 <= Flat(p, d) && Coord(d, Flat(p, d)) == p
  {
    var q := p.y + d.y * p.z;
    NonNegative(p.z, d.y);
    Commute(p.z, d.y);
    NonNegative(q, d.x);
    Commute(q, d.x);
    ModUnique(Flat(p, d), d.x, q, p.x);
    ModUnique(q, d.y, p.z, p.y);
    DivideTwice(Flat(p, d), d.x, d.y);
  }

  /** The position after p, x moving fastest. */
  function After(p: Dim, d: Dim): Dim {
    if p.x + 1 < d.x then p.(x := p.x + 1) else if p.y + 1 < d.y then Dim(0, p.y + 1, p.z) else Dim(0, 0, p.z + 1)
  }

  /** Threads are numbered as CUDA numbers them: from the origin, x fastest, then y, then z. */
  lemma XIsFastest(d: Dim, i: nat)
    requires d.x > 0 && d.y > 0 && i < CountOf(d)
    ensures Coord(d, 0) == Dim(0, 0, 0)
    ensures i + 1 < CountOf(d) ==> Coord(d, i + 1) == After(Coord(d, i), d)
  {
    var p := Coord(d, i);
    CoordThenFlat(d, i);
    FlatAfter(p, d);
    FlatThenCoordOrEnd(d, After(p, d), i + 1);
    OriginIsFirst(d);
  }

  lemma OriginIsFirst(d: Dim)
    requires d.x > 0 && d.y > 0
    ensures Coord(d, 0) == Dim(0, 0, 0)
  {
    NonNegativeProduct(d.x, d.y);
    ModFits(0, d.x);
    ModFits(0, d.y);
    ModUnique(0, d.x * d.y, 0, 0);
    ModUnique(0, d.x, 0, 0);
  }

  lemma FlatAfter(p: Dim, d: Dim)
    requires Inside(p, d)
    ensures Flat(After(p, d), d) == Flat(p, d) + 1
  {
    if p.x + 1 == d.x {
      Row(d.x, p.y + d.y * p.z);
      if p.y + 1 == d.y { Row(d.y, p.z); }
    }
  }

  /** The end of a row is the start of the next. */
  lemma Row(n: nat, q: int)
    ensures n * (q + 1) == n - 1 + n * q + 1
  {
    Commute(n, q + 1);
    Commute(n, q);
    Distribute(q, 1, n);
  }

  lemma FlatThenCoordOrEnd(d: Dim, p: Dim, i: nat)
    requires d.x > 0 && d.y > 0 && p.x < d.x && p.y < d.y && Flat(p, d) == i
    ensures i < CountOf(d) ==> Coord(d, i) == p
  {
    if p.z < d.z { FlatThenCoord(d, p); } else { TooFar(d, p); }
  }

  lemma TooFar(d: Dim, p: Dim)
    requires p.z >= d.z
    ensures Flat(p, d) >= CountOf(d)
  {
    Monotone(p.z, d.z, d.y);
    Commute(p.z, d.y);
    Commute(d.z, d.y);
    Monotone(p.y + d.y * p.z, d.y * d.z, d.x);
    Commute(p.y + d.y * p.z, d.x);
    Commute(d.y * d.z, d.x);
    Thrice(d.x, d.y, d.z);
  }

  lemma Thrice(a: int, b: int, c: int)
    ensures a * (b * c) == a * b * c
  {
  }

  // Warps

  const WARP_SIZE: nat := 32

  function Warps(n: nat): nat { (n + WARP_SIZE - 1) / WARP_SIZE }

  function SizeOfWarp(n: nat, w: nat): int { if WARP_SIZE < n - w * WARP_SIZE then WARP_SIZE else n - w * WARP_SIZE }

  /** Every thread of a block is one lane of one warp, and a warp has no other lanes, but at least one. */
  lemma LanesAreThreads(n: nat, w: nat, lane: nat)
    ensures w < Warps(n) && lane < SizeOfWarp(n, w) <==>
      lane < WARP_SIZE && w * WARP_SIZE + lane < n
    ensures lane < WARP_SIZE ==> (w * WARP_SIZE + lane) / WARP_SIZE == w && (w * WARP_SIZE + lane) % WARP_SIZE == lane
    ensures w < Warps(n) <==> w * WARP_SIZE < n
  {
  }
}
