/** Modular arithmetic, truncating division and the bits of two's complement integers. */
module TwosComplement {

  // Residues

  lemma Multiple(k: int, m: int)
    requires m > 0
    ensures (k >= 1 ==> k * m >= m) && (k <= -1 ==> k * m <= -m)
  {
    if k >= 1 { NonNegative(k - 1, m); } else if k <= -1 { NonNegative(-k - 1, m); }
  }

  lemma NonNegative(k: int, m: int)
    requires k >= 0 && m >= 0
    ensures k * m >= 0
  {
  }

  lemma Distribute(a: int, b: int, m: int)
    ensures (a + b) * m == a * m + b * m && (a - b) * m == a * m - b * m && (-a) * m == -(a * m)
  {
  }

  lemma Monotone(a: int, b: int, m: int)
    requires a >= b && m >= 0
    ensures a * m >= b * m
  {
    NonNegative(a - b, m);
    Distribute(a, b, m);
  }

  lemma Division(a: int, m: int)
    requires m > 0
    ensures a == (a / m) * m + a % m && 0 <= a % m < m
  {
  }

  lemma ModUnique(a: int, m: int, q: int, r: int)
    requires 0 <= r < m && a == q * m + r
    ensures a % m == r && a / m == q
  {
    Division(a, m);
    Distribute(q, a / m, m);
    Multiple(q - a / m, m);
  }

  lemma ModShift(x: int, k: int, m: int)
    requires m > 0
    ensures (x + k * m) % m == x % m
  {
    Division(x, m);
    Distribute(x / m, k, m);
    ModUnique(x + k * m, m, x / m + k, x % m);
  }

  lemma ModFits(x: int, m: int)
    requires m > 0
    ensures 0 <= x % m < m && (0 <= x < m ==> x % m == x)
  {
    if 0 <= x < m { ModUnique(x, m, 0, x); }
  }

  /** The next number of a residue class. */
  lemma NextOfClass(dim: nat, k: nat, j: nat)
    requires dim > 0
    ensures (k + dim) % dim == k % dim
    ensures j % dim == k % dim && k <= j < k + dim ==> j == k
  {
    ModShift(k, 1, dim);
    if j % dim == k % dim && k <= j < k + dim {
      Division(j, dim);
      Division(k, dim);
      Distribute(j / dim, k / dim, dim);
      Multiple(j / dim - k / dim, dim);
    }
  }

  lemma AtLeastResidue(k: nat, dim: nat)
    requires dim > 0
    ensures k % dim <= k
  {
    Division(k, dim);
    if k < dim { ModFits(k, dim); }
  }

  lemma ModAdd(a: int, b: int, m: int)
    requires m > 0
    ensures (a % m + b % m) % m == (a + b) % m
  {
    Division(a, m);
    Division(b, m);
    Distribute(a / m, b / m, m);
    ModShift(a % m + b % m, a / m + b / m, m);
  }

  lemma ModSubtract(a: int, b: int, m: int)
    requires m > 0
    ensures (a % m - b % m) % m == (a - b) % m
  {
    Division(a, m);
    Division(b, m);
    Distribute(a / m, b / m, m);
    ModShift(a % m - b % m, a / m - b / m, m);
  }

  lemma Regroup(x: int, b: int, m: int)
    ensures (x * m) * b == (x * b) * m
  {
  }

  lemma ModScale(a: int, b: int, m: int)
    requires m > 0
    ensures ((a % m) * b) % m == (a * b) % m
  {
    var x, r := a / m, a % m;
    Division(a, m);
    Distribute(x * m, r, b);
    Regroup(x, b, m);
    ModShift(r * b, x * b, m);
  }

  lemma Commute(a: int, b: int)
    ensures a * b == b * a
  {
  }

  lemma ModMultiply(a: int, b: int, m: int)
    requires m > 0
    ensures ((a % m) * (b % m)) % m == (a * b) % m
  {
    ModScale(a, b % m, m);
    ModScale(b, a, m);
    Commute(b % m, a);
    Commute(b, a);
  }

  lemma ModNegate(a: int, m: int)
    requires m > 0
    ensures (-(a % m)) % m == (-a) % m
  {
    Division(a, m);
    Distribute(a / m, 0, m);
    ModShift(-(a % m), -(a / m), m);
  }

  /** The representative of v modulo s that is nearest zero, the lower of two. */
  function Centred(v: int, s: nat): int
    requires s > 0
  {
    (v + s / 2) % s - s / 2
  }

  lemma CentredFits(v: int, s: nat)
    requires s > 1 && s % 2 == 0
    ensures 0 - s <= 2 * Centred(v, s) < s
    ensures 0 - s <= 2 * v < s ==> Centred(v, s) == v
    ensures Centred(v, s) % s == v % s
  {
    var k := (v + s / 2) / s;
    Division(v + s / 2, s);
    ModFits(v + s / 2, s);
    Distribute(k, 0, s);
    ModShift(v, -k, s);
  }

  lemma CentredOfMod(v: int, s: nat)
    requires s > 1
    ensures Centred(v % s, s) == Centred(v, s)
  {
    var k := v / s;
    Division(v, s);
    Distribute(k, 0, s);
    ModShift(v + s / 2, -k, s);
  }

  // Division towards zero

  function Abs(a: int): nat { if a < 0 then -a else a }

  function Truncated(a: int, b: int): int
    requires b != 0
  {
    if (a < 0) == (b < 0) then Abs(a) / Abs(b) else -(Abs(a) / Abs(b))
  }

  lemma QuotientBound(a: nat, b: nat)
    requires b > 0
    ensures 0 <= a / b <= a && (b > 1 && a > 0 ==> a / b < a)
    ensures 0 <= a - (a / b) * b < b
  {
    var q := a / b;
    Division(a, b);
    Multiple(q, b);
    if q >= 1 {
      NonNegative(q, b - 1);
      Distribute(b, 1, q);
      Commute(q, b);
      if b > 1 { Multiple(b - 1, q); }
    }
  }

  /** A quotient is no larger than its dividend, and negates it only under -1. */
  lemma TruncatedBound(a: int, b: int)
    requires b != 0
    ensures Abs(Truncated(a, b)) <= Abs(a)
    ensures Abs(b) > 1 && a != 0 ==> Abs(Truncated(a, b)) < Abs(a)
  {
    QuotientBound(Abs(a), Abs(b));
  }

  lemma TruncatedByUnit(a: int, b: int)
    requires b == 1 || b == -1
    ensures Truncated(a, b) == a * b
  {
  }

  lemma RemainderBound(a: int, b: int)
    requires b != 0
    ensures var r := a - b * Truncated(a, b);
      Abs(r) < Abs(b) && Abs(r) <= Abs(a) && (a >= 0 ==> r >= 0) && (a <= 0 ==> r <= 0)
  {
    var q := Abs(a) / Abs(b);
    QuotientBound(Abs(a), Abs(b));
    NonNegative(q, Abs(b));
    SignedProduct(b, q);
  }

  lemma SignedProduct(b: int, q: int)
    ensures b * q == (if b < 0 then -(q * Abs(b)) else q * Abs(b)) && b * -q == -(b * q)
  {
  }

  // Bits of infinite two's complement

  datatype BitOp = BitAnd | BitOr | BitXor

  function Bit(op: BitOp, a: int, b: int): int {
    var p, q := a % 2 == 1, b % 2 == 1;
    if (match op case BitAnd => p && q case BitOr => p || q case BitXor => p != q) then 1 else 0
  }

  function Bits(op: BitOp, a: int, b: int): int
    decreases Abs(a) + Abs(b)
  {
    if (a == 0 || a == -1) && (b == 0 || b == -1) then -Bit(op, a, b)
    else 2 * Bits(op, a / 2, b / 2) + Bit(op, a, b)
  }

  /** Bit k of a number in infinite two's complement. */
  predicate BitAt(a: int, k: nat)
    decreases k
  {
    if k == 0 then a % 2 == 1 else BitAt(a / 2, k - 1)
  }

  /** And, or and exclusive or are what they are bit by bit. */
  lemma {:induction false} BitsAre(op: BitOp, a: int, b: int, k: nat)
    ensures BitAt(Bits(op, a, b), k) <==> match op
      case BitAnd => BitAt(a, k) && BitAt(b, k)
      case BitOr => BitAt(a, k) || BitAt(b, k)
      case BitXor => BitAt(a, k) != BitAt(b, k)
    decreases k
  {
    BitsHalve(op, a, b);
    if k > 0 { BitsAre(op, a / 2, b / 2, k - 1); }
  }

  lemma BitsHalve(op: BitOp, a: int, b: int)
    ensures Bits(op, a, b) % 2 == Bit(op, a, b) && Bits(op, a, b) / 2 == Bits(op, a / 2, b / 2)
  {
  }

  /** And bits tell numbers apart. */
  lemma {:induction false} BitsDiffer(a: int, b: int) returns (k: nat)
    requires a != b
    ensures BitAt(a, k) != BitAt(b, k)
    decreases Abs(a) + Abs(b)
  {
    k := 0;
    if a % 2 == b % 2 {
      if (a == 0 || a == -1) && (b == 0 || b == -1) {
        assert false;
      } else {
        var j := BitsDiffer(a / 2, b / 2);
        k := j + 1;
      }
    }
  }

  function Pow2(k: nat): (p: nat)
    ensures p >= 1
  {
    if k == 0 then 1 else 2 * Pow2(k - 1)
  }

  lemma {:induction false} PowSum(a: nat, b: nat)
    ensures Pow2(a + b) == Pow2(a) * Pow2(b)
  {
    if a > 0 {
      PowSum(a - 1, b);
      Regroup(Pow2(a - 1), Pow2(b), 2);
    }
  }

  lemma WordSizes()
    ensures Pow2(32) == 0x1_0000_0000 && Pow2(64) == 0x1_0000_0000_0000_0000
  {
    assert Pow2(4) == 16;
    Double(4, 16);
    Double(8, 256);
    Double(16, 65536);
    Double(32, 0x1_0000_0000);
  }

  lemma Double(k: nat, p: nat)
    requires Pow2(k) == p
    ensures Pow2(k + k) == p * p
  {
    PowSum(k, k);
  }

  /** Bitwise operations stay inside the width of their operands, and keep both unsigned. */
  lemma {:induction false} BitsFit(op: BitOp, a: int, b: int, k: nat)
    requires 0 - Pow2(k) <= a < Pow2(k) && 0 - Pow2(k) <= b < Pow2(k)
    ensures 0 - Pow2(k) <= Bits(op, a, b) < Pow2(k)
    ensures a >= 0 && b >= 0 ==> Bits(op, a, b) >= 0
    decreases k
  {
    if k > 0 { BitsFit(op, a / 2, b / 2, k - 1); }
  }

  /** Clearing bits under a mask of the whole width is clearing them in two's complement. */
  lemma {:induction false} AndMask(a: int, b: int, k: nat)
    requires 0 <= a < Pow2(k) && 0 <= b < Pow2(k)
    ensures Bits(BitAnd, a, Pow2(k) - 1 - b) == Bits(BitAnd, a, -b - 1)
  {
    if k > 0 {
      AndMask(a / 2, b / 2, k - 1);
      assert (Pow2(k) - 1 - b) / 2 == Pow2(k - 1) - 1 - b / 2 && (-b - 1) / 2 == -(b / 2) - 1;
      assert (Pow2(k) - 1 - b) % 2 == (-b - 1) % 2;
    }
  }

  lemma ShiftBound(a: int, k: nat)
    ensures a >= 0 ==> 0 <= a / Pow2(k) <= a
    ensures a < 0 ==> a <= a / Pow2(k) < 0
  {
    FloorBound(a, Pow2(k));
  }

  lemma FloorBound(a: int, p: int)
    requires p > 0
    ensures a >= 0 ==> 0 <= a / p <= a
    ensures a < 0 ==> a <= a / p < 0
  {
    var q := a / p;
    Division(a, p);
    Multiple(q, p);
    if a >= 0 {
      QuotientBound(a, p);
    } else if q >= 0 {
      NonNegative(q, p);
    } else if q < a {
      NonNegative(a - q - 1, p);
      Distribute(a, q + 1, p);
      Distribute(q, 1, p);
      Negative(a, p);
    }
  }

  lemma Negative(a: int, p: int)
    requires a < 0 && p >= 1
    ensures a * p <= a
  {
    NonNegative(-a, p - 1);
    Distribute(p, 1, -a);
  }
}
