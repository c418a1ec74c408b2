/** What emitted expressions compute: Go's wrapping arithmetic survives the translation to C, where
    signed overflow, a zero divisor and a shift as wide as the type have no meaning. */
module ExprEval {
  import opened Basics
  import opened Decimal
  import opened ExprText
  import opened ExprGrammar
  import opened ExprEmit
  import opened TwosComplement

  // Integers of a type

  function Width(ty: Ty): nat { if ty.I64? || ty.U64? then 64 else 32 }

  function Least(ty: Ty): int { if Signed(ty) then -(Size(ty) / 2) else 0 }

  /** The value of type ty that v has after conversion: modulo the size of the type. */
  function Wrap(ty: Ty, v: int): int {
    if ty.Bool? then (if v == 0 then 0 else 1)
    else if Signed(ty) then Centred(v, Size(ty))
    else v % Size(ty)
  }

  lemma SizeIsEven(ty: Ty)
    ensures Size(ty) > 1 && Size(ty) % 2 == 0
  {
  }

  lemma WrapFits(ty: Ty, v: int)
    ensures InRange(ty, Wrap(ty, v)) && (InRange(ty, v) ==> Wrap(ty, v) == v)
    ensures !ty.Bool? ==> Wrap(ty, v) % Size(ty) == v % Size(ty)
  {
    SizeIsEven(ty);
    if Signed(ty) { CentredFits(v, Size(ty)); } else if !ty.Bool? { ModFits(v, Size(ty)); }
  }

  // Go

  datatype GoEnv = GoEnv(vars: string -> int, bufs: string -> seq<int>)

  function Truth(b: bool): int { if b then 1 else 0 }

  function Holds(op: Op, a: int, b: int): bool {
    match op
    case Lss => a < b case Leq => a <= b case Gtr => a > b case Geq => a >= b case Eql => a == b case _ => a != b
  }

  /** A comparison is of the difference. */
  lemma ComparisonsAre(a: int, b: int)
    ensures Holds(Lss, a, b) <==> b - a > 0
    ensures Holds(Leq, a, b) <==> !Holds(Lss, b, a)
    ensures Holds(Gtr, a, b) <==> Holds(Lss, b, a)
    ensures Holds(Geq, a, b) <==> !Holds(Lss, a, b)
    ensures Holds(Eql, a, b) <==> Holds(Leq, a, b) && Holds(Leq, b, a)
    ensures Holds(Neq, a, b) <==> !Holds(Eql, a, b)
  {
  }

  /** a op b in ty, with the wrapping of the Go specification (section "Integer overflow").  A shift
      count and a divisor are in range where the value is used. */
  function GoBinary(op: Op, ty: Ty, a: int, b: int): int {
    match op
    case Add => Wrap(ty, a + b)
    case Sub => Wrap(ty, a - b)
    case Mul => Wrap(ty, a * b)
    case Quo => if b == 0 then 0 else Wrap(ty, Truncated(a, b))
    case Rem => if b == 0 then 0 else Wrap(ty, a - b * Truncated(a, b))
    case Shl => if b < 0 then 0 else Wrap(ty, a * Pow2(b))
    case Shr => if b < 0 then 0 else a / Pow2(b)
    case And => Bits(BitAnd, a, b)
    case Or => Bits(BitOr, a, b)
    case Xor => Bits(BitXor, a, b)
    case AndNot => Bits(BitAnd, a, -b - 1)
    case _ => Truth(Holds(op, a, b))
  }

  function GoUnary(op: Op, ty: Ty, a: int): int {
    match op
    case Sub => Wrap(ty, -a)
    case Xor => Wrap(ty, -a - 1)
    case Not => 1 - a
    case _ => a
  }

  function GoEval(e: Expr, g: GoEnv): int {
    match e
    case Ident(n, _) => g.vars(n)
    case Const(v, _) => v
    case Elem(b, i, _) =>
      var k := GoEval(i, g);
      if 0 <= k < |g.bufs(b)| then g.bufs(b)[k] else 0
    case Binary(op, x, y) =>
      if op.LAnd? then (if GoEval(x, g) == 0 then 0 else GoEval(y, g))
      else if op.LOr? then (if GoEval(x, g) == 0 then GoEval(y, g) else 1)
      else GoBinary(op, TypeOf(x), GoEval(x, g), GoEval(y, g))
    case Unary(op, x) => GoUnary(op, TypeOf(x), GoEval(x, g))
    case Conv(to, x) => Wrap(to, GoEval(x, g))
  }

  /** The operations the contract leaves to the author: an in-range shift count, and a division that
      is neither by zero nor of the least value by -1. */
  predicate SafeBinary(op: Op, ty: Ty, a: int, b: int) {
    if Shifts(op) then 0 <= b < Width(ty)
    else if op.Quo? || op.Rem? then b != 0 && !(Signed(ty) && a == Least(ty) && b == -1)
    else true
  }

  /** Every operation evaluated in e is safe and every subscript is in bounds. */
  predicate Safe(e: Expr, g: GoEnv) {
    match e
    case Ident(_, _) => true
    case Const(_, _) => true
    case Elem(b, i, _) => Safe(i, g) && 0 <= GoEval(i, g) < |g.bufs(b)|
    case Binary(op, x, y) =>
      && Safe(x, g)
      && (if op.LAnd? then GoEval(x, g) != 0 ==> Safe(y, g)
          else if op.LOr? then GoEval(x, g) == 0 ==> Safe(y, g)
          else Safe(y, g) && SafeBinary(op, TypeOf(x), GoEval(x, g), GoEval(y, g)))
    case Unary(_, x) => Safe(x, g)
    case Conv(_, x) => Safe(x, g)
  }

  // C.  A type is named by its width and signedness, so int is I32 and both long and long long are
  // I64.

  datatype Value = Value(ty: Ty, v: int)

  datatype CEnv = CEnv(vars: string -> Value, bufs: string -> (Ty, seq<int>))

  function TypeNamed(ty: CType): Ty {
    match ty
    case IntT => I32 case LongLongT => I64 case UIntT => U32 case ULongLongT => U64
  }

  function Rank(ty: Ty): nat {
    match ty
    case Bool => 0 case I32 => 1 case U32 => 2 case I64 => 3 case U64 => 4
  }

  /** Integral promotion and the usual arithmetic conversions ([conv.prom], [expr.arith.conv]). */
  function Common(a: Ty, b: Ty): Ty {
    if Rank(a) <= 1 && Rank(b) <= 1 then I32 else if Rank(a) >= Rank(b) then a else b
  }

  function Checked(ty: Ty, v: int): Option<Value> {
    if InRange(ty, v) then Some(Value(ty, v)) else None
  }

  /** A result of arithmetic: out of range is undefined when signed, and modular when unsigned. */
  function Result(ty: Ty, v: int): Option<Value> {
    if Signed(ty) then Checked(ty, v) else Some(Value(ty, Wrap(ty, v)))
  }

  /** An integer literal has the first type its suffix allows that holds it. */
  function Literal(n: nat, suffix: string): Option<Value> {
    if suffix == "" then (if InRange(I32, n) then Some(Value(I32, n)) else Checked(I64, n))
    else if suffix == "u" then (if InRange(U32, n) then Some(Value(U32, n)) else Checked(U64, n))
    else if suffix == "ll" then Checked(I64, n)
    else if suffix == "ull" then Checked(U64, n)
    else None
  }

  function CLeaf(w: string, c: CEnv): Option<Value> {
    if w == "true" then Some(Value(Bool, 1))
    else if w == "false" then Some(Value(Bool, 0))
    else if w != "" && IsDigit(w[0]) then Literal(Num(w[..Digits(w)]), w[Digits(w)..])
    else Some(c.vars(w))
  }

  function CUnary(op: Op, x: Value): Option<Value> {
    var ty := Common(x.ty, x.ty);
    match op
    case Sub => Result(ty, -x.v)
    case Add => Some(Value(ty, x.v))
    case Tilde => Some(Value(ty, Wrap(ty, -x.v - 1)))
    case Not => Some(Value(Bool, Truth(x.v == 0)))
    case _ => None
  }

  /** Shifts keep the promoted type of their left operand; a signed left shift is defined where
      nothing is shifted into or past the sign. */
  function CShift(op: Op, x: Value, count: int): Option<Value> {
    var ty := Common(x.ty, x.ty);
    if !(0 <= count < Width(ty)) then None
    else if op.Shr? then Some(Value(ty, x.v / Pow2(count)))
    else if Signed(ty) && x.v < 0 then None
    else Result(ty, x.v * Pow2(count))
  }

  /** Two operands of one type. */
  function CArith(op: Op, ty: Ty, a: int, b: int): Option<Value> {
    match op
    case Add => Result(ty, a + b)
    case Sub => Result(ty, a - b)
    case Mul => Result(ty, a * b)
    case Quo => if b == 0 then None else Result(ty, Truncated(a, b))
    case Rem => if b == 0 || !InRange(ty, Truncated(a, b)) then None else Result(ty, a - b * Truncated(a, b))
    case And => Some(Value(ty, Bits(BitAnd, a, b)))
    case Or => Some(Value(ty, Bits(BitOr, a, b)))
    case Xor => Some(Value(ty, Bits(BitXor, a, b)))
    case _ => if Compares(op) then Some(Value(Bool, Truth(Holds(op, a, b)))) else None
  }

  function CBinary(op: Op, x: Value, y: Value): Option<Value> {
    if Shifts(op) then CShift(op, x, y.v)
    else
      var ty := Common(x.ty, y.ty);
      CArith(op, ty, Wrap(ty, x.v), Wrap(ty, y.v))
  }

  /** The value of an expression, or None where C gives it none. */
  function CEval(t: Tree, c: CEnv): Option<Value> {
    match t
    case Leaf(w) => CLeaf(w, c)
    case Bin(op, l, r) =>
      var x := CEval(l, c);
      if x.None? then None
      else if (op.LAnd? && x.value.v == 0) || (op.LOr? && x.value.v != 0) then Some(Value(Bool, Truth(op.LOr?)))
      else
        var y := CEval(r, c);
        if y.None? then None
        else if op.LAnd? || op.LOr? then Some(Value(Bool, Truth(y.value.v != 0)))
        else CBinary(op, x.value, y.value)
    case Un(op, x) =>
      var v := CEval(x, c);
      if v.None? then None else CUnary(op, v.value)
    case As(ty, x) =>
      var v := CEval(x, c);
      if v.None? then None else Some(Value(TypeNamed(ty), Wrap(TypeNamed(ty), v.value.v)))
    case At(b, i) =>
      var k := CEval(i, c);
      if k.None? || !(0 <= k.value.v < |c.bufs(b).1|) then None else Some(Value(c.bufs(b).0, c.bufs(b).1[k.value.v]))
    case Call(_, _) => None
  }

  // The two sides start from the same values.

  predicate Agree(e: Expr, g: GoEnv, c: CEnv) {
    match e
    case Ident(n, ty) => InRange(ty, g.vars(n)) && c.vars(CName(n)) == Value(ty, g.vars(n))
    case Const(_, _) => true
    case Elem(b, i, ty) =>
      && (forall k :: 0 <= k < |g.bufs(b)| ==> InRange(ty, g.bufs(b)[k]))
      && c.bufs(CName(b)) == (ty, g.bufs(b))
      && Agree(i, g, c)
    case Binary(_, x, y) => Agree(x, g, c) && Agree(y, g, c)
    case Unary(_, x) => Agree(x, g, c)
    case Conv(_, x) => Agree(x, g, c)
  }

  // What C makes of an expression.  The least int32 is written -2147483648, which C gives the type of
  // 2147483648, a wider one, and what is computed from it outside a region keeps that type.

  function ConstType(v: int, ty: Ty): Ty { if ty.I32? && v == Least(ty) then I64 else ty }

  /** The C type of the emitted expression, outside any region. */
  function Held(e: Expr): Ty {
    match e
    case Ident(_, ty) => ty
    case Const(v, ty) => ConstType(v, ty)
    case Elem(_, _, ty) => ty
    case Binary(op, _, _) => if Compares(op) || op.LAnd? || op.LOr? then Bool else OpType(e)
    case Unary(_, x) => if WrapType(e).Some? then TypeOf(e) else Held(x)
    case Conv(to, _) => to
  }

  /** The type C computes an operator in: Go's in a region, and that of the operands elsewhere. */
  function OpType(e: Expr): Ty
    requires e.Binary?
    decreases e, 0
  {
    if WrapType(e).Some? then TypeOf(e)
    else if Shifts(e.op) then Held(e.x)
    else Common(Held(e.x), Held(e.y))
  }

  /** The Go operators, each at the type C computes it in. */
  function ValueC(e: Expr, g: GoEnv): int {
    match e
    case Ident(n, _) => g.vars(n)
    case Const(v, _) => v
    case Elem(b, i, _) =>
      var k := ValueC(i, g);
      if 0 <= k < |g.bufs(b)| then g.bufs(b)[k] else 0
    case Binary(op, x, y) =>
      if op.LAnd? then (if ValueC(x, g) == 0 then 0 else ValueC(y, g))
      else if op.LOr? then (if ValueC(x, g) == 0 then ValueC(y, g) else 1)
      else GoBinary(op, OpType(e), ValueC(x, g), ValueC(y, g))
    case Unary(op, x) => GoUnary(op, Held(e), ValueC(x, g))
    case Conv(to, x) => Wrap(to, ValueC(x, g))
  }

  /** What C leaves undefined, at those types and values. */
  predicate SafeC(e: Expr, g: GoEnv) {
    match e
    case Ident(_, _) => true
    case Const(_, _) => true
    case Elem(b, i, _) => SafeC(i, g) && 0 <= ValueC(i, g) < |g.bufs(b)|
    case Binary(op, x, y) =>
      && SafeC(x, g)
      && (if op.LAnd? then ValueC(x, g) != 0 ==> SafeC(y, g)
          else if op.LOr? then ValueC(x, g) == 0 ==> SafeC(y, g)
          else SafeC(y, g) && SafeBinary(op, OpType(e), ValueC(x, g), ValueC(y, g)))
    case Unary(_, x) => SafeC(x, g)
    case Conv(_, x) => SafeC(x, g)
  }

  /** An operation is evaluated that Go's contract leaves out and that C computes in a wider type. */
  predicate Slips(e: Expr, g: GoEnv) {
    match e
    case Ident(_, _) => false
    case Const(_, _) => false
    case Elem(_, i, _) => Slips(i, g)
    case Binary(op, x, y) =>
      || Slips(x, g)
      || (if op.LAnd? then GoEval(x, g) != 0 && Slips(y, g)
          else if op.LOr? then GoEval(x, g) == 0 && Slips(y, g)
          else Slips(y, g) || (OpType(e) != TypeOf(x) && !SafeBinary(op, TypeOf(x), GoEval(x, g), GoEval(y, g))))
    case Unary(_, x) => Slips(x, g)
    case Conv(_, x) => Slips(x, g)
  }

  /** No division, remainder or right shift is computed in a wider type. */
  predicate Tight(e: Expr) {
    match e
    case Ident(_, _) => true
    case Const(_, _) => true
    case Elem(_, i, _) => Tight(i)
    case Binary(op, x, y) => Tight(x) && Tight(y) && (op.Quo? || op.Rem? || op.Shr? ==> OpType(e) == TypeOf(x))
    case Unary(_, x) => Tight(x)
    case Conv(_, x) => Tight(x)
  }

  /** No constant is the least int32. */
  predicate Plain(e: Expr) {
    match e
    case Ident(_, _) => true
    case Const(v, ty) => !(ty.I32? && v == Least(ty))
    case Elem(_, i, _) => Plain(i)
    case Binary(_, x, y) => Plain(x) && Plain(y)
    case Unary(_, x) => Plain(x)
    case Conv(_, x) => Plain(x)
  }

  // Single operations

  /** A C type that holds a Go value of type ty: its own, or the one a literal was too big for. */
  predicate Holder(ty: Ty, held: Ty) { held == ty || (ty.I32? && held.I64?) }

  lemma PowOfWidth(ty: Ty)
    requires !ty.Bool?
    ensures Pow2(Width(ty)) == Size(ty) && 2 * Pow2(Width(ty) - 1) == Size(ty)
  {
    WordSizes();
  }

  lemma BitsInRange(op: BitOp, ty: Ty, a: int, b: int)
    requires !ty.Bool? && InRange(ty, a) && (InRange(ty, b) || (!Signed(ty) && InRange(ty, -b - 1) && op.BitAnd?))
    ensures InRange(ty, Bits(op, a, b))
  {
    PowOfWidth(ty);
    if Signed(ty) {
      BitsFit(op, a, b, Width(ty) - 1);
    } else if InRange(ty, b) {
      BitsFit(op, a, b, Width(ty));
    } else {
      AndMask(a, -b - 1, Width(ty));
      BitsFit(op, a, Size(ty) + b, Width(ty));
    }
  }

  lemma QuotientFits(ty: Ty, a: int, b: int)
    requires !ty.Bool? && InRange(ty, a) && InRange(ty, b) && b != 0
    ensures InRange(ty, Truncated(a, b)) <==> SafeBinary(Quo, ty, a, b)
    ensures InRange(ty, a - b * Truncated(a, b))
  {
    TruncatedBound(a, b);
    RemainderBound(a, b);
    if Abs(b) == 1 { TruncatedByUnit(a, b); }
  }

  lemma GoBinaryFits(op: Op, ty: Ty, a: int, b: int)
    requires !ty.Bool? && BinPrec(Go, op) > 0 && !op.LAnd? && !op.LOr?
    requires InRange(ty, a) && (Shifts(op) || InRange(ty, b)) && SafeBinary(op, ty, a, b)
    ensures InRange(if Compares(op) then Bool else ty, GoBinary(op, ty, a, b))
  {
    if op.Quo? || op.Rem? || op.Shl? || op.Shr? { PartialFits(op, ty, a, b); } else { TotalFits(op, ty, a, b); }
  }

  lemma PartialFits(op: Op, ty: Ty, a: int, b: int)
    requires !ty.Bool? && (op.Quo? || op.Rem? || op.Shl? || op.Shr?)
    requires InRange(ty, a) && SafeBinary(op, ty, a, b)
    ensures InRange(ty, GoBinary(op, ty, a, b))
  {
    match op
    case Quo => WrapFits(ty, Truncated(a, b));
    case Rem => WrapFits(ty, a - b * Truncated(a, b));
    case Shl => WrapFits(ty, a * Pow2(b));
    case Shr => ShiftBound(a, b);
  }

  lemma TotalFits(op: Op, ty: Ty, a: int, b: int)
    requires !ty.Bool? && InRange(ty, a) && InRange(ty, b)
    requires BinPrec(Go, op) > 0 && !op.LAnd? && !op.LOr? && !op.Quo? && !op.Rem? && !op.Shl? && !op.Shr?
    ensures InRange(if Compares(op) then Bool else ty, GoBinary(op, ty, a, b))
  {
    if op.Add? || op.Sub? || op.Mul? {
      TermFits(op, ty, a, b);
    } else if op.And? || op.Or? || op.Xor? || op.AndNot? {
      BitsGoFit(op, ty, a, b);
    }
  }

  lemma BitsGoFit(op: Op, ty: Ty, a: int, b: int)
    requires !ty.Bool? && InRange(ty, a) && InRange(ty, b) && (op.And? || op.Or? || op.Xor? || op.AndNot?)
    ensures InRange(ty, GoBinary(op, ty, a, b))
  {
    if op.AndNot? {
      BitsInRange(BitAnd, ty, a, -b - 1);
    } else {
      BitsInRange(if op.And? then BitAnd else if op.Or? then BitOr else BitXor, ty, a, b);
    }
  }

  lemma TermFits(op: Op, t: Ty, a: int, b: int)
    requires (op.Add? || op.Sub? || op.Mul? || op.Shl?) && !t.Bool? && SafeBinary(op, t, a, b)
    ensures InRange(t, GoBinary(op, t, a, b))
  {
    if op.Add? { WrapFits(t, a + b); }
    if op.Sub? { WrapFits(t, a - b); }
    if op.Mul? { WrapFits(t, a * b); }
    if op.Shl? { WrapFits(t, a * Pow2(b)); }
  }

  lemma UnaryFits(op: Op, t: Ty, a: int)
    requires InRange(t, a) && (op.Not? ==> t.Bool?) && (t.Bool? ==> op.Not? || op.Add?)
    ensures InRange(t, GoUnary(op, t, a))
  {
    if !t.Bool? {
      WrapFits(t, -a);
      WrapFits(t, -a - 1);
    }
  }

  /** Where no signed arithmetic can overflow, C's operator is Go's; and C has no value exactly where
      Go's operation is unsafe. */
  predicate SameOperation(op: Op, ty: Ty, x: Value, y: Value, o: Option<Value>) {
    && (SafeBinary(op, ty, x.v, y.v) ==>
        o.Some? && o.value.v == GoBinary(op, ty, x.v, y.v) && Holder(if Compares(op) then Bool else ty, o.value.ty))
    && (x.ty == ty && (Shifts(op) || y.ty == ty) ==>
        if SafeBinary(op, ty, x.v, y.v) then o.value.ty == (if Compares(op) then Bool else ty) else o == None)
  }

  predicate Operands(op: Op, ty: Ty, x: Value, y: Value) {
    && BinPrec(Go, op) > 0 && !op.LAnd? && !op.LOr?
    && Holder(ty, x.ty) && InRange(ty, x.v)
    && (Shifts(op) || (Holder(ty, y.ty) && InRange(ty, y.v)))
  }

  lemma CommonHolder(ty: Ty, x: Value, y: Value)
    requires !ty.Bool? && Holder(ty, x.ty) && Holder(ty, y.ty) && InRange(ty, x.v) && InRange(ty, y.v)
    ensures var t := Common(x.ty, y.ty);
      Holder(ty, t) && (x.ty == ty && y.ty == ty ==> t == ty) && Wrap(t, x.v) == x.v && Wrap(t, y.v) == y.v
      && InRange(t, x.v) && InRange(t, y.v)
  {
    WrapFits(Common(x.ty, y.ty), x.v);
    WrapFits(Common(x.ty, y.ty), y.v);
  }

  lemma QuotientOutside(ty: Ty, x: Value, y: Value)
    requires !ty.Bool? && Operands(Quo, ty, x, y)
    ensures SameOperation(Quo, ty, x, y, CBinary(Quo, x, y))
  {
    CommonHolder(ty, x, y);
    if y.v != 0 {
      QuotientFits(ty, x.v, y.v);
      var q := Truncated(x.v, y.v);
      Delivered(ty, Common(x.ty, y.ty), q, SafeBinary(Quo, ty, x.v, y.v));
    }
  }

  lemma RemainderOutside(ty: Ty, x: Value, y: Value)
    requires !ty.Bool? && Operands(Rem, ty, x, y)
    ensures SameOperation(Rem, ty, x, y, CBinary(Rem, x, y))
  {
    CommonHolder(ty, x, y);
    if y.v != 0 {
      QuotientFits(ty, x.v, y.v);
      Delivered(ty, Common(x.ty, y.ty), Truncated(x.v, y.v), SafeBinary(Rem, ty, x.v, y.v));
      Delivered(ty, Common(x.ty, y.ty), x.v - y.v * Truncated(x.v, y.v), true);
    }
  }

  /** A result in the range of its Go type is delivered by any holder of the type. */
  lemma Delivered(ty: Ty, t: Ty, v: int, fits: bool)
    requires !ty.Bool? && Holder(ty, t) && fits == InRange(ty, v)
    ensures fits ==> InRange(t, v) && Result(t, v) == Some(Value(t, v)) && Wrap(ty, v) == v
    ensures !fits && Signed(ty) && t == ty ==> Result(t, v) == None
  {
    WrapFits(ty, v);
    WrapFits(t, v);
  }

  lemma ShiftOutside(op: Op, ty: Ty, x: Value, y: Value)
    requires Shifts(op) && !ty.Bool? && Operands(op, ty, x, y) && (op.Shl? ==> !Signed(ty))
    ensures SameOperation(op, ty, x, y, CBinary(op, x, y))
  {
  }

  lemma BinaryOutside(op: Op, ty: Ty, x: Value, y: Value)
    requires !ty.Bool? && Operands(op, ty, x, y) && !op.AndNot?
    requires op.Add? || op.Sub? || op.Mul? || op.Shl? ==> !Signed(ty)
    ensures SameOperation(op, ty, x, y, CBinary(op, x, y))
  {
    if Shifts(op) {
      ShiftOutside(op, ty, x, y);
    } else if op.Quo? {
      QuotientOutside(ty, x, y);
    } else if op.Rem? {
      RemainderOutside(ty, x, y);
    } else {
      CommonHolder(ty, x, y);
    }
  }

  lemma Promotes(ty: Ty, v: int)
    requires !ty.Bool? && InRange(Bool, v)
    ensures Wrap(ty, v) == v
  {
    WrapFits(ty, v);
  }

  lemma CompareBools(op: Op, x: Value, y: Value)
    requires (op.Eql? || op.Neq?) && x.ty.Bool? && y.ty.Bool? && InRange(Bool, x.v) && InRange(Bool, y.v)
    ensures CBinary(op, x, y) == Some(Value(Bool, Truth(Holds(op, x.v, y.v))))
  {
    Promotes(Common(x.ty, y.ty), x.v);
    Promotes(Common(x.ty, y.ty), y.v);
  }

  lemma AndNotOutside(ty: Ty, x: Value, y: Value)
    requires !ty.Bool? && Operands(AndNot, ty, x, y)
    ensures CUnary(Tilde, y).Some? && SameOperation(AndNot, ty, x, y, CBinary(And, x, CUnary(Tilde, y).value))
  {
    if Signed(ty) { AndNotSigned(ty, x, y); } else { AndNotUnsigned(ty, x, y); }
  }

  lemma ComplementSigned(ty: Ty, y: Value)
    requires Signed(ty) && Holder(ty, y.ty) && InRange(ty, y.v)
    ensures CUnary(Tilde, y) == Some(Value(y.ty, -y.v - 1)) && InRange(ty, -y.v - 1)
  {
    var n := -y.v - 1;
    assert InRange(ty, n);
    Delivered(ty, y.ty, n, true);
    WrapFits(y.ty, n);
  }

  lemma AndNotSigned(ty: Ty, x: Value, y: Value)
    requires Signed(ty) && Operands(AndNot, ty, x, y)
    ensures CUnary(Tilde, y).Some? && SameOperation(AndNot, ty, x, y, CBinary(And, x, CUnary(Tilde, y).value))
  {
    ComplementSigned(ty, y);
    AndOutside(ty, x, Value(y.ty, -y.v - 1));
  }

  lemma AndOutside(ty: Ty, x: Value, n: Value)
    requires !ty.Bool? && Holder(ty, x.ty) && Holder(ty, n.ty) && InRange(ty, x.v) && InRange(ty, n.v)
    ensures CBinary(And, x, n) == Some(Value(Common(x.ty, n.ty), Bits(BitAnd, x.v, n.v))) && Holder(ty, Common(x.ty, n.ty))
  {
    CommonHolder(ty, x, n);
  }

  lemma ComplementUnsigned(ty: Ty, v: int)
    requires !Signed(ty) && !ty.Bool? && InRange(ty, v)
    ensures CUnary(Tilde, Value(ty, v)) == Some(Value(ty, Size(ty) - 1 - v)) && InRange(ty, Size(ty) - 1 - v)
  {
    ModShift(-v - 1, 1, Size(ty));
    ModFits(Size(ty) - 1 - v, Size(ty));
  }

  lemma AndNotUnsigned(ty: Ty, x: Value, y: Value)
    requires !Signed(ty) && !ty.Bool? && Operands(AndNot, ty, x, y)
    ensures CUnary(Tilde, y).Some? && SameOperation(AndNot, ty, x, y, CBinary(And, x, CUnary(Tilde, y).value))
  {
    var n := Value(ty, Size(ty) - 1 - y.v);
    ComplementUnsigned(ty, y.v);
    CommonHolder(ty, x, n);
    PowOfWidth(ty);
    AndMask(x.v, y.v, Width(ty));
  }

  // Regions

  function UnsignedOf(ty: Ty): Ty { if ty.I64? then U64 else U32 }

  /** v as the open region of signed type ty carries it. */
  function Carried(ty: Ty, v: int): Value { Value(UnsignedOf(ty), v % Size(ty)) }

  lemma Closes(ty: Ty, v: int)
    requires Signed(ty)
    ensures Wrap(ty, Carried(ty, v).v) == Wrap(ty, v)
  {
    CentredOfMod(v, Size(ty));
  }

  lemma Enters(ty: Ty, held: Ty, v: int)
    requires Signed(ty) && Holder(ty, held)
    ensures Value(UnsignedOf(ty), Wrap(UnsignedOf(ty), v)) == Carried(ty, v)
  {
  }

  lemma SameResidue(ty: Ty, exact: int, carried: int)
    requires Signed(ty) && carried % Size(ty) == exact % Size(ty)
    ensures Result(UnsignedOf(ty), carried) == Some(Carried(ty, Wrap(ty, exact)))
  {
    WrapFits(ty, exact);
  }

  lemma CarriedPair(op: Op, ty: Ty, a: int, b: int)
    requires Signed(ty) && (op.Add? || op.Sub? || op.Mul?)
    ensures CBinary(op, Carried(ty, a), Carried(ty, b)) == CArith(op, UnsignedOf(ty), a % Size(ty), b % Size(ty))
  {
    ModFits(a, Size(ty));
    ModFits(b, Size(ty));
    WrapFits(UnsignedOf(ty), a % Size(ty));
    WrapFits(UnsignedOf(ty), b % Size(ty));
  }

  /** Inside a region the operator computes Go's result modulo the size of the type. */
  lemma TermInside(op: Op, ty: Ty, a: int, b: int)
    requires Signed(ty) && (op.Add? || op.Sub? || op.Mul?)
    ensures CBinary(op, Carried(ty, a), Carried(ty, b)) == Some(Carried(ty, GoBinary(op, ty, a, b)))
  {
    CarriedPair(op, ty, a, b);
    match op {
      case Add => SumInside(ty, a, b);
      case Sub => DifferenceInside(ty, a, b);
      case Mul => ProductInside(ty, a, b);
    }
  }

  lemma SumInside(ty: Ty, a: int, b: int)
    requires Signed(ty)
    ensures CArith(Add, UnsignedOf(ty), a % Size(ty), b % Size(ty)) == Some(Carried(ty, GoBinary(Add, ty, a, b)))
  {
    ModAdd(a, b, Size(ty));
    SameResidue(ty, a + b, a % Size(ty) + b % Size(ty));
  }

  lemma DifferenceInside(ty: Ty, a: int, b: int)
    requires Signed(ty)
    ensures CArith(Sub, UnsignedOf(ty), a % Size(ty), b % Size(ty)) == Some(Carried(ty, GoBinary(Sub, ty, a, b)))
  {
    ModSubtract(a, b, Size(ty));
    SameResidue(ty, a - b, a % Size(ty) - b % Size(ty));
  }

  lemma ProductInside(ty: Ty, a: int, b: int)
    requires Signed(ty)
    ensures CArith(Mul, UnsignedOf(ty), a % Size(ty), b % Size(ty)) == Some(Carried(ty, GoBinary(Mul, ty, a, b)))
  {
    ModMultiply(a, b, Size(ty));
    SameResidue(ty, a * b, (a % Size(ty)) * (b % Size(ty)));
  }

  lemma ShiftInside(ty: Ty, a: int, count: Value)
    requires Signed(ty)
    ensures CBinary(Shl, Carried(ty, a), count) ==
      if SafeBinary(Shl, ty, a, count.v) then Some(Carried(ty, GoBinary(Shl, ty, a, count.v))) else None
  {
    if 0 <= count.v < Width(ty) {
      ModScale(a, Pow2(count.v), Size(ty));
      SameResidue(ty, a * Pow2(count.v), (a % Size(ty)) * Pow2(count.v));
    }
  }

  lemma NegateInside(ty: Ty, a: int)
    requires Signed(ty)
    ensures CUnary(Sub, Carried(ty, a)) == Some(Carried(ty, GoUnary(Sub, ty, a)))
  {
    ModNegate(a, Size(ty));
    SameResidue(ty, -a, -(a % Size(ty)));
  }

  // Leaves

  lemma LiteralValue(n: nat, suffix: string, c: CEnv)
    requires suffix == "" || suffix == "u" || suffix == "ll" || suffix == "ull"
    ensures CLeaf(Dec(n) + suffix, c) == Literal(n, suffix)
  {
    var w := Dec(n) + suffix;
    LiteralIsWord(n, suffix);
    DigitsOf(Dec(n), suffix);
    NumDec(n);
    assert w[..|Dec(n)|] == Dec(n) && w[|Dec(n)|..] == suffix;
    assert w[0] != 't' && w[0] != 'f';
    assert "true"[0] == 't' && "false"[0] == 'f';
  }

  lemma NameValue(n: string, c: CEnv)
    requires IsName(n)
    ensures CLeaf(CName(n), c) == Some(c.vars(CName(n)))
  {
    CNameIsName(n);
  }

  lemma ConstantValue(v: int, ty: Ty, c: CEnv)
    requires InRange(ty, v)
    ensures CEval(TreeOf(ConstDoc(v, ty)), c) == Some(Value(ConstType(v, ty), v))
  {
    if ty.Bool? {
      BoolValue(v == 0, c);
    } else if v == MIN64 {
      LeastValue(MAX64, c);
    } else {
      NumberValue(v, ty, c);
    }
  }

  lemma NumberValue(v: int, ty: Ty, c: CEnv)
    requires InRange(ty, v) && !ty.Bool? && v != MIN64
    ensures CEval(TreeOf(ConstDoc(v, ty)), c) == Some(Value(ConstType(v, ty), v))
  {
    if v < 0 { NegativeNumber(v, -v, ty, c); } else { PositiveNumber(v, ty, c); }
  }

  lemma NegativeNumber(v: int, n: nat, ty: Ty, c: CEnv)
    requires InRange(ty, v) && !ty.Bool? && v != MIN64 && n == -v > 0
    ensures CEval(TreeOf(ConstDoc(v, ty)), c) == Some(Value(ConstType(v, ty), v))
  {
    NegativeValue(n, ty, c);
    assert ConstDoc(v, ty) == Prefix(Sub, Word(Dec(n) + IntSuffix(ty)));
  }

  lemma PositiveNumber(v: nat, ty: Ty, c: CEnv)
    requires InRange(ty, v) && !ty.Bool?
    ensures CEval(TreeOf(ConstDoc(v, ty)), c) == Some(Value(ConstType(v, ty), v))
  {
    PositiveValue(v, ty, c);
    assert ConstDoc(v, ty) == Word(Dec(v) + IntSuffix(ty));
    assert TreeOf(Word(Dec(v) + IntSuffix(ty))) == Leaf(Dec(v) + IntSuffix(ty));
  }

  lemma PositiveValue(n: int, ty: Ty, c: CEnv)
    requires !ty.Bool? && n >= 0 && InRange(ty, n)
    ensures CLeaf(Dec(n) + IntSuffix(ty), c) == Some(Value(ty, n))
  {
    LiteralValue(n, IntSuffix(ty), c);
  }

  lemma BoolValue(zero: bool, c: CEnv)
    ensures CLeaf(if zero then "false" else "true", c) == Some(Value(Bool, Truth(!zero)))
  {
    assert "true" != "false";
  }

  lemma NegativeValue(n: int, ty: Ty, c: CEnv)
    requires !ty.Bool? && n > 0 && InRange(ty, -n) && n <= MAX64
    ensures CEval(TreeOf(Prefix(Sub, Word(Dec(n) + IntSuffix(ty)))), c) ==
      Some(Value(ConstType(-n, ty), -n))
  {
    LiteralValue(n, IntSuffix(ty), c);
    NegatedLiteral(Dec(n) + IntSuffix(ty), c);
    LiteralNegated(n, ty);
  }

  lemma LiteralNegated(n: int, ty: Ty)
    requires Signed(ty) && n > 0 && InRange(ty, -n) && n <= MAX64
    ensures var l := Literal(n, IntSuffix(ty));
      l.Some? && CUnary(Sub, l.value) == Some(Value(ConstType(-n, ty), -n))
  {
  }

  lemma NegatedLiteral(w: string, c: CEnv)
    requires CLeaf(w, c).Some?
    ensures CEval(TreeOf(Prefix(Sub, Word(w))), c) == CUnary(Sub, CLeaf(w, c).value)
  {
    assert CEval(TreeOf(Word(w)), c) == CLeaf(w, c);
  }

  lemma LeastValue(n: int, c: CEnv)
    requires 0 <= n && InRange(I64, n)
    ensures CEval(TreeOf(LeastDoc(Dec(n) + "ll")), c) == Checked(I64, -n - 1)
  {
    LeastOperands(n, Dec(n) + "ll", "1", c);
    LeastTree(Prefix(Sub, Word(Dec(n) + "ll")), "1", Value(I64, -n), Value(I32, 1), c);
    LeastDifference(Value(I64, -n), Value(I32, 1));
  }

  lemma LeastOperands(n: int, w: string, one: string, c: CEnv)
    requires 0 <= n && InRange(I64, n) && w == Dec(n) + "ll" && one == "1"
    ensures CEval(TreeOf(Prefix(Sub, Word(w))), c) == Some(Value(I64, -n)) && CLeaf(one, c) == Some(Value(I32, 1))
  {
    LiteralValue(n, "ll", c);
    LiteralValue(1, "", c);
    assert Dec(1) + "" == "1";
    NegatedLiteral(w, c);
  }

  lemma LeastTree(d: Doc, one: string, x: Value, y: Value, c: CEnv)
    requires CEval(TreeOf(d), c) == Some(x) && CLeaf(one, c) == Some(y)
    ensures CEval(TreeOf(Paren(Infix(Sub, d, Word(one)))), c) == CBinary(Sub, x, y)
  {
    assert TreeOf(Infix(Sub, d, Word(one))) == Bin(Sub, TreeOf(d), Leaf(one));
    assert CEval(Leaf(one), c) == CLeaf(one, c);
  }

  lemma LeastDifference(x: Value, y: Value)
    requires x.ty.I64? && y.ty.I32? && InRange(x.ty, x.v) && y.v == 1
    ensures CBinary(Sub, x, y) == Checked(x.ty, x.v - 1)
  {
    WrapFits(x.ty, x.v);
    Promotes(x.ty, y.v);
  }

  lemma RegionConstant(v: int, ty: Ty, c: CEnv)
    requires Signed(ty) && 0 <= v && InRange(ty, v)
    ensures CLeaf(Dec(v) + RegionSuffix(ty), c) == Some(Carried(ty, v))
  {
    LiteralValue(v, RegionSuffix(ty), c);
    ModFits(v, Size(ty));
  }

  // Whole expressions

  /** What a well-typed expression may be asked to compute. */
  predicate Ready(e: Expr, g: GoEnv, c: CEnv) { Typed(e) && Named(e) && Agree(e, g, c) }

  lemma {:induction false} GoFits(e: Expr, g: GoEnv, c: CEnv)
    requires Ready(e, g, c) && Safe(e, g)
    ensures InRange(TypeOf(e), GoEval(e, g))
  {
    match e
    case Ident(_, _) =>
    case Const(_, _) =>
    case Elem(_, _, _) =>
    case Binary(op, x, y) =>
      GoFits(x, g, c);
      if (op.LAnd? || op.LOr?) && (GoEval(x, g) == 0) == op.LAnd? {
      } else {
        GoFits(y, g, c);
        if !TypeOf(x).Bool? { GoBinaryFits(op, TypeOf(x), GoEval(x, g), GoEval(y, g)); }
      }
    case Unary(op, x) =>
      GoFits(x, g, c);
      UnaryFits(op, TypeOf(x), GoEval(x, g));
    case Conv(to, x) => WrapFits(to, GoEval(x, g));
  }

  lemma {:induction false} HeldHolds(e: Expr)
    requires Typed(e)
    ensures Holder(TypeOf(e), Held(e))
    ensures e.Binary? && !TypeOf(e.x).Bool? ==> Holder(TypeOf(e.x), OpType(e)) && !OpType(e).Bool?
    decreases e
  {
    match e
    case Binary(_, x, y) => HeldHolds(x); HeldHolds(y);
    case Unary(_, x) => HeldHolds(x);
    case _ =>
  }

  /** The value C computes is one of the type it has there. */
  lemma {:induction false} ValueFits(e: Expr, g: GoEnv, c: CEnv)
    requires Ready(e, g, c) && SafeC(e, g)
    ensures InRange(Held(e), ValueC(e, g))
  {
    HeldHolds(e);
    match e
    case Ident(_, _) =>
    case Const(_, _) =>
    case Elem(_, _, _) =>
    case Binary(op, x, y) =>
      ValueFits(x, g, c);
      if !((op.LAnd? || op.LOr?) && (ValueC(x, g) == 0) == op.LAnd?) {
        ValueFits(y, g, c);
        HeldHolds(x);
        HeldHolds(y);
        if !TypeOf(x).Bool? && !op.LAnd? && !op.LOr? { OperatorFits(e, ValueC(x, g), ValueC(y, g)); }
      }
    case Unary(op, x) =>
      ValueFits(x, g, c);
      SignFits(e, ValueC(x, g));
    case Conv(to, x) => WrapFits(to, ValueC(x, g));
  }

  lemma SignFits(e: Expr, v: int)
    requires Typed(e) && e.Unary? && InRange(Held(e.x), v)
    ensures InRange(Held(e), GoUnary(e.op, Held(e), v))
  {
    HeldHolds(e.x);
    if WrapType(e).Some? {
      WrapFits(Held(e), -v);
    } else {
      UnaryFits(e.op, Held(e), v);
    }
  }

  /** Both operands are values of the type C computes in. */
  lemma OperandsFit(e: Expr, a: int, b: int)
    requires Typed(e) && e.Binary? && !TypeOf(e.x).Bool? && WrapType(e).None? && !e.op.LAnd? && !e.op.LOr?
    requires InRange(Held(e.x), a) && InRange(Held(e.y), b)
    ensures !OpType(e).Bool? && !Held(e.x).Bool? && !Held(e.y).Bool? && InRange(OpType(e), a) && (Shifts(e.op) || InRange(OpType(e), b))
    ensures e.op.Add? || e.op.Sub? || e.op.Mul? || e.op.Shl? ==> !Signed(OpType(e))
    ensures BinPrec(Go, e.op) > 0
  {
    HeldHolds(e.x);
    HeldHolds(e.y);
  }

  lemma OperatorFits(e: Expr, a: int, b: int)
    requires Typed(e) && e.Binary? && !TypeOf(e.x).Bool? && !e.op.LAnd? && !e.op.LOr?
    requires InRange(Held(e.x), a) && InRange(Held(e.y), b) && SafeBinary(e.op, OpType(e), a, b)
    ensures InRange(Held(e), GoBinary(e.op, OpType(e), a, b))
  {
    if WrapType(e).Some? {
      TermFits(e.op, OpType(e), a, b);
    } else {
      OperandsFit(e, a, b);
      GoBinaryFits(e.op, OpType(e), a, b);
    }
  }

  /** o is what C makes of e: a value exactly where it is safe there, and which. */
  predicate Right(e: Expr, g: GoEnv, o: Option<Value>) {
    o == if SafeC(e, g) then Some(Value(Held(e), ValueC(e, g))) else None
  }

  /** The same inside a region, where the value is carried unsigned. */
  predicate RightInside(e: Expr, g: GoEnv, o: Option<Value>) {
    o == if SafeC(e, g) then Some(Carried(TypeOf(e), ValueC(e, g))) else None
  }

  lemma InfixTree(op: Op, x: Expr, y: Expr, r: Option<Ty>)
    ensures var a, b := TreeOf(DocOf(x, r)), TreeOf(DocOf(y, if Shifts(op) then None else r));
      TreeOf(PlainDoc(Binary(op, x, y), r)) == if op.AndNot? then Bin(And, a, Un(Tilde, b)) else Bin(op, a, b)
  {
    var dx, dy := DocOf(x, r), DocOf(y, if Shifts(op) then None else r);
    if op.AndNot? { MaskTree(dx, dy); } else { OperandsTree(op, dx, dy, BinPrec(C, op)); }
  }

  lemma MaskTree(dx: Doc, dy: Doc)
    ensures TreeOf(Infix(And, AtLeast(C, dx, 8), Prefix(Tilde, AtLeast(C, dy, PREFIX)))) == Bin(And, TreeOf(dx), Un(Tilde, TreeOf(dy)))
  {
    BareAtLeast(dx, 8);
    BareAtLeast(dy, PREFIX);
    assert TreeOf(Prefix(Tilde, AtLeast(C, dy, PREFIX))) == Un(Tilde, TreeOf(dy));
  }

  lemma OperandsTree(op: Op, dx: Doc, dy: Doc, p: nat)
    ensures TreeOf(Infix(op, AtLeast(C, dx, p), AtLeast(C, dy, p + 1))) == Bin(op, TreeOf(dx), TreeOf(dy))
  {
    BareAtLeast(dx, p);
    BareAtLeast(dy, p + 1);
  }

  lemma EvalLogical(e: Expr, g: GoEnv, c: CEnv, a: Tree, b: Tree)
    requires Ready(e, g, c) && e.Binary? && (e.op.LAnd? || e.op.LOr?)
    requires Right(e.x, g, CEval(a, c)) && Right(e.y, g, CEval(b, c))
    ensures Right(e, g, CEval(Bin(e.op, a, b), c))
  {
    if SafeC(e.x, g) {
      ValueFits(e.x, g, c);
      HeldHolds(e.x);
      HeldHolds(e.y);
      if SafeC(e.y, g) { ValueFits(e.y, g, c); }
    }
  }

  /** An operator on numbers, computed in the type of both operands. */
  lemma NumbersAt(op: Op, t: Ty, x: Value, y: Value)
    requires !t.Bool? && !x.ty.Bool? && !op.AndNot? && BinPrec(Go, op) > 0 && !op.LAnd? && !op.LOr?
    requires t == (if Shifts(op) then x.ty else Common(x.ty, y.ty))
    requires InRange(t, x.v) && (Shifts(op) || InRange(t, y.v))
    requires op.Add? || op.Sub? || op.Mul? || op.Shl? ==> !Signed(t)
    ensures CBinary(op, x, y) == if SafeBinary(op, t, x.v, y.v)
      then Some(Value(if Compares(op) then Bool else t, GoBinary(op, t, x.v, y.v))) else None
  {
    var u, v := Value(t, x.v), if Shifts(op) then y else Value(t, y.v);
    assert CBinary(op, x, y) == CBinary(op, u, v);
    BinaryOutside(op, t, u, v);
  }

  lemma EvalNumbers(e: Expr, g: GoEnv, c: CEnv, a: Tree, b: Tree)
    requires Ready(e, g, c) && e.Binary? && WrapType(e).None? && !TypeOf(e.x).Bool? && !e.op.AndNot? && !e.op.LAnd? && !e.op.LOr?
    requires SafeC(e.x, g) && SafeC(e.y, g) && Right(e.x, g, CEval(a, c)) && Right(e.y, g, CEval(b, c))
    ensures Right(e, g, CEval(Bin(e.op, a, b), c))
  {
    var x, y := Value(Held(e.x), ValueC(e.x, g)), Value(Held(e.y), ValueC(e.y, g));
    ValueFits(e.x, g, c);
    ValueFits(e.y, g, c);
    OperandsFit(e, x.v, y.v);
    NumbersAt(e.op, OpType(e), x, y);
    BinTree(e.op, a, b, c, x, y);
  }

  lemma BinTree(op: Op, a: Tree, b: Tree, c: CEnv, x: Value, y: Value)
    requires CEval(a, c) == Some(x) && CEval(b, c) == Some(y) && !op.LAnd? && !op.LOr?
    ensures CEval(Bin(op, a, b), c) == CBinary(op, x, y)
  {
  }

  lemma UnTree(op: Op, a: Tree, c: CEnv, x: Value)
    requires CEval(a, c) == Some(x)
    ensures CEval(Un(op, a), c) == CUnary(op, x)
  {
  }

  /** a & ~b, where b may be held in a narrower type than a. */
  lemma AndNotAt(t: Ty, x: Value, y: Value)
    requires !x.ty.Bool? && !y.ty.Bool? && t == Common(x.ty, y.ty) && InRange(x.ty, x.v) && InRange(y.ty, y.v)
    requires x.ty == y.ty || (Signed(x.ty) && Signed(y.ty))
    ensures CUnary(Tilde, y).Some? && CBinary(And, x, CUnary(Tilde, y).value) == Some(Value(t, GoBinary(AndNot, t, x.v, y.v)))
  {
    if Signed(x.ty) { AndNotWider(t, x, y); } else { AndNotOutside(t, x, y); }
  }

  lemma AndNotWider(t: Ty, x: Value, y: Value)
    requires Signed(x.ty) && Signed(y.ty) && t == Common(x.ty, y.ty) && InRange(x.ty, x.v) && InRange(y.ty, y.v)
    ensures CUnary(Tilde, y) == Some(Value(y.ty, -y.v - 1))
    ensures CBinary(And, x, Value(y.ty, -y.v - 1)) == Some(Value(t, GoBinary(AndNot, t, x.v, y.v)))
  {
    ComplementSigned(y.ty, y);
    AndAt(t, x, Value(y.ty, -y.v - 1));
  }

  lemma AndAt(t: Ty, x: Value, n: Value)
    requires !t.Bool? && t == Common(x.ty, n.ty) && InRange(t, x.v) && InRange(t, n.v)
    ensures CBinary(And, x, n) == Some(Value(t, Bits(BitAnd, x.v, n.v)))
  {
    WrapFits(t, x.v);
    WrapFits(t, n.v);
  }

  lemma EvalAndNot(e: Expr, g: GoEnv, c: CEnv, a: Tree, b: Tree)
    requires Ready(e, g, c) && e.Binary? && e.op.AndNot?
    requires SafeC(e.x, g) && SafeC(e.y, g) && Right(e.x, g, CEval(a, c)) && Right(e.y, g, CEval(b, c))
    ensures Right(e, g, CEval(Bin(And, a, Un(Tilde, b)), c))
  {
    var x, y := Value(Held(e.x), ValueC(e.x, g)), Value(Held(e.y), ValueC(e.y, g));
    ValueFits(e.x, g, c);
    ValueFits(e.y, g, c);
    HeldHolds(e.x);
    HeldHolds(e.y);
    AndNotTree(OpType(e), a, b, c, x, y);
  }

  lemma AndNotTree(t: Ty, a: Tree, b: Tree, c: CEnv, x: Value, y: Value)
    requires !x.ty.Bool? && !y.ty.Bool? && t == Common(x.ty, y.ty) && InRange(x.ty, x.v) && InRange(y.ty, y.v)
    requires x.ty == y.ty || (Signed(x.ty) && Signed(y.ty))
    requires CEval(a, c) == Some(x) && CEval(b, c) == Some(y)
    ensures CEval(Bin(And, a, Un(Tilde, b)), c) == Some(Value(t, GoBinary(AndNot, t, x.v, y.v)))
  {
    AndNotAt(t, x, y);
    UnTree(Tilde, b, c, y);
    BinTree(And, a, Un(Tilde, b), c, x, CUnary(Tilde, y).value);
  }

  lemma EvalBools(e: Expr, g: GoEnv, c: CEnv, a: Tree, b: Tree)
    requires Ready(e, g, c) && e.Binary? && (e.op.Eql? || e.op.Neq?) && TypeOf(e.x).Bool?
    requires SafeC(e.x, g) && SafeC(e.y, g) && Right(e.x, g, CEval(a, c)) && Right(e.y, g, CEval(b, c))
    ensures Right(e, g, CEval(Bin(e.op, a, b), c))
  {
    var x, y := Value(Held(e.x), ValueC(e.x, g)), Value(Held(e.y), ValueC(e.y, g));
    ValueFits(e.x, g, c);
    ValueFits(e.y, g, c);
    HeldHolds(e.x);
    HeldHolds(e.y);
    CompareBools(e.op, x, y);
    BinTree(e.op, a, b, c, x, y);
  }

  lemma EvalOperator(e: Expr, g: GoEnv, c: CEnv, a: Tree, b: Tree)
    requires Ready(e, g, c) && e.Binary? && WrapType(e).None?
    requires Right(e.x, g, CEval(a, c)) && Right(e.y, g, CEval(b, c))
    ensures Right(e, g, CEval(if e.op.AndNot? then Bin(And, a, Un(Tilde, b)) else Bin(e.op, a, b), c))
  {
    if e.op.LAnd? || e.op.LOr? {
      EvalLogical(e, g, c, a, b);
    } else if !(SafeC(e.x, g) && SafeC(e.y, g)) {
      assert !SafeC(e.y, g) ==> CEval(Un(Tilde, b), c) == None;
    } else if e.op.AndNot? {
      EvalAndNot(e, g, c, a, b);
    } else if TypeOf(e.x).Bool? {
      EvalBools(e, g, c, a, b);
    } else {
      EvalNumbers(e, g, c, a, b);
    }
  }

  lemma EvalElem(e: Expr, g: GoEnv, c: CEnv)
    requires Ready(e, g, c) && e.Elem? && Right(e.idx, g, CEval(TreeOf(DocOf(e.idx, None)), c))
    ensures Right(e, g, CEval(TreeOf(PlainDoc(e, None)), c))
  {
    assert TreeOf(PlainDoc(e, None)) == At(CName(e.buf), TreeOf(DocOf(e.idx, None)));
  }

  lemma EvalBinary(e: Expr, g: GoEnv, c: CEnv)
    requires Ready(e, g, c) && e.Binary? && WrapType(e).None?
    requires Right(e.x, g, CEval(TreeOf(DocOf(e.x, None)), c)) && Right(e.y, g, CEval(TreeOf(DocOf(e.y, None)), c))
    ensures Right(e, g, CEval(TreeOf(PlainDoc(e, None)), c))
  {
    InfixTree(e.op, e.x, e.y, None);
    EvalOperator(e, g, c, TreeOf(DocOf(e.x, None)), TreeOf(DocOf(e.y, None)));
  }

  /** Outside a region a sign or a complement cannot overflow. */
  lemma SignOutside(op: Op, x: Value)
    requires InRange(x.ty, x.v)
    requires if op.Not? then x.ty.Bool? else !x.ty.Bool? && (op.Add? || op.Xor? || (op.Sub? && !Signed(x.ty)))
    ensures CUnary(if op.Xor? then Tilde else op, x) == Some(Value(x.ty, GoUnary(op, x.ty, x.v)))
  {
  }

  lemma EvalSign(e: Expr, g: GoEnv, c: CEnv, a: Tree)
    requires Ready(e, g, c) && e.Unary? && WrapType(e).None? && Right(e.x, g, CEval(a, c))
    ensures Right(e, g, CEval(Un(if e.op.Xor? then Tilde else e.op, a), c))
  {
    if SafeC(e.x, g) {
      ValueFits(e.x, g, c);
      HeldHolds(e.x);
      SignOutside(e.op, CEval(a, c).value);
    }
  }

  lemma EvalTerms(e: Expr, g: GoEnv, c: CEnv, a: Tree, b: Tree)
    requires e.Binary? && WrapType(e).Some? && Typed(e)
    requires RightInside(e.x, g, CEval(a, c))
    requires if e.op.Shl? then Right(e.y, g, CEval(b, c)) else RightInside(e.y, g, CEval(b, c))
    ensures RightInside(e, g, CEval(Bin(e.op, a, b), c))
  {
    var ty, v := TypeOf(e), ValueC(e.x, g);
    if SafeC(e.x, g) && SafeC(e.y, g) {
      BinTree(e.op, a, b, c, Carried(ty, v), CEval(b, c).value);
      if e.op.Shl? { ShiftInside(ty, v, CEval(b, c).value); } else { TermInside(e.op, ty, v, ValueC(e.y, g)); }
    }
  }

  /** A region is converted back to the signed type. */
  lemma EvalRegion(e: Expr, g: GoEnv, c: CEnv, t: Tree)
    requires Ready(e, g, c) && WrapType(e).Some? && RightInside(e, g, CEval(t, c))
    ensures Right(e, g, CEval(As(SignedC(TypeOf(e)), t), c))
  {
    Closes(TypeOf(e), ValueC(e, g));
    if SafeC(e, g) {
      ValueFits(e, g, c);
      WrapFits(TypeOf(e), ValueC(e, g));
    }
  }

  lemma {:induction false} EvalOutside(e: Expr, g: GoEnv, c: CEnv)
    requires Ready(e, g, c)
    ensures Right(e, g, CEval(TreeOf(DocOf(e, None)), c))
    decreases e, 1
  {
    if WrapType(e).Some? {
      EvalTerm(e, g, c);
      EvalRegion(e, g, c, TreeOf(PlainDoc(e, WrapType(e))));
    } else {
      EvalPlain(e, g, c);
    }
  }

  lemma {:induction false} EvalPlain(e: Expr, g: GoEnv, c: CEnv)
    requires Ready(e, g, c) && WrapType(e).None?
    ensures Right(e, g, CEval(TreeOf(PlainDoc(e, None)), c))
    decreases e, 0
  {
    match e
    case Ident(n, _) => NameValue(n, c);
    case Const(v, ty) => ConstantValue(v, ty, c);
    case Elem(_, i, _) =>
      EvalOutside(i, g, c);
      EvalElem(e, g, c);
    case Binary(op, x, y) =>
      EvalOutside(x, g, c);
      EvalOutside(y, g, c);
      EvalBinary(e, g, c);
    case Unary(op, x) =>
      EvalOutside(x, g, c);
      EvalSign(e, g, c, TreeOf(DocOf(x, None)));
    case Conv(to, x) => EvalOutside(x, g, c);
  }

  lemma {:induction false} EvalInside(e: Expr, g: GoEnv, c: CEnv)
    requires Ready(e, g, c) && Signed(TypeOf(e))
    ensures RightInside(e, g, CEval(TreeOf(DocOf(e, Some(TypeOf(e)))), c))
    decreases e, 2
  {
    if WrapType(e).Some? {
      EvalTerm(e, g, c);
    } else if e.Const? && e.v >= 0 {
      RegionConstant(e.v, e.ty, c);
    } else {
      EvalOutside(e, g, c);
      EvalEntry(e, g, c, TreeOf(DocOf(e, None)));
    }
  }

  /** An operand computed outside is converted on its way in. */
  lemma EvalEntry(e: Expr, g: GoEnv, c: CEnv, a: Tree)
    requires Signed(TypeOf(e)) && Right(e, g, CEval(a, c))
    ensures RightInside(e, g, CEval(As(UnsignedC(TypeOf(e)), a), c))
  {
    Enters(TypeOf(e), TypeOf(e), ValueC(e, g));
  }

  /** A node of a region, its operands carried in. */
  lemma {:induction false} EvalTerm(e: Expr, g: GoEnv, c: CEnv)
    requires Ready(e, g, c) && WrapType(e).Some?
    ensures RightInside(e, g, CEval(TreeOf(PlainDoc(e, WrapType(e))), c))
    decreases e, 0
  {
    if e.Unary? {
      EvalInside(e.x, g, c);
      NegateInside(TypeOf(e), ValueC(e.x, g));
    } else {
      EvalInside(e.x, g, c);
      if e.op.Shl? { EvalOutside(e.y, g, c); } else { EvalInside(e.y, g, c); }
      InfixTree(e.op, e.x, e.y, WrapType(e));
      EvalTerms(e, g, c, TreeOf(DocOf(e.x, WrapType(e))), TreeOf(DocOf(e.y, if e.op.Shl? then None else WrapType(e))));
    }
  }

  /** What C computes for a text: the text has one tree in C's grammar, and that tree this value, or none. */
  ghost predicate Computes(s: string, c: CEnv, o: Option<Value>) { exists t :: Denotes(C, s, t) && CEval(t, c) == o }

  lemma ComputesOnce(s: string, c: CEnv, o: Option<Value>, q: Option<Value>)
    requires Computes(s, c, o) && Computes(s, c, q)
    ensures o == q
  {
    var t :| Denotes(C, s, t) && CEval(t, c) == o;
    var u :| Denotes(C, s, u) && CEval(u, c) == q;
    assert Derives(Start(C), Lex(C, s), t);
  }

  /** The emitted C, read with C's lexer and grammar and evaluated under C's rules, of every
      expression on every input: Go's operators, each in the type C computes it in, with a value exactly
      where each is defined there. */
  lemma EmittedMeaning(e: Expr, g: GoEnv, c: CEnv)
    requires Ready(e, g, c)
    ensures Computes(Emit(e, None).s, c, if SafeC(e, g) then Some(Value(Held(e), ValueC(e, g))) else None)
  {
    EmittedTree(e);
    EvalOutside(e, g, c);
  }

  // Against Go

  lemma SameWrap(ty: Ty, t: Ty, v: int)
    requires Holder(ty, t) && InRange(ty, v)
    ensures Wrap(t, v) == Wrap(ty, v)
  {
    WrapFits(ty, v);
    WrapFits(t, v);
  }

  /** A wider type changes no operation that is safe. */
  lemma WiderAgrees(op: Op, ty: Ty, t: Ty, a: int, b: int)
    requires !ty.Bool? && Holder(ty, t) && InRange(ty, a) && (Shifts(op) || InRange(ty, b)) && SafeBinary(op, ty, a, b)
    requires op.Add? || op.Sub? || op.Mul? || op.Shl? ==> t == ty
    ensures SafeBinary(op, t, a, b) && GoBinary(op, t, a, b) == GoBinary(op, ty, a, b)
  {
    if op.Quo? || op.Rem? {
      QuotientFits(ty, a, b);
      if op.Quo? { SameWrap(ty, t, Truncated(a, b)); } else { SameWrap(ty, t, a - b * Truncated(a, b)); }
    }
  }

  /** Where Go's own evaluation is safe, C's is, and has the same value. */
  lemma {:induction false} SafeIsSafe(e: Expr, g: GoEnv, c: CEnv)
    requires Ready(e, g, c) && Safe(e, g)
    ensures SafeC(e, g) && ValueC(e, g) == GoEval(e, g)
  {
    match e
    case Ident(_, _) =>
    case Const(_, _) =>
    case Elem(_, i, _) => SafeIsSafe(i, g, c);
    case Binary(op, x, y) =>
      SafeIsSafe(x, g, c);
      if !((op.LAnd? || op.LOr?) && (GoEval(x, g) == 0) == op.LAnd?) {
        SafeIsSafe(y, g, c);
        if !op.LAnd? && !op.LOr? { OperatorIsSafe(e, g, c); }
      }
    case Unary(op, x) =>
      SafeIsSafe(x, g, c);
      GoFits(x, g, c);
      SignAgrees(e, GoEval(x, g));
    case Conv(_, x) => SafeIsSafe(x, g, c);
  }

  lemma SignAgrees(e: Expr, a: int)
    requires Typed(e) && e.Unary? && InRange(TypeOf(e), a)
    ensures GoUnary(e.op, Held(e), a) == GoUnary(e.op, TypeOf(e), a)
  {
    HeldHolds(e);
    if e.op.Xor? && Held(e) != TypeOf(e) { SameWrap(TypeOf(e), Held(e), -a - 1); }
  }

  lemma OperatorIsSafe(e: Expr, g: GoEnv, c: CEnv)
    requires Ready(e, g, c) && e.Binary? && !e.op.LAnd? && !e.op.LOr? && Safe(e, g)
    ensures var a, b := GoEval(e.x, g), GoEval(e.y, g);
      SafeBinary(e.op, OpType(e), a, b) && GoBinary(e.op, OpType(e), a, b) == GoBinary(e.op, TypeOf(e.x), a, b)
  {
    GoFits(e.x, g, c);
    GoFits(e.y, g, c);
    if !TypeOf(e.x).Bool? {
      HeldHolds(e);
      WiderAgrees(e.op, TypeOf(e.x), OpType(e), GoEval(e.x, g), GoEval(e.y, g));
    }
  }

  /** Arithmetic preservation: for every int32, int64, uint32, uint64 or bool expression, reading the
      emitted text with C's lexer and grammar and evaluating it under C's rules yields Go's wrapped
      value whenever Go's own evaluation shifts by counts in range and divides by what it may. */
  lemma EmittedValue(e: Expr, g: GoEnv, c: CEnv)
    requires Ready(e, g, c) && Safe(e, g)
    ensures Computes(Emit(e, None).s, c, Some(Value(Held(e), GoEval(e, g))))
  {
    EmittedMeaning(e, g, c);
    SafeIsSafe(e, g, c);
  }

  /** Where C has a value, Go's evaluation is safe too, unless it comes by an operation that C computes
      in a wider type and that Go's contract leaves out. */
  lemma {:induction false} SafeUnlessSlips(e: Expr, g: GoEnv, c: CEnv)
    requires Ready(e, g, c) && SafeC(e, g)
    ensures Safe(e, g) <==> !Slips(e, g)
  {
    match e
    case Ident(_, _) =>
    case Const(_, _) =>
    case Elem(_, i, _) =>
      SafeUnlessSlips(i, g, c);
      if Safe(i, g) { SafeIsSafe(i, g, c); }
    case Binary(op, x, y) =>
      SafeUnlessSlips(x, g, c);
      if Safe(x, g) {
        SafeIsSafe(x, g, c);
        if !((op.LAnd? || op.LOr?) && (GoEval(x, g) == 0) == op.LAnd?) {
          SafeUnlessSlips(y, g, c);
          if Safe(y, g) { SafeIsSafe(y, g, c); }
        }
      }
    case Unary(_, x) => SafeUnlessSlips(x, g, c);
    case Conv(_, x) => SafeUnlessSlips(x, g, c);
  }

  /** The emitted C has a value. */
  ghost predicate DefinedInC(e: Expr, c: CEnv) { exists x :: Computes(Emit(e, None).s, c, Some(x)) }

  lemma DefinedIs(e: Expr, g: GoEnv, c: CEnv)
    requires Ready(e, g, c)
    ensures DefinedInC(e, c) <==> SafeC(e, g)
  {
    EmittedMeaning(e, g, c);
    if x :| Computes(Emit(e, None).s, c, Some(x)) {
      ComputesOnce(Emit(e, None).s, c, Some(x), if SafeC(e, g) then Some(Value(Held(e), ValueC(e, g))) else None);
    }
  }

  /** So, for every expression and input, "C has a value exactly where Go's evaluation is safe" holds if
      and only if C does not get past such an operation. */
  lemma DefinedWhereSafe(e: Expr, g: GoEnv, c: CEnv)
    requires Ready(e, g, c)
    ensures (DefinedInC(e, c) <==> Safe(e, g)) <==> !(SafeC(e, g) && Slips(e, g))
  {
    DefinedIs(e, g, c);
    if SafeC(e, g) { SafeUnlessSlips(e, g, c); }
    if Safe(e, g) { SafeIsSafe(e, g, c); }
  }

  /** On all inputs at once. */
  lemma DefinedWhereSafeAlways(e: Expr)
    ensures (forall g, c :: Ready(e, g, c) ==> (DefinedInC(e, c) <==> Safe(e, g))) <==>
      forall g, c :: Ready(e, g, c) ==> !(SafeC(e, g) && Slips(e, g))
  {
    forall g, c | Ready(e, g, c) ensures (DefinedInC(e, c) <==> Safe(e, g)) <==> !(SafeC(e, g) && Slips(e, g)) {
      DefinedWhereSafe(e, g, c);
    }
  }

  /** An expression with no division, remainder or right shift in a wider type never slips. */
  lemma {:induction false} TightNeverSlips(e: Expr, g: GoEnv)
    requires Typed(e) && Tight(e)
    ensures !Slips(e, g)
  {
    match e
    case Elem(_, i, _) => TightNeverSlips(i, g);
    case Binary(_, x, y) => TightNeverSlips(x, g); TightNeverSlips(y, g); HeldHolds(e);
    case Unary(_, x) => TightNeverSlips(x, g);
    case Conv(_, x) => TightNeverSlips(x, g);
    case _ =>
  }

  lemma {:induction false} PlainIsTight(e: Expr)
    requires Typed(e) && Plain(e)
    ensures Tight(e) && Held(e) == TypeOf(e) && (e.Binary? && !TypeOf(e.x).Bool? ==> OpType(e) == TypeOf(e.x))
  {
    match e
    case Elem(_, i, _) => PlainIsTight(i);
    case Binary(_, x, y) => PlainIsTight(x); PlainIsTight(y);
    case Unary(_, x) => PlainIsTight(x);
    case Conv(_, x) => PlainIsTight(x);
    case _ =>
  }

  /** Such an expression means in C what it means in Go, and has no value elsewhere. */
  lemma TightMeaning(e: Expr, g: GoEnv, c: CEnv)
    requires Ready(e, g, c) && Tight(e)
    ensures Computes(Emit(e, None).s, c, if Safe(e, g) then Some(Value(Held(e), GoEval(e, g))) else None)
  {
    EmittedMeaning(e, g, c);
    DefinedIs(e, g, c);
    DefinedWhereSafe(e, g, c);
    TightNeverSlips(e, g);
    if Safe(e, g) { SafeIsSafe(e, g, c); }
  }

  /** Without the least int32 constant it has the Go type, too. */
  lemma PlainMeaning(e: Expr, g: GoEnv, c: CEnv)
    requires Ready(e, g, c) && Plain(e)
    ensures Computes(Emit(e, None).s, c, if Safe(e, g) then Some(Value(TypeOf(e), GoEval(e, g))) else None)
  {
    PlainIsTight(e);
    TightMeaning(e, g, c);
  }

  /** An input that slips: MinInt32 / x at x = -1, which int32 division cannot deliver, has the value
      2147483648 in the wider type of C's literal. */
  lemma LeastConstantHasNoFault(e: Expr, g: GoEnv, c: CEnv)
    requires Ready(e, g, c) && e.Binary? && e.op.Quo?
    requires e.x.Const? && e.x.ty.I32? && e.x.v == Least(e.x.ty) && e.y.Ident? && GoEval(e.y, g) == -1
    ensures !Safe(e, g) && Slips(e, g)
    ensures Computes(Emit(e, None).s, c, Some(Value(I64, -e.x.v)))
  {
    LeastQuotient(e, g, e.x.v);
    MeansValue(e, g, c, Value(I64, -e.x.v));
  }

  lemma MeansValue(e: Expr, g: GoEnv, c: CEnv, x: Value)
    requires Ready(e, g, c) && SafeC(e, g) && x == Value(Held(e), ValueC(e, g))
    ensures Computes(Emit(e, None).s, c, Some(x))
  {
    EmittedMeaning(e, g, c);
  }

  lemma LeastQuotient(e: Expr, g: GoEnv, v: int)
    requires Typed(e) && e.Binary? && e.op.Quo? && e.x.Const? && e.x.ty.I32? && e.x.v == v == Least(e.x.ty)
    requires e.y.Ident? && GoEval(e.y, g) == -1
    ensures !Safe(e, g) && Slips(e, g) && SafeC(e, g) && Held(e) == I64 && ValueC(e, g) == -v
  {
    assert OpType(e) == I64;
    TruncatedByUnit(v, -1);
    WrapFits(I64, -v);
  }
}
