/** The expression emitter of internal/lower/expr.go: C text with minimal parentheses, in which
    maximal regions of signed + - * << are computed in the unsigned type of the same width. */
module ExprEmit {
  import opened Basics
  import opened ExprText
  import opened ExprGrammar
  import opened Decimal

  datatype Ty = I32 | I64 | U32 | U64 | Bool

  /** A typed Go expression.  Parentheses carry nothing the tree does not, and whatever go/types
      folded to a constant is one node. */
  datatype Expr =
    | Ident(name: string, ty: Ty)
    | Const(v: int, ty: Ty)
    | Elem(buf: string, idx: Expr, ty: Ty)
    | Binary(op: Op, x: Expr, y: Expr)
    | Unary(op: Op, x: Expr)
    | Conv(to: Ty, x: Expr)

  predicate Compares(op: Op) { op.Lss? || op.Leq? || op.Gtr? || op.Geq? || op.Eql? || op.Neq? }

  predicate Shifts(op: Op) { op.Shl? || op.Shr? }

  function TypeOf(e: Expr): Ty {
    match e
    case Ident(_, ty) => ty
    case Const(_, ty) => ty
    case Elem(_, _, ty) => ty
    case Binary(op, x, _) => if Compares(op) || op.LAnd? || op.LOr? then Bool else TypeOf(x)
    case Unary(_, x) => TypeOf(x)
    case Conv(to, _) => to
  }

  predicate Signed(ty: Ty) { ty.I32? || ty.I64? }

  /** One more than the largest unsigned value of the type's width. */
  function Size(ty: Ty): nat { if ty.I64? || ty.U64? then 0x1_0000_0000_0000_0000 else 0x1_0000_0000 }

  predicate InRange(ty: Ty, v: int) {
    if ty.Bool? then v == 0 || v == 1
    else if Signed(ty) then 0 - Size(ty) <= 2 * v < Size(ty)
    else 0 <= v < Size(ty)
  }

  /** What go/types has checked. */
  predicate Typed(e: Expr) {
    match e
    case Ident(_, _) => true
    case Const(v, ty) => InRange(ty, v)
    case Elem(_, i, _) => Typed(i) && !TypeOf(i).Bool?
    case Binary(op, x, y) =>
      && Typed(x) && Typed(y)
      && (if op.LAnd? || op.LOr? then TypeOf(x).Bool? && TypeOf(y).Bool?
          else if Shifts(op) then !TypeOf(x).Bool? && !TypeOf(y).Bool?
          else TypeOf(x) == TypeOf(y) && (TypeOf(x).Bool? ==> op.Eql? || op.Neq?) && BinPrec(Go, op) > 0)
    case Unary(op, x) =>
      Typed(x) && (if op.Not? then TypeOf(x).Bool? else !TypeOf(x).Bool? && (op.Sub? || op.Add? || op.Xor?))
    case Conv(to, x) => Typed(x) && !to.Bool? && !TypeOf(x).Bool?
  }

  // Names

  const KEYWORDS := {
    "auto", "class", "const", "delete", "double", "extern", "float", "friend", "inline", "int",
    "long", "new", "operator", "private", "protected", "public", "register", "short", "signed", "sizeof",
    "static", "template", "this", "throw", "try", "typedef", "union", "unsigned", "virtual", "void",
    "volatile", "namespace", "using", "bool", "char" }

  function CName(name: string): string { if name in KEYWORDS then name + "_" else name }

  /** An identifier: a word that does not start with a digit and is not a boolean literal. */
  predicate IsName(name: string) { IsWord(name) && !IsDigit(name[0]) && name != "true" && name != "false" }

  predicate Named(e: Expr) {
    match e
    case Ident(n, _) => IsName(n)
    case Const(_, _) => true
    case Elem(b, i, _) => IsName(b) && Named(i)
    case Binary(_, x, y) => Named(x) && Named(y)
    case Unary(_, x) => Named(x)
    case Conv(_, x) => Named(x)
  }

  lemma CNameIsName(name: string)
    requires IsName(name)
    ensures IsName(CName(name)) && !TypeWord(CName(name))
  {
    if name in KEYWORDS {
      var w := name + "_";
      assert w[|name|] == '_';
      assert w[0] == name[0];
      assert "int"[|"int"| - 1] != '_' && "long"[|"long"| - 1] != '_' && "unsigned"[|"unsigned"| - 1] != '_';
      assert "true"[|"true"| - 1] != '_' && "false"[|"false"| - 1] != '_';
      assert w[|w| - 1] == '_';
    }
  }

  // Rendering

  /** A rendered expression with the precedence of its outermost operator. */
  datatype CExpr = CExpr(s: string, prec: nat) {
    function At(min: nat): string { if prec < min then "(" + (s + ")") else s }
  }

  function SignedC(ty: Ty): CType { if ty.I64? then LongLongT else IntT }
  function UnsignedC(ty: Ty): CType { if ty.I64? then ULongLongT else UIntT }

  /** ctype */
  function CTypeOf(ty: Ty): CType {
    match ty
    case I32 => IntT case I64 => LongLongT case U32 => UIntT case U64 => ULongLongT case Bool => IntT
  }

  function IntSuffix(ty: Ty): string {
    match ty
    case I64 => "ll" case U64 => "ull" case U32 => "u" case _ => ""
  }

  /** unsignedSuffix */
  function RegionSuffix(ty: Ty): string { if ty.I64? then "ull" else "u" }

  const MIN64 := -0x8000_0000_0000_0000
  const MAX64: nat := 0x7fff_ffff_ffff_ffff

  function LeastText(w: string): string { "(" + (("-" + w) + (" " + ("-" + (" " + "1"))) + ")") }

  /** A constant.  A negative one is a sign applied to a literal, and the least int64 has no literal
      of its own. */
  function Constant(v: int, ty: Ty): CExpr {
    if ty.Bool? then CExpr(if v == 0 then "false" else "true", ATOM)
    else if v == MIN64 then CExpr(LeastText(Dec(MAX64) + "ll"), ATOM)
    else if v < 0 then CExpr("-" + (Dec(-v) + IntSuffix(ty)), PREFIX)
    else CExpr(Dec(v) + IntSuffix(ty), ATOM)
  }

  /** wrapTypeOf: the type of e if it is signed arithmetic that can overflow. */
  function WrapType(e: Expr): Option<Ty> {
    match e
    case Binary(op, _, _) =>
      if (op.Add? || op.Sub? || op.Mul? || op.Shl?) && Signed(TypeOf(e)) then Some(TypeOf(e)) else None
    case Unary(op, _) => if op.Sub? && Signed(TypeOf(e)) then Some(TypeOf(e)) else None
    case _ => None
  }

  function Converted(ty: CType, s: string): CExpr {
    CExpr("(" + (TypeText(ty) + (")" + ("(" + (s + ")")))), PREFIX)
  }

  /** expr, with r the type of the unsigned region that is open, if one is. */
  function Emit(e: Expr, r: Option<Ty>): CExpr
    decreases e, if r.Some? then 2 else 1
  {
    if r.Some? && WrapType(e) != r then
      if e.Const? && e.v >= 0 then CExpr(Dec(e.v) + RegionSuffix(r.value), ATOM)
      else Converted(UnsignedC(r.value), Emit(e, None).s)
    else if r.None? && WrapType(e).Some? then
      Converted(SignedC(WrapType(e).value), EmitPlain(e, WrapType(e)).s)
    else EmitPlain(e, r)
  }

  /** binaryPlain, unaryPlain and the rest of expr: a shift count is rendered outside any region. */
  function EmitPlain(e: Expr, r: Option<Ty>): CExpr
    decreases e, 0
  {
    match e
    case Ident(n, _) => CExpr(CName(n), ATOM)
    case Const(v, ty) => Constant(v, ty)
    case Elem(b, i, _) => CExpr(CName(b) + ("[" + (Emit(i, r).s + "]")), POSTFIX)
    case Binary(op, x, y) =>
      if op.AndNot? then CExpr(Emit(x, r).At(8) + (" " + ("&" + (" " + ("~" + Emit(y, r).At(PREFIX))))), 8)
      else
        var p := BinPrec(C, op);
        CExpr(Emit(x, r).At(p) + (" " + (Spell(op) + (" " + Emit(y, if Shifts(op) then None else r).At(p + 1)))), p)
    case Unary(op, x) =>
      var c := Emit(x, r).At(PREFIX);
      if op.Xor? then CExpr("~" + c, PREFIX) else CExpr(Spell(op) + (UnarySep(op, c) + c), PREFIX)
    case Conv(to, x) => Converted(CTypeOf(to), Emit(x, r).s)
  }

  // The same with the region a field that is saved and restored, as the emitter keeps it

  class Transpiler {
    var wrap: Option<Ty>

    constructor ()
      ensures wrap == None
    {
      wrap := None;
    }

    method RenderExpr(e: Expr) returns (c: CExpr)
      modifies this
      ensures c == Emit(e, old(wrap)) && wrap == old(wrap)
      decreases e, if wrap.Some? then 2 else 1
    {
      if wrap.Some? && WrapType(e) != wrap {
        c := EnterWrapAs(e);
      } else if wrap.None? && WrapType(e).Some? {
        c := OpenWrap(e);
      } else {
        c := Plain(e);
      }
    }

    method EnterWrapAs(e: Expr) returns (c: CExpr)
      requires wrap.Some? && WrapType(e) != wrap
      modifies this
      ensures c == Emit(e, old(wrap)) && wrap == old(wrap)
      decreases e, 1, 1
    {
      if e.Const? && e.v >= 0 { return CExpr(Dec(e.v) + RegionSuffix(wrap.value), ATOM); }
      var inner := OutsideWrap(e);
      c := Converted(UnsignedC(wrap.value), inner.s);
    }

    method OutsideWrap(e: Expr) returns (c: CExpr)
      modifies this
      ensures c == Emit(e, None) && wrap == old(wrap)
      decreases e, 1, 0
    {
      var saved := wrap;
      wrap := None;
      c := RenderOutside(e);
      wrap := saved;
    }

    method RenderOutside(e: Expr) returns (c: CExpr)
      requires wrap == None
      modifies this
      ensures c == Emit(e, None) && wrap == None
      decreases e, 0, 3
    {
      if WrapType(e).Some? { c := OpenWrap(e); } else { c := Plain(e); }
    }

    method OpenWrap(e: Expr) returns (c: CExpr)
      requires wrap == None && WrapType(e).Some?
      modifies this
      ensures c == Emit(e, None) && wrap == None
      decreases e, 0, 2
    {
      wrap := WrapType(e);
      c := Plain(e);
      c := Converted(SignedC(wrap.value), c.s);
      wrap := None;
    }

    method Plain(e: Expr) returns (c: CExpr)
      modifies this
      ensures c == EmitPlain(e, old(wrap)) && wrap == old(wrap)
      decreases e, 0, 1
    {
      match e {
        case Ident(n, _) => c := CExpr(CName(n), ATOM);
        case Const(v, ty) => c := Constant(v, ty);
        case Elem(b, i, _) =>
          c := RenderExpr(i);
          c := CExpr(CName(b) + ("[" + (c.s + "]")), POSTFIX);
        case Binary(_, _, _) => c := BinaryPlain(e);
        case Unary(op, x) =>
          c := RenderExpr(x);
          var s := c.At(PREFIX);
          c := if op.Xor? then CExpr("~" + s, PREFIX) else CExpr(Spell(op) + (UnarySep(op, s) + s), PREFIX);
        case Conv(to, x) =>
          c := RenderExpr(x);
          c := Converted(CTypeOf(to), c.s);
      }
    }

    method BinaryPlain(e: Expr) returns (c: CExpr)
      requires e.Binary?
      modifies this
      ensures c == EmitPlain(e, old(wrap)) && wrap == old(wrap)
      decreases e, 0, 0
    {
      var op, x, y := e.op, e.x, e.y;
      var l := RenderExpr(x);
      var r;
      if Shifts(op) { r := OutsideWrap(y); } else { r := RenderExpr(y); }
      var p := BinPrec(C, op);
      c := if op.AndNot?
        then CExpr(l.At(8) + (" " + ("&" + (" " + ("~" + r.At(PREFIX))))), 8)
        else CExpr(l.At(p) + (" " + (Spell(op) + (" " + r.At(p + 1)))), p);
    }
  }

  // What the text is the text of

  function DocOf(e: Expr, r: Option<Ty>): Doc
    decreases e, if r.Some? then 2 else 1
  {
    if r.Some? && WrapType(e) != r then
      if e.Const? && e.v >= 0 then Word(Dec(e.v) + RegionSuffix(r.value))
      else Cast(UnsignedC(r.value), Paren(DocOf(e, None)))
    else if r.None? && WrapType(e).Some? then
      Cast(SignedC(WrapType(e).value), Paren(PlainDoc(e, WrapType(e))))
    else PlainDoc(e, r)
  }

  function LeastDoc(w: string): Doc { Paren(Infix(Sub, Prefix(Sub, Word(w)), Word("1"))) }

  function ConstDoc(v: int, ty: Ty): Doc {
    if ty.Bool? then Word(if v == 0 then "false" else "true")
    else if v == MIN64 then LeastDoc(Dec(MAX64) + "ll")
    else if v < 0 then Prefix(Sub, Word(Dec(-v) + IntSuffix(ty)))
    else Word(Dec(v) + IntSuffix(ty))
  }

  /** a op b, with a & ~b for a &^ b. */
  function BinaryDoc(op: Op, a: Doc, b: Doc): Doc {
    if op.AndNot? then Infix(And, AtLeast(C, a, 8), Prefix(Tilde, AtLeast(C, b, PREFIX)))
    else
      var p := BinPrec(C, op);
      Infix(op, AtLeast(C, a, p), AtLeast(C, b, p + 1))
  }

  function PlainDoc(e: Expr, r: Option<Ty>): Doc
    decreases e, 0
  {
    match e
    case Ident(n, _) => Word(CName(n))
    case Const(v, ty) => ConstDoc(v, ty)
    case Elem(b, i, _) => Index(CName(b), DocOf(i, r))
    case Binary(op, x, y) => BinaryDoc(op, DocOf(x, r), DocOf(y, if Shifts(op) then None else r))
    case Unary(op, x) => Prefix(if op.Xor? then Tilde else op, AtLeast(C, DocOf(x, r), PREFIX))
    case Conv(to, x) => Cast(CTypeOf(to), Paren(DocOf(x, r)))
  }

  /** c is the rendering of d. */
  predicate Renders(c: CExpr, d: Doc) { c.s == Text(d) && c.prec == Prec(C, d) && WellFormed(C, d) }

  lemma AtRenders(c: CExpr, d: Doc, min: nat)
    requires Renders(c, d) && min <= ATOM
    ensures c.At(min) == Text(AtLeast(C, d, min)) && WellFormed(C, AtLeast(C, d, min)) && Prec(C, AtLeast(C, d, min)) >= min
  {
  }

  lemma ConvertedRenders(ty: CType, c: CExpr, d: Doc)
    requires Renders(c, d)
    ensures Renders(Converted(ty, c.s), Cast(ty, Paren(d)))
  {
  }

  lemma LiteralIsWord(n: nat, suffix: string)
    requires suffix == "" || suffix == "u" || suffix == "ll" || suffix == "ull"
    ensures IsWord(Dec(n) + suffix) && !TypeWord(Dec(n) + suffix) && IsDigit((Dec(n) + suffix)[0])
  {
    var w := Dec(n) + suffix;
    assert w[0] == Dec(n)[0];
    forall i | 0 <= i < |w| ensures WordChar(w[i]) {
      if i < |Dec(n)| { assert IsDigit(w[i]); }
    }
  }

  lemma ConstantRenders(v: int, ty: Ty)
    ensures Renders(Constant(v, ty), ConstDoc(v, ty))
  {
    if ty.Bool? {
      BoolRenders(v == 0);
    } else if v == MIN64 {
      LiteralIsWord(MAX64, "ll");
      LeastRenders(Dec(MAX64) + "ll");
    } else {
      LiteralRenders(if v < 0 then -v else v, IntSuffix(ty));
    }
  }

  lemma BoolRenders(zero: bool)
    ensures var w := if zero then "false" else "true"; Renders(CExpr(w, ATOM), Word(w))
  {
    assert "true"[0] == 't' && "false"[0] == 'f';
  }

  lemma LeastRenders(w: string)
    requires IsWord(w) && !TypeWord(w)
    ensures Renders(CExpr(LeastText(w), ATOM), LeastDoc(w))
  {
    SignRenders(w);
    var one := "1";
    assert WordChar(one[0]) && one[0] != 'i' && one[0] != 'u' && one[0] != 'l';
    assert WellFormed(C, Word(one)) && Text(Word(one)) == one;
    var d := Infix(Sub, Prefix(Sub, Word(w)), Word(one));
    assert WellFormed(C, d) && Text(d) == ("-" + w) + (" " + ("-" + (" " + one)));
  }

  lemma LiteralRenders(n: nat, suffix: string)
    requires suffix == "" || suffix == "u" || suffix == "ll" || suffix == "ull"
    ensures var w := Dec(n) + suffix; Renders(CExpr(w, ATOM), Word(w)) && Renders(CExpr("-" + w, PREFIX), Prefix(Sub, Word(w)))
  {
    LiteralIsWord(n, suffix);
    SignRenders(Dec(n) + suffix);
  }

  lemma SignRenders(w: string)
    requires IsWord(w) && !TypeWord(w)
    ensures Text(Prefix(Sub, Word(w))) == "-" + w && WellFormed(C, Prefix(Sub, Word(w)))
  {
    assert WordChar(w[0]);
    assert UnarySep(Sub, w) == "";
    assert "" + w == w;
  }

  /** The emitted text is a rendering with its parentheses where C's grammar needs them. */
  lemma {:induction false} EmitRenders(e: Expr, r: Option<Ty>)
    requires Typed(e) && Named(e)
    ensures Renders(Emit(e, r), DocOf(e, r))
    decreases e, if r.Some? then 2 else 1
  {
    if r.Some? && WrapType(e) != r {
      if e.Const? && e.v >= 0 {
        LiteralIsWord(e.v, RegionSuffix(r.value));
      } else {
        EmitRenders(e, None);
        ConvertedRenders(UnsignedC(r.value), Emit(e, None), DocOf(e, None));
      }
    } else if r.None? && WrapType(e).Some? {
      PlainRenders(e, WrapType(e));
      ConvertedRenders(SignedC(WrapType(e).value), EmitPlain(e, WrapType(e)), PlainDoc(e, WrapType(e)));
    } else {
      PlainRenders(e, r);
    }
  }

  lemma {:induction false} PlainRenders(e: Expr, r: Option<Ty>)
    requires Typed(e) && Named(e)
    ensures Renders(EmitPlain(e, r), PlainDoc(e, r))
    decreases e, 0
  {
    match e
    case Ident(n, _) => CNameIsName(n);
    case Const(v, ty) => ConstantRenders(v, ty);
    case Elem(b, i, _) => CNameIsName(b); EmitRenders(i, r);
    case Binary(op, x, y) =>
      var q := if Shifts(op) then None else r;
      EmitRenders(x, r);
      EmitRenders(y, q);
      BinaryRenders(op, x, y, r, q);
    case Unary(op, x) =>
      EmitRenders(x, r);
      PrefixRenders(op, Emit(x, r), DocOf(x, r));
    case Conv(to, x) => EmitRenders(x, r); ConvertedRenders(CTypeOf(to), Emit(x, r), DocOf(x, r));
  }

  lemma BinaryRenders(op: Op, x: Expr, y: Expr, r: Option<Ty>, q: Option<Ty>)
    requires q == (if Shifts(op) then None else r) && (op.AndNot? || BinPrec(C, op) > 0)
    requires Renders(Emit(x, r), DocOf(x, r)) && Renders(Emit(y, q), DocOf(y, q))
    ensures Renders(EmitPlain(Binary(op, x, y), r), PlainDoc(Binary(op, x, y), r))
  {
    if op.AndNot? {
      AndNotRenders(Emit(x, r), DocOf(x, r), Emit(y, q), DocOf(y, q));
    } else {
      InfixRenders(op, Emit(x, r), DocOf(x, r), Emit(y, q), DocOf(y, q));
    }
  }

  lemma PrefixText(op: Op, t: string, x: Doc)
    requires IsUnary(C, op) && WellFormed(C, x) && Prec(C, x) >= PREFIX && t == Text(x)
    ensures Renders(CExpr(Spell(op) + (UnarySep(op, t) + t), PREFIX), Prefix(op, x))
  {
  }

  lemma TildeText(t: string, x: Doc)
    requires WellFormed(C, x) && Prec(C, x) >= PREFIX && t == Text(x)
    ensures Renders(CExpr("~" + t, PREFIX), Prefix(Tilde, x))
  {
    PrefixText(Tilde, t, x);
    TildeSpelled(t);
  }

  lemma TildeSpelled(t: string)
    ensures Spell(Tilde) + (UnarySep(Tilde, t) + t) == "~" + t
  {
    assert UnarySep(Tilde, t) == "";
    assert "" + t == t;
  }

  lemma PrefixRenders(op: Op, c: CExpr, d: Doc)
    requires (op.Not? || op.Sub? || op.Add? || op.Xor?) && Renders(c, d)
    ensures var s := c.At(PREFIX);
      Renders(if op.Xor? then CExpr("~" + s, PREFIX) else CExpr(Spell(op) + (UnarySep(op, s) + s), PREFIX),
              Prefix(if op.Xor? then Tilde else op, AtLeast(C, d, PREFIX)))
  {
    AtRenders(c, d, PREFIX);
    if op.Xor? { TildeText(c.At(PREFIX), AtLeast(C, d, PREFIX)); } else { PrefixText(op, c.At(PREFIX), AtLeast(C, d, PREFIX)); }
  }

  lemma InfixRenders(op: Op, cx: CExpr, dx: Doc, cy: CExpr, dy: Doc)
    requires BinPrec(C, op) > 0 && Renders(cx, dx) && Renders(cy, dy)
    ensures var p := BinPrec(C, op);
      Renders(CExpr(cx.At(p) + (" " + (Spell(op) + (" " + cy.At(p + 1)))), p), Infix(op, AtLeast(C, dx, p), AtLeast(C, dy, p + 1)))
  {
    AtRenders(cx, dx, BinPrec(C, op));
    AtRenders(cy, dy, BinPrec(C, op) + 1);
  }

  /** a &^ b is a & ~b. */
  lemma AndNotRenders(cx: CExpr, dx: Doc, cy: CExpr, dy: Doc)
    requires Renders(cx, dx) && Renders(cy, dy)
    ensures Renders(
      CExpr(cx.At(8) + (" " + ("&" + (" " + ("~" + cy.At(PREFIX))))), 8),
      Infix(And, AtLeast(C, dx, 8), Prefix(Tilde, AtLeast(C, dy, PREFIX))))
  {
    TildeRenders(cy, dy);
    InfixRenders(And, cx, dx, CExpr("~" + cy.At(PREFIX), PREFIX), Prefix(Tilde, AtLeast(C, dy, PREFIX)));
    assert Spell(And) == "&";
  }

  lemma TildeRenders(c: CExpr, d: Doc)
    requires Renders(c, d)
    ensures Renders(CExpr("~" + c.At(PREFIX), PREFIX), Prefix(Tilde, AtLeast(C, d, PREFIX)))
  {
    AtRenders(c, d, PREFIX);
    TildeText(c.At(PREFIX), AtLeast(C, d, PREFIX));
  }

  /** The emitter writes no parenthesis but those, the conversions' and the one around the least int64. */
  lemma {:induction false} NoSpareParenthesis(e: Expr, r: Option<Ty>)
    ensures Sparing(C, IsLeast, DocOf(e, r), 0)
    decreases e, if r.Some? then 2 else 1
  {
    if r.Some? && WrapType(e) != r {
      if !(e.Const? && e.v >= 0) { NoSpareParenthesis(e, None); }
    } else {
      PlainSparing(e, if r.None? then WrapType(e) else r);
    }
  }

  predicate IsLeast(d: Doc) { Paren(d) == LeastDoc(Dec(MAX64) + "ll") }

  lemma {:induction false} PlainSparing(e: Expr, r: Option<Ty>)
    ensures Sparing(C, IsLeast, PlainDoc(e, r), 0)
    decreases e, 0
  {
    match e
    case Ident(_, _) =>
    case Const(v, ty) => ConstSparing(v, ty);
    case Elem(_, i, _) => NoSpareParenthesis(i, r);
    case Binary(op, x, y) =>
      var q := if Shifts(op) then None else r;
      NoSpareParenthesis(x, r);
      NoSpareParenthesis(y, q);
      BinarySparing(op, DocOf(x, r), DocOf(y, q));
    case Unary(_, x) => NoSpareParenthesis(x, r); SparingAt(DocOf(x, r), PREFIX);
    case Conv(_, x) => NoSpareParenthesis(x, r);
  }

  lemma BinarySparing(op: Op, a: Doc, b: Doc)
    requires Sparing(C, IsLeast, a, 0) && Sparing(C, IsLeast, b, 0)
    ensures Sparing(C, IsLeast, BinaryDoc(op, a, b), 0)
  {
    if op.AndNot? { AndNotSparing(a, b); } else { InfixSparing(op, a, b); }
  }

  lemma InfixSparing(op: Op, a: Doc, b: Doc)
    requires Sparing(C, IsLeast, a, 0) && Sparing(C, IsLeast, b, 0)
    ensures Sparing(C, IsLeast, Infix(op, AtLeast(C, a, BinPrec(C, op)), AtLeast(C, b, BinPrec(C, op) + 1)), 0)
  {
    SparingAt(a, BinPrec(C, op));
    SparingAt(b, BinPrec(C, op) + 1);
  }

  lemma AndNotSparing(a: Doc, b: Doc)
    requires Sparing(C, IsLeast, a, 0) && Sparing(C, IsLeast, b, 0)
    ensures Sparing(C, IsLeast, Infix(And, AtLeast(C, a, 8), Prefix(Tilde, AtLeast(C, b, PREFIX))), 0)
  {
    SparingAt(b, PREFIX);
    TildeSparing(AtLeast(C, b, PREFIX));
    InfixSparing(And, a, Prefix(Tilde, AtLeast(C, b, PREFIX)));
    assert BinPrec(C, And) == 8;
  }

  lemma TildeSparing(d: Doc)
    requires Sparing(C, IsLeast, d, PREFIX)
    ensures Sparing(C, IsLeast, Prefix(Tilde, d), 0)
  {
  }

  lemma ConstSparing(v: int, ty: Ty)
    ensures Sparing(C, IsLeast, ConstDoc(v, ty), 0)
  {
    if !ty.Bool? && v == MIN64 { LeastSparing(IsLeast, Dec(MAX64) + "ll"); }
  }

  lemma LeastSparing(own: Doc -> bool, w: string)
    requires own(LeastDoc(w).d)
    ensures Sparing(C, own, LeastDoc(w), 0)
  {
    var d := LeastDoc(w).d;
    assert Sparing(C, own, d.l, BinPrec(C, Sub)) && Sparing(C, own, d.r, BinPrec(C, Sub) + 1);
  }

  lemma SparingAt(d: Doc, min: nat)
    requires Sparing(C, IsLeast, d, 0)
    ensures Sparing(C, IsLeast, AtLeast(C, d, min), min)
  {
  }

  /** The text a kernel's expression is emitted as denotes, in the grammar of C, exactly the tree that
      was meant. */
  lemma EmittedTree(e: Expr)
    requires Typed(e) && Named(e)
    ensures Denotes(C, Emit(e, None).s, TreeOf(DocOf(e, None)))
  {
    EmitRenders(e, None);
    RoundTrip(C, DocOf(e, None));
  }

  // That tree is the Go tree, casts and literal suffixes apart.

  /** The Go expression as a tree of C operators: &^ is & ~, ^ is ~, a conversion changes no shape. */
  function Shape(e: Expr): Tree {
    match e
    case Ident(n, _) => Leaf(CName(n))
    case Const(v, ty) => ShapeOfConst(v, ty)
    case Elem(b, i, _) => At(CName(b), Shape(i))
    case Binary(op, x, y) => BinaryShape(op, Shape(x), Shape(y))
    case Unary(op, x) => Un(if op.Xor? then Tilde else op, Shape(x))
    case Conv(_, x) => Shape(x)
  }

  function BinaryShape(op: Op, a: Tree, b: Tree): Tree {
    if op.AndNot? then Bin(And, a, Un(Tilde, b)) else Bin(op, a, b)
  }

  function ShapeOfConst(v: int, ty: Ty): Tree {
    if ty.Bool? then Leaf(if v == 0 then "false" else "true")
    else if v == MIN64 then Bin(Sub, Un(Sub, Leaf(Dec(MAX64))), Leaf("1"))
    else if v < 0 then Un(Sub, Leaf(Dec(-v)))
    else Leaf(Dec(v))
  }

  /** A tree without its casts and without the suffixes of its literals. */
  function Bare(t: Tree): Tree {
    match t
    case Leaf(w) => Leaf(if w != "" && IsDigit(w[0]) then w[..Digits(w)] else w)
    case Bin(op, l, r) => Bin(op, Bare(l), Bare(r))
    case Un(op, x) => Un(op, Bare(x))
    case As(_, x) => Bare(x)
    case At(b, x) => At(b, Bare(x))
    case Call(f, x) => Call(f, Bare(x))
  }

  lemma BareLiteral(n: nat, suffix: string)
    requires suffix == "" || suffix == "u" || suffix == "ll" || suffix == "ull"
    ensures Bare(Leaf(Dec(n) + suffix)) == Leaf(Dec(n))
  {
    var w := Dec(n) + suffix;
    DigitsOf(Dec(n), suffix);
    assert w[0] == Dec(n)[0] && w[..|Dec(n)|] == Dec(n);
  }

  lemma BareConst(v: int, ty: Ty)
    ensures Bare(TreeOf(ConstDoc(v, ty))) == ShapeOfConst(v, ty)
  {
    if ty.Bool? {
      BareBool(v == 0);
    } else if v == MIN64 {
      BareLeast(MAX64);
    } else {
      BareLiteral(if v < 0 then -v else v, IntSuffix(ty));
    }
  }

  lemma BareBool(zero: bool)
    ensures var w := if zero then "false" else "true"; Bare(Leaf(w)) == Leaf(w)
  {
    assert "true"[0] == 't' && "false"[0] == 'f';
  }

  lemma BareLeast(n: nat)
    ensures Bare(TreeOf(LeastDoc(Dec(n) + "ll"))) == Bin(Sub, Un(Sub, Leaf(Dec(n))), Leaf("1"))
  {
    BareLiteral(n, "ll");
    DigitsOf("1", "");
    assert "1" + "" == "1" && "1"[..1] == "1";
    var w := Dec(n) + "ll";
    var d := Infix(Sub, Prefix(Sub, Word(w)), Word("1"));
    assert Bare(TreeOf(Prefix(Sub, Word(w)))) == Un(Sub, Leaf(Dec(n)));
    assert Bare(TreeOf(Word("1"))) == Leaf("1");
    assert TreeOf(d) == Bin(Sub, TreeOf(Prefix(Sub, Word(w))), TreeOf(Word("1")));
  }

  /** What an open region is rendered for: the operands of its own arithmetic. */
  predicate InRegion(e: Expr, r: Option<Ty>) {
    r.Some? ==> Signed(r.value) && TypeOf(e) == r.value
  }

  lemma BareAtLeast(d: Doc, min: nat)
    ensures TreeOf(AtLeast(C, d, min)) == TreeOf(d)
  {
  }

  lemma BareBin(op: Op, a: Doc, b: Doc)
    ensures Bare(TreeOf(Infix(op, a, b))) == Bin(op, Bare(TreeOf(a)), Bare(TreeOf(b)))
  {
    assert TreeOf(Infix(op, a, b)) == Bin(op, TreeOf(a), TreeOf(b));
  }

  lemma BareUn(op: Op, a: Doc)
    ensures Bare(TreeOf(Prefix(op, a))) == Un(op, Bare(TreeOf(a)))
  {
    assert TreeOf(Prefix(op, a)) == Un(op, TreeOf(a));
  }

  lemma BareCast(ty: CType, d: Doc)
    ensures Bare(TreeOf(Cast(ty, Paren(d)))) == Bare(TreeOf(d))
  {
    assert TreeOf(Cast(ty, Paren(d))) == As(ty, TreeOf(d));
  }

  lemma {:induction false} BareTree(e: Expr, r: Option<Ty>)
    requires Typed(e) && Named(e) && InRegion(e, r)
    ensures Bare(TreeOf(DocOf(e, r))) == Shape(e)
    decreases e, if r.Some? then 2 else 1
  {
    if r.Some? && WrapType(e) != r {
      if e.Const? && e.v >= 0 {
        BareLiteral(e.v, RegionSuffix(r.value));
      } else {
        BareTree(e, None);
        BareCast(UnsignedC(r.value), DocOf(e, None));
      }
    } else if r.None? && WrapType(e).Some? {
      BarePlain(e, WrapType(e));
      BareCast(SignedC(WrapType(e).value), PlainDoc(e, WrapType(e)));
    } else {
      BarePlain(e, r);
    }
  }

  lemma {:induction false} BarePlain(e: Expr, r: Option<Ty>)
    requires Typed(e) && Named(e) && (r.Some? ==> WrapType(e) == r)
    ensures Bare(TreeOf(PlainDoc(e, r))) == Shape(e)
    decreases e, 0
  {
    match e
    case Ident(n, _) => BareName(n);
    case Const(v, ty) => BareConst(v, ty);
    case Elem(b, i, _) =>
      BareTree(i, r);
      BareAt(CName(b), DocOf(i, r));
    case Binary(op, x, y) =>
      BareTree(x, r);
      BareTree(y, if Shifts(op) then None else r);
      BareInfix(op, x, y, r, DocOf(x, r), DocOf(y, if Shifts(op) then None else r));
    case Unary(op, x) =>
      BareTree(x, r);
      BarePrefix(op, x, r);
    case Conv(to, x) =>
      BareTree(x, r);
      BareCast(CTypeOf(to), DocOf(x, r));
  }

  lemma BarePrefix(op: Op, x: Expr, r: Option<Ty>)
    requires Bare(TreeOf(DocOf(x, r))) == Shape(x)
    ensures Bare(TreeOf(PlainDoc(Unary(op, x), r))) == Shape(Unary(op, x))
  {
    BareOperand(if op.Xor? then Tilde else op, DocOf(x, r));
  }

  lemma BareOperand(op: Op, d: Doc)
    ensures Bare(TreeOf(Prefix(op, AtLeast(C, d, PREFIX)))) == Un(op, Bare(TreeOf(d)))
  {
    BareAtLeast(d, PREFIX);
    BareUn(op, AtLeast(C, d, PREFIX));
  }

  lemma BareName(n: string)
    requires IsName(n)
    ensures Bare(Leaf(CName(n))) == Leaf(CName(n))
  {
    CNameIsName(n);
  }

  lemma BareAt(b: string, d: Doc)
    ensures Bare(TreeOf(Index(b, d))) == At(b, Bare(TreeOf(d)))
  {
    assert TreeOf(Index(b, d)) == At(b, TreeOf(d));
  }

  lemma BareInfix(op: Op, x: Expr, y: Expr, r: Option<Ty>, a: Doc, b: Doc)
    requires a == DocOf(x, r) && b == DocOf(y, if Shifts(op) then None else r)
    requires Bare(TreeOf(a)) == Shape(x) && Bare(TreeOf(b)) == Shape(y)
    ensures Bare(TreeOf(PlainDoc(Binary(op, x, y), r))) == Shape(Binary(op, x, y))
  {
    BareBinary(op, a, b);
    InfixDoc(op, x, y, r);
    InfixShape(op, x, y);
  }

  lemma InfixDoc(op: Op, x: Expr, y: Expr, r: Option<Ty>)
    ensures PlainDoc(Binary(op, x, y), r) == BinaryDoc(op, DocOf(x, r), DocOf(y, if Shifts(op) then None else r))
  {
    if Shifts(op) { assert !op.AndNot?; }
  }

  lemma InfixShape(op: Op, x: Expr, y: Expr)
    ensures Shape(Binary(op, x, y)) == BinaryShape(op, Shape(x), Shape(y))
  {
  }

  lemma BareBinary(op: Op, a: Doc, b: Doc)
    ensures Bare(TreeOf(BinaryDoc(op, a, b))) == BinaryShape(op, Bare(TreeOf(a)), Bare(TreeOf(b)))
  {
    if op.AndNot? { BareAndNot(a, b); } else { BareOperands(op, a, b); }
  }

  lemma BareAndNot(dx: Doc, dy: Doc)
    ensures Bare(TreeOf(Infix(And, AtLeast(C, dx, 8), Prefix(Tilde, AtLeast(C, dy, PREFIX))))) ==
      Bin(And, Bare(TreeOf(dx)), Un(Tilde, Bare(TreeOf(dy))))
  {
    BareAtLeast(dx, 8);
    BareOperand(Tilde, dy);
    BareBin(And, AtLeast(C, dx, 8), Prefix(Tilde, AtLeast(C, dy, PREFIX)));
  }

  lemma BareOperands(op: Op, dx: Doc, dy: Doc)
    ensures var p := BinPrec(C, op);
      Bare(TreeOf(Infix(op, AtLeast(C, dx, p), AtLeast(C, dy, p + 1)))) == Bin(op, Bare(TreeOf(dx)), Bare(TreeOf(dy)))
  {
    BareAtLeast(dx, BinPrec(C, op));
    BareAtLeast(dy, BinPrec(C, op) + 1);
    BareBin(op, AtLeast(C, dx, BinPrec(C, op)), AtLeast(C, dy, BinPrec(C, op) + 1));
  }

  /** The round trip end to end: the tree the emitted C denotes is the Go tree. */
  lemma EmittedGoTree(e: Expr) returns (t: Tree)
    requires Typed(e) && Named(e)
    ensures Denotes(C, Emit(e, None).s, t) && Bare(t) == Shape(e)
  {
    t := TreeOf(DocOf(e, None));
    EmittedTree(e);
    BareTree(e, None);
  }
}
