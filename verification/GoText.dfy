/** The Go printer of internal/fuzz/source.go: the same round trip under Go's own table. */
module GoText {
  import opened ExprText
  import opened ExprGrammar
  import opened Decimal

  datatype Expr =
    | Lit(v: int)
    | Truth(b: bool)
    | Ref(name: string)
    | Elem(base: string, idx: Expr)
    | Len(base: string)
    | Binary(op: Op, x: Expr, y: Expr)
    | Unary(op: Op, x: Expr)
    | Conv(to: string, x: Expr)

  const UNARY_PREC := 8

  predicate Named(e: Expr) {
    match e
    case Lit(_) => true
    case Truth(_) => true
    case Ref(n) => IsWord(n)
    case Elem(b, i) => IsWord(b) && Named(i)
    case Len(b) => IsWord(b)
    case Binary(op, x, y) => BinPrec(Go, op) > 0 && Named(x) && Named(y)
    case Unary(op, x) => IsUnary(Go, op) && Named(x)
    case Conv(to, x) => IsWord(to) && Named(x)
  }

  /** litText */
  function LitText(v: int): string { if v < 0 then "(" + (("-" + Dec(-v)) + ")") else Dec(v) }

  /** exprText: a binary node below min is wrapped, and so are a negative literal and a unary operand
      of a unary operator, whose signs would fuse. */
  function ExprString(e: Expr, min: nat): string {
    match e
    case Lit(v) => LitText(v)
    case Truth(b) => if b then "true" else "false"
    case Ref(n) => n
    case Elem(b, i) => b + ("[" + (ExprString(i, 0) + "]"))
    case Len(b) => "len" + ("(" + (b + ")"))
    case Binary(op, x, y) =>
      var p := BinPrec(Go, op);
      var s := ExprString(x, p) + (" " + (Spell(op) + (" " + ExprString(y, p + 1))));
      if p < min then "(" + (s + ")") else s
    case Unary(op, x) =>
      var s := ExprString(x, UNARY_PREC);
      Spell(op) + if x.Unary? then "(" + (s + ")") else s
    case Conv(to, x) => to + ("(" + (ExprString(x, 0) + ")"))
  }

  function DocOf(e: Expr, min: nat): Doc {
    match e
    case Lit(v) => if v < 0 then Paren(Prefix(Sub, Word(Dec(-v)))) else Word(Dec(v))
    case Truth(b) => Word(if b then "true" else "false")
    case Ref(n) => Word(n)
    case Elem(b, i) => Index(b, DocOf(i, 0))
    case Len(b) => Apply("len", Word(b))
    case Binary(op, x, y) =>
      var p := BinPrec(Go, op);
      var d := Infix(op, DocOf(x, p), DocOf(y, p + 1));
      if p < min then Paren(d) else d
    case Unary(op, x) => Prefix(op, if x.Unary? then Paren(DocOf(x, UNARY_PREC)) else DocOf(x, UNARY_PREC))
    case Conv(to, x) => Apply(to, DocOf(x, 0))
  }

  /** The tree the expression is, a negative literal being a signed one. */
  function Shape(e: Expr): Tree {
    match e
    case Lit(v) => if v < 0 then Un(Sub, Leaf(Dec(-v))) else Leaf(Dec(v))
    case Truth(b) => Leaf(if b then "true" else "false")
    case Ref(n) => Leaf(n)
    case Elem(b, i) => At(b, Shape(i))
    case Len(b) => Call("len", Leaf(b))
    case Binary(op, x, y) => Bin(op, Shape(x), Shape(y))
    case Unary(op, x) => Un(op, Shape(x))
    case Conv(to, x) => Call(to, Shape(x))
  }

  /** What a rendering at min is: no text starting with a sign unless it is a unary node, and an
      operator at least as tight as was asked for. */
  predicate Faithful(e: Expr, min: nat) {
    var d := DocOf(e, min);
    && WellFormed(Go, d) && Text(d) == ExprString(e, min) && TreeOf(d) == Shape(e)
    && Prec(Go, d) >= (if e.Binary? then min else PREFIX)
    && (e.Binary? ==> Prec(Go, d) <= 5 || Prec(Go, d) == ATOM)
    && (!e.Unary? && min >= UNARY_PREC ==> Text(d) != "" && Text(d)[0] != '-' && Text(d)[0] != '+')
  }

  lemma DigitsAreWord(n: nat)
    ensures IsWord(Dec(n)) && WellFormed(Go, Word(Dec(n))) && Dec(n)[0] != '-' && Dec(n)[0] != '+'
  {
    forall i | 0 <= i < |Dec(n)| ensures WordChar(Dec(n)[i]) { assert IsDigit(Dec(n)[i]); }
    assert IsDigit(Dec(n)[0]);
  }

  lemma SignedWord(w: string)
    requires IsWord(w) && WellFormed(Go, Word(w)) && w[0] != '-' && w[0] != '+'
    ensures var d := Prefix(Sub, Word(w)); WellFormed(Go, d) && Text(d) == "-" + w && TreeOf(d) == Un(Sub, Leaf(w))
  {
    assert Text(Word(w)) == w && TreeOf(Word(w)) == Leaf(w);
    PrefixIs(Sub, Word(w));
  }

  lemma NegativeFaithful(v: int, min: nat)
    requires v < 0
    ensures Faithful(Lit(v), min)
  {
    var d := Prefix(Sub, Word(Dec(-v)));
    DigitsAreWord(-v);
    SignedWord(Dec(-v));
    assert Text(Paren(d)) == "(" + (("-" + Dec(-v)) + ")") && TreeOf(Paren(d)) == TreeOf(d);
    assert Text(Paren(d))[0] == "("[0];
  }

  lemma DigitsFaithful(v: nat, min: nat)
    ensures Faithful(Lit(v), min)
  {
    DigitsAreWord(v);
    assert Text(Word(Dec(v))) == Dec(v) && TreeOf(Word(Dec(v))) == Leaf(Dec(v));
  }

  lemma LiteralFaithful(v: int, min: nat)
    ensures Faithful(Lit(v), min)
  {
    if v < 0 { NegativeFaithful(v, min); } else { DigitsFaithful(v, min); }
  }

  lemma WordsFaithful(e: Expr, min: nat)
    requires Named(e) && (e.Truth? || e.Ref? || e.Len?)
    ensures Faithful(e, min)
  {
    assert IsWord("true") && IsWord("false") && IsWord("len");
    if e.Ref? { assert WordChar(e.name[0]); }
    if e.Len? {
      assert WellFormed(Go, Word(e.base));
      assert Text(DocOf(e, min))[0] == 'l';
    }
  }

  lemma {:induction false} PrintFaithful(e: Expr, min: nat)
    requires Named(e) && min <= UNARY_PREC
    ensures Faithful(e, min)
  {
    match e
    case Lit(v) => LiteralFaithful(v, min);
    case Truth(_) => WordsFaithful(e, min);
    case Ref(_) => WordsFaithful(e, min);
    case Len(_) => WordsFaithful(e, min);
    case Elem(b, i) =>
      PrintFaithful(i, 0);
      BracketFaithful(e, i, min);
    case Binary(op, x, y) =>
      PrintFaithful(x, BinPrec(Go, op));
      PrintFaithful(y, BinPrec(Go, op) + 1);
      BinaryFaithful(op, x, y, min);
    case Unary(op, x) =>
      PrintFaithful(x, UNARY_PREC);
      UnaryFaithful(op, x, min);
    case Conv(to, x) =>
      PrintFaithful(x, 0);
      BracketFaithful(e, x, min);
  }

  lemma BracketFaithful(e: Expr, x: Expr, min: nat)
    requires Faithful(x, 0) && ((e.Elem? && e.idx == x && IsWord(e.base)) || (e.Conv? && e.x == x && IsWord(e.to)))
    ensures Faithful(e, min)
  {
    if e.Elem? { assert WordChar(e.base[0]); } else { assert WordChar(e.to[0]); }
  }

  lemma BinaryFaithful(op: Op, x: Expr, y: Expr, min: nat)
    requires BinPrec(Go, op) > 0 && Faithful(x, BinPrec(Go, op)) && Faithful(y, BinPrec(Go, op) + 1) && min <= UNARY_PREC
    ensures Faithful(Binary(op, x, y), min)
  {
    var p := BinPrec(Go, op);
    GoPrec(op);
    Tight(x, p);
    Tight(y, p + 1);
    BinaryIs(op, x, y, min, Infix(op, DocOf(x, p), DocOf(y, p + 1)), ExprString(x, p), ExprString(y, p + 1));
  }

  lemma Tight(x: Expr, p: nat)
    requires Faithful(x, p) && p <= 6
    ensures WellFormed(Go, DocOf(x, p)) && Prec(Go, DocOf(x, p)) >= p
    ensures Text(DocOf(x, p)) == ExprString(x, p) && TreeOf(DocOf(x, p)) == Shape(x)
  {
  }

  lemma BinaryIs(op: Op, x: Expr, y: Expr, min: nat, d: Doc, s: string, t: string)
    requires 0 < BinPrec(Go, op) <= 5 && min <= UNARY_PREC
    requires d.Infix? && d.op == op && d.l == DocOf(x, BinPrec(Go, op)) && d.r == DocOf(y, BinPrec(Go, op) + 1)
    requires s == ExprString(x, BinPrec(Go, op)) && t == ExprString(y, BinPrec(Go, op) + 1)
    requires WellFormed(Go, d.l) && Prec(Go, d.l) >= BinPrec(Go, op) && Text(d.l) == s && TreeOf(d.l) == Shape(x)
    requires WellFormed(Go, d.r) && Prec(Go, d.r) >= BinPrec(Go, op) + 1 && Text(d.r) == t && TreeOf(d.r) == Shape(y)
    ensures Faithful(Binary(op, x, y), min)
  {
    InfixIs(op, d.l, d.r);
    if BinPrec(Go, op) < min { ParenIs(d); }
    Shown(op, x, y, min, d, if BinPrec(Go, op) < min then Paren(d) else d, s, t);
  }

  lemma Shown(op: Op, x: Expr, y: Expr, min: nat, d: Doc, r: Doc, s: string, t: string)
    requires 0 < BinPrec(Go, op) <= 5 && min <= UNARY_PREC
    requires s == ExprString(x, BinPrec(Go, op)) && t == ExprString(y, BinPrec(Go, op) + 1)
    requires d == Infix(op, DocOf(x, BinPrec(Go, op)), DocOf(y, BinPrec(Go, op) + 1))
    requires r == if BinPrec(Go, op) < min then Paren(d) else d
    requires WellFormed(Go, r) && TreeOf(r) == Bin(op, Shape(x), Shape(y))
    requires Prec(Go, r) == (if BinPrec(Go, op) < min then ATOM else BinPrec(Go, op))
    requires var u := s + (" " + (Spell(op) + (" " + t))); Text(r) == if BinPrec(Go, op) < min then "(" + (u + ")") else u
    ensures Faithful(Binary(op, x, y), min)
  {
    assert DocOf(Binary(op, x, y), min) == r;
    if BinPrec(Go, op) < min { assert Text(r)[0] == "("[0]; }
  }

  lemma GoPrec(op: Op)
    ensures BinPrec(Go, op) <= 5
  {
  }

  lemma InfixIs(op: Op, a: Doc, b: Doc)
    requires BinPrec(Go, op) > 0 && WellFormed(Go, a) && WellFormed(Go, b)
    requires Prec(Go, a) >= BinPrec(Go, op) && Prec(Go, b) >= BinPrec(Go, op) + 1
    ensures var d := Infix(op, a, b);
      && WellFormed(Go, d) && Prec(Go, d) == BinPrec(Go, op)
      && Text(d) == Text(a) + (" " + (Spell(op) + (" " + Text(b)))) && TreeOf(d) == Bin(op, TreeOf(a), TreeOf(b))
  {
  }

  lemma ParenIs(d: Doc)
    requires WellFormed(Go, d)
    ensures WellFormed(Go, Paren(d)) && Prec(Go, Paren(d)) == ATOM && TreeOf(Paren(d)) == TreeOf(d)
    ensures Text(Paren(d)) == "(" + (Text(d) + ")") && Text(Paren(d))[0] == '('
  {
  }

  lemma UnaryFaithful(op: Op, x: Expr, min: nat)
    requires IsUnary(Go, op) && Faithful(x, UNARY_PREC)
    ensures Faithful(Unary(op, x), min)
  {
    var d := if x.Unary? then Paren(DocOf(x, UNARY_PREC)) else DocOf(x, UNARY_PREC);
    if x.Unary? { ParenIs(DocOf(x, UNARY_PREC)); }
    PrefixIs(op, d);
  }

  /** No sign meets another, so nothing separates the operator from its operand. */
  lemma PrefixIs(op: Op, a: Doc)
    requires IsUnary(Go, op) && WellFormed(Go, a) && Prec(Go, a) >= PREFIX
    requires Text(a) != "" && Text(a)[0] != '-' && Text(a)[0] != '+'
    ensures var d := Prefix(op, a);
      && WellFormed(Go, d) && Prec(Go, d) == PREFIX && Text(d) == Spell(op) + Text(a) && TreeOf(d) == Un(op, TreeOf(a))
  {
    assert UnarySep(op, Text(a)) == "" && "" + Text(a) == Text(a);
  }

  /** It writes no parenthesis but those, and those around a sign that could meet another. */
  lemma {:induction false} NoSpareParenthesis(e: Expr, min: nat)
    requires min <= UNARY_PREC
    ensures Sparing(Go, IsSigned, DocOf(e, min), min)
  {
    match e
    case Lit(_) =>
    case Truth(_) =>
    case Ref(_) =>
    case Elem(_, i) => NoSpareParenthesis(i, 0);
    case Len(_) =>
    case Binary(op, x, y) =>
      GoPrec(op);
      NoSpareParenthesis(x, BinPrec(Go, op));
      NoSpareParenthesis(y, BinPrec(Go, op) + 1);
    case Unary(_, x) => NoSpareParenthesis(x, UNARY_PREC);
    case Conv(_, x) => NoSpareParenthesis(x, 0);
  }

  predicate IsSigned(d: Doc) { d.Prefix? }

  /** The source the fuzzer writes denotes, in Go's grammar, exactly the expression. */
  lemma PrintedTree(e: Expr)
    requires Named(e)
    ensures Denotes(Go, ExprString(e, 0), Shape(e))
  {
    PrintFaithful(e, 0);
    RoundTrip(Go, DocOf(e, 0));
  }
}
