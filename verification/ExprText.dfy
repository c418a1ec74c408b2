/** Rendered expressions as text, and the way a compiler reads them back: maximal-munch lexing (ISO
    C++17 section 5.4) and parsing by operator precedence, for C's table and for Go's. */
module ExprText {

  datatype Lang = C | Go

  datatype Op =
    | Mul | Quo | Rem | Add | Sub | Shl | Shr | Lss | Leq | Gtr | Geq | Eql | Neq
    | And | Xor | Or | LAnd | LOr | AndNot | Not | Tilde
    | PlusPlus | MinusMinus                            // what signs that fuse become

  datatype CType = IntT | LongLongT | UIntT | ULongLongT

  /** A rendering before it is flattened to characters. */
  datatype Doc =
    | Word(w: string)                      // an identifier or a literal
    | Paren(d: Doc)
    | Infix(op: Op, l: Doc, r: Doc)
    | Prefix(op: Op, d: Doc)
    | Cast(ty: CType, d: Doc)
    | Index(buf: string, d: Doc)
    | Apply(f: string, d: Doc)             // a call of one argument

  /** What the text denotes. */
  datatype Tree =
    | Leaf(w: string)
    | Bin(op: Op, l: Tree, r: Tree)
    | Un(op: Op, t: Tree)
    | As(ty: CType, t: Tree)
    | At(buf: string, t: Tree)
    | Call(f: string, t: Tree)

  datatype Token = W(w: string) | O(op: Op) | Open | Close | OpenSq | CloseSq | Stray(s: string)

  const PREFIX := 14
  const POSTFIX := 15
  const ATOM := 16

  /** The precedence of a binary operator, 0 for anything else. */
  function BinPrec(lang: Lang, op: Op): nat {
    match op
    case Mul | Quo | Rem => if lang == C then 13 else 5
    case Add | Sub => if lang == C then 12 else 4
    case Shl | Shr => if lang == C then 11 else 5
    case Lss | Leq | Gtr | Geq => if lang == C then 10 else 3
    case Eql | Neq => if lang == C then 9 else 3
    case And => if lang == C then 8 else 5
    case Xor => if lang == C then 7 else 4
    case Or => if lang == C then 6 else 4
    case LAnd => if lang == C then 5 else 2
    case LOr => if lang == C then 4 else 1
    case AndNot => if lang == C then 0 else 5
    case _ => 0
  }

  predicate IsUnary(lang: Lang, op: Op) {
    op.Sub? || op.Add? || op.Not? || (if lang == C then op.Tilde? else op.Xor?)
  }

  predicate IsPrefix(lang: Lang, op: Op) { IsUnary(lang, op) || (lang == C && (op.PlusPlus? || op.MinusMinus?)) }

  function First(op: Op): char {
    match op
    case Mul => '*' case Quo => '/' case Rem => '%'
    case Add | PlusPlus => '+'
    case Sub | MinusMinus => '-'
    case Shl | Lss | Leq => '<'
    case Shr | Gtr | Geq => '>'
    case Eql => '='
    case Neq | Not => '!'
    case And | LAnd | AndNot => '&'
    case Or | LOr => '|'
    case Xor => '^'
    case Tilde => '~'
  }

  /** The second character, a space where there is none. */
  function Second(op: Op): char {
    match op
    case Shl => '<' case Shr => '>' case LAnd => '&' case LOr => '|' case PlusPlus => '+' case MinusMinus => '-'
    case Leq | Geq | Eql | Neq => '='
    case AndNot => '^'
    case _ => ' '
  }

  function Spell(op: Op): string { if Second(op) == ' ' then [First(op)] else [First(op), Second(op)] }

  function TypeText(ty: CType): string {
    match ty
    case IntT => "int"
    case LongLongT => Spaced("long", "long")
    case UIntT => Spaced("unsigned", "int")
    case ULongLongT => Spaced("unsigned", Spaced("long", "long"))
  }

  function Spaced(a: string, b: string): string { a + (" " + b) }

  function TypeTokens(ty: CType): seq<Token> {
    match ty
    case IntT => [W("int")]
    case LongLongT => [W("long"), W("long")]
    case UIntT => [W("unsigned"), W("int")]
    case ULongLongT => [W("unsigned"), W("long"), W("long")]
  }

  function Prec(lang: Lang, d: Doc): nat {
    match d
    case Word(_) => ATOM
    case Paren(_) => ATOM
    case Infix(op, _, _) => BinPrec(lang, op)
    case Prefix(_, _) => PREFIX
    case Cast(_, _) => PREFIX
    case Index(_, _) => POSTFIX
    case Apply(_, _) => ATOM
  }

  /** cexpr.at */
  function AtLeast(lang: Lang, d: Doc, min: nat): Doc {
    if Prec(lang, d) < min then Paren(d) else d
  }

  /** Every parenthesis of d, which stands where operators bind at least so tightly, is around what binds
      more loosely, or is a conversion's, or one that own accounts for. */
  predicate Sparing(lang: Lang, own: Doc -> bool, d: Doc, min: nat) {
    match d
    case Word(_) => true
    case Paren(x) => (Prec(lang, x) < min || own(x)) && Sparing(lang, own, x, 0)
    case Infix(op, l, r) => Sparing(lang, own, l, BinPrec(lang, op)) && Sparing(lang, own, r, BinPrec(lang, op) + 1)
    case Prefix(_, x) => Sparing(lang, own, x, PREFIX)
    case Cast(_, x) => Sparing(lang, own, if x.Paren? then x.d else x, 0)
    case Index(_, x) => Sparing(lang, own, x, 0)
    case Apply(_, x) => Sparing(lang, own, x, 0)
  }

  predicate WordChar(c: char) {
    'a' <= c <= 'z' || 'A' <= c <= 'Z' || '0' <= c <= '9' || c == '_' || c >= '\U{0080}'
  }

  predicate IsWord(w: string) { w != "" && forall i :: 0 <= i < |w| ==> WordChar(w[i]) }

  predicate TypeWord(w: string) { w == "int" || w == "unsigned" || w == "long" }

  /** Words a parenthesis would turn into a cast. */
  predicate Reserved(lang: Lang, w: string) { lang == C && TypeWord(w) }

  /** The renderings whose parentheses are where the grammar needs them. */
  predicate WellFormed(lang: Lang, d: Doc) {
    match d
    case Word(w) => IsWord(w) && !Reserved(lang, w)
    case Paren(x) => WellFormed(lang, x)
    case Infix(op, l, r) =>
      && BinPrec(lang, op) > 0
      && WellFormed(lang, l) && Prec(lang, l) >= BinPrec(lang, op)
      && WellFormed(lang, r) && Prec(lang, r) > BinPrec(lang, op)
    case Prefix(op, x) => IsUnary(lang, op) && WellFormed(lang, x) && Prec(lang, x) >= PREFIX
    case Cast(_, x) => lang == C && WellFormed(lang, x) && Prec(lang, x) >= PREFIX
    case Index(b, x) => IsWord(b) && !Reserved(lang, b) && WellFormed(lang, x)
    case Apply(f, x) => IsWord(f) && !Reserved(lang, f) && WellFormed(lang, x)
  }

  /** What the tokens of a rendering need for that; a sign that fused with another would be one of the
      increments. */
  predicate Grammatical(lang: Lang, d: Doc) {
    match d
    case Word(w) => !Reserved(lang, w)
    case Paren(x) => Grammatical(lang, x)
    case Infix(op, l, r) =>
      && BinPrec(lang, op) > 0
      && Grammatical(lang, l) && Prec(lang, l) >= BinPrec(lang, op)
      && Grammatical(lang, r) && Prec(lang, r) > BinPrec(lang, op)
    case Prefix(op, x) => IsPrefix(lang, op) && Grammatical(lang, x) && Prec(lang, x) >= PREFIX
    case Cast(_, x) => lang == C && Grammatical(lang, x) && Prec(lang, x) >= PREFIX
    case Index(b, x) => !Reserved(lang, b) && Grammatical(lang, x)
    case Apply(f, x) => !Reserved(lang, f) && Grammatical(lang, x)
  }

  lemma {:induction false} WellFormedIsGrammatical(lang: Lang, d: Doc)
    requires WellFormed(lang, d)
    ensures Grammatical(lang, d)
  {
    match d
    case Word(_) =>
    case Paren(x) => WellFormedIsGrammatical(lang, x);
    case Infix(_, l, r) => WellFormedIsGrammatical(lang, l); WellFormedIsGrammatical(lang, r);
    case Prefix(_, x) => WellFormedIsGrammatical(lang, x);
    case Cast(_, x) => WellFormedIsGrammatical(lang, x);
    case Index(_, x) => WellFormedIsGrammatical(lang, x);
    case Apply(_, x) => WellFormedIsGrammatical(lang, x);
  }

  // Flattening

  /** unarySep: the space that keeps - - and + + two tokens. */
  function UnarySep(op: Op, operand: string): string {
    if operand != "" && ((op.Sub? && operand[0] == '-') || (op.Add? && operand[0] == '+')) then " " else ""
  }

  function Text(d: Doc): string {
    match d
    case Word(w) => w
    case Paren(x) => "(" + (Text(x) + ")")
    case Infix(op, l, r) => Text(l) + (" " + (Spell(op) + (" " + Text(r))))
    case Prefix(op, x) => Spell(op) + (UnarySep(op, Text(x)) + Text(x))
    case Cast(ty, x) => "(" + (TypeText(ty) + (")" + Text(x)))
    case Index(b, x) => b + ("[" + (Text(x) + "]"))
    case Apply(f, x) => f + ("(" + (Text(x) + ")"))
  }

  function Tokens(d: Doc): seq<Token> {
    match d
    case Word(w) => [W(w)]
    case Paren(x) => [Open] + (Tokens(x) + [Close])
    case Infix(op, l, r) => Tokens(l) + ([O(op)] + Tokens(r))
    case Prefix(op, x) => [O(op)] + Tokens(x)
    case Cast(ty, x) => [Open] + (TypeTokens(ty) + ([Close] + Tokens(x)))
    case Index(b, x) => [W(b)] + ([OpenSq] + (Tokens(x) + [CloseSq]))
    case Apply(f, x) => [W(f)] + ([Open] + (Tokens(x) + [Close]))
  }

  function TreeOf(d: Doc): Tree {
    match d
    case Word(w) => Leaf(w)
    case Paren(x) => TreeOf(x)
    case Infix(op, l, r) => Bin(op, TreeOf(l), TreeOf(r))
    case Prefix(op, x) => Un(op, TreeOf(x))
    case Cast(ty, x) => As(ty, TreeOf(x))
    case Index(b, x) => At(b, TreeOf(x))
    case Apply(f, x) => Call(f, TreeOf(x))
  }

  // Lexing

  /** The operators of one, two and three characters; a character is padded with spaces, which no
      operator contains. */
  function One(c: char): Token {
    if c == '(' then Open else if c == ')' then Close else if c == '[' then OpenSq else if c == ']' then CloseSq
    else if c == '*' then O(Mul) else if c == '/' then O(Quo) else if c == '%' then O(Rem)
    else if c == '+' then O(Add) else if c == '-' then O(Sub) else if c == '<' then O(Lss)
    else if c == '>' then O(Gtr) else if c == '&' then O(And) else if c == '^' then O(Xor)
    else if c == '|' then O(Or) else if c == '!' then O(Not) else if c == '~' then O(Tilde)
    else Stray([c])
  }

  const NONE := Stray("")

  /** A token of two characters, or NONE. */
  function Two(lang: Lang, c: char, d: char): Token {
    if d == '=' then
      if c == '<' then O(Leq) else if c == '>' then O(Geq) else if c == '=' then O(Eql) else if c == '!' then O(Neq)
      else if c == '+' || c == '-' || c == '*' || c == '/' || c == '%' || c == '&' || c == '|' || c == '^' || c == ':'
      then Stray([c, d]) else NONE
    else if c == d then
      if c == '+' then O(PlusPlus) else if c == '-' then O(MinusMinus) else if c == '<' then O(Shl) else if c == '>' then O(Shr)
      else if c == '&' then O(LAnd) else if c == '|' then O(LOr) else if c == ':' then Stray([c, d]) else NONE
    else if lang == Go && c == '&' && d == '^' then O(AndNot)
    else if (lang == Go && c == '<' && d == '-') || (lang == C && c == '-' && d == '>') then Stray([c, d])
    else NONE
  }

  predicate Three(lang: Lang, c: char, d: char, e: char) {
    || (c == d && (c == '<' || c == '>') && e == '=')
    || (c == '.' && d == '.' && e == '.')
    || (lang == C && c == '<' && d == '=' && e == '>')
    || (lang == C && c == '-' && d == '>' && e == '*')
    || (lang == Go && c == '&' && d == '^' && e == '=')
  }

  function CharAt(s: string, i: nat): char { if i < |s| then s[i] else ' ' }

  function WordLength(s: string): (n: nat)
    ensures n <= |s|
  {
    if s != "" && WordChar(s[0]) then 1 + WordLength(s[1..]) else 0
  }

  /** The longest token s can start with, and its length. */
  function Munch(lang: Lang, s: string): (r: (Token, nat))
    requires s != ""
    ensures 0 < r.1 <= |s|
  {
    var c, d, e := s[0], CharAt(s, 1), CharAt(s, 2);
    if WordChar(c) then (W(s[..WordLength(s)]), WordLength(s))
    else if Three(lang, c, d, e) then (Stray([c, d, e]), 3)
    else if Two(lang, c, d) != NONE then (Two(lang, c, d), 2)
    else (One(c), 1)
  }

  function Lex(lang: Lang, s: string): seq<Token> {
    if s == "" then []
    else if s[0] == ' ' then Lex(lang, s[1..])
    else [Munch(lang, s).0] + Lex(lang, s[Munch(lang, s).1..])
  }

  // Parsing

  datatype Parse = Fail | Ok(t: Tree, rest: seq<Token>)

  /** The type the tokens start with, and how many of them spell it; 0 for none. */
  function TypeAt(ts: seq<Token>): (r: (CType, nat))
    ensures r.1 <= |ts|
  {
    if |ts| >= 1 && ts[0] == W("int") then (IntT, 1)
    else if |ts| >= 2 && ts[0] == W("long") && ts[1] == W("long") then (LongLongT, 2)
    else if |ts| >= 2 && ts[0] == W("unsigned") && ts[1] == W("int") then (UIntT, 2)
    else if |ts| >= 3 && ts[0] == W("unsigned") && ts[1] == W("long") && ts[2] == W("long") then (ULongLongT, 3)
    else (IntT, 0)
  }

  /** Whether the tokens after an open parenthesis close a cast. */
  predicate IsCast(lang: Lang, ts: seq<Token>) {
    lang == C && TypeAt(ts).1 > 0 && TypeAt(ts).1 < |ts| && ts[TypeAt(ts).1] == Close
  }

  /** A prefix expression: the tokens that read as unary operators include the increments a fused
      sign would make. */
  function ParsePrefix(lang: Lang, ts: seq<Token>): (r: Parse)
    ensures r.Ok? ==> |r.rest| < |ts|
    decreases |ts|, 0
  {
    if ts == [] then Fail else
      match ts[0]
      case O(op) =>
        if IsPrefix(lang, op) then
          var r := ParsePrefix(lang, ts[1..]);
          if r.Fail? then r else Ok(Un(op, r.t), r.rest)
        else Fail
      case Open =>
        if IsCast(lang, ts[1..]) then
          var r := ParsePrefix(lang, ts[TypeAt(ts[1..]).1 + 2..]);
          if r.Fail? then r else Ok(As(TypeAt(ts[1..]).0, r.t), r.rest)
        else Closed(lang, ts[1..], Close)
      case W(w) =>
        if Reserved(lang, w) then Fail
        else if |ts| > 1 && ts[1] == OpenSq then
          var r := Closed(lang, ts[2..], CloseSq);
          if r.Fail? then r else Ok(At(w, r.t), r.rest)
        else if |ts| > 1 && ts[1] == Open then
          var r := Closed(lang, ts[2..], Close);
          if r.Fail? then r else Ok(Call(w, r.t), r.rest)
        else Ok(Leaf(w), ts[1..])
      case _ => Fail
  }

  /** An expression and the bracket that closes it. */
  function Closed(lang: Lang, ts: seq<Token>, close: Token): (r: Parse)
    ensures r.Ok? ==> |r.rest| < |ts|
    decreases |ts|, 2
  {
    var r := ParseExpr(lang, 0, ts);
    if r.Fail? || r.rest == [] || r.rest[0] != close then Fail else Ok(r.t, r.rest[1..])
  }

  function HeadPrec(lang: Lang, ts: seq<Token>): nat {
    if ts != [] && ts[0].O? then BinPrec(lang, ts[0].op) else 0
  }

  /** An expression whose outermost operators bind at least as tightly as min. */
  function ParseExpr(lang: Lang, min: nat, ts: seq<Token>): (r: Parse)
    ensures r.Ok? ==> |r.rest| < |ts|
    decreases |ts|, 1
  {
    var r := ParsePrefix(lang, ts);
    if r.Fail? then r else Climb(lang, min, r.t, r.rest)
  }

  /** Left-associative operators of at least min, with t already read on their left. */
  function Climb(lang: Lang, min: nat, t: Tree, ts: seq<Token>): (r: Parse)
    ensures r.Ok? ==> |r.rest| <= |ts|
    decreases |ts|, 0
  {
    var p := HeadPrec(lang, ts);
    if p == 0 || p < min then Ok(t, ts)
    else
      var r := ParseExpr(lang, p + 1, ts[1..]);
      if r.Fail? then r else Climb(lang, min, Bin(ts[0].op, t, r.t), r.rest)
  }

  /** The whole of a text, read as one expression. */
  function Read(lang: Lang, s: string): Parse {
    var r := ParseExpr(lang, 0, Lex(lang, s));
    if r.Ok? && r.rest != [] then Fail else r
  }

  // The lexer undoes flattening: a rendering is a row of tokens and spaces in which no token can be
  // made longer by the character that follows it.

  datatype Piece = Space | T(t: Token)

  function Spelling(t: Token): string {
    match t
    case W(w) => w
    case O(op) => Spell(op)
    case Open => "(" case Close => ")" case OpenSq => "[" case CloseSq => "]"
    case Stray(w) => w
  }

  function PieceText(p: Piece): string { if p.Space? then " " else Spelling(p.t) }

  function Flat(ps: seq<Piece>): string { if ps == [] then "" else PieceText(ps[0]) + Flat(ps[1..]) }

  function TokensIn(ps: seq<Piece>): seq<Token> {
    if ps == [] then [] else (if ps[0].Space? then [] else [ps[0].t]) + TokensIn(ps[1..])
  }

  function Pieces(d: Doc): seq<Piece> {
    match d
    case Word(w) => [T(W(w))]
    case Paren(x) => [T(Open)] + (Pieces(x) + [T(Close)])
    case Infix(op, l, r) => Pieces(l) + ([Space] + ([T(O(op))] + ([Space] + Pieces(r))))
    case Prefix(op, x) => [T(O(op))] + (if UnarySep(op, Text(x)) == "" then Pieces(x) else [Space] + Pieces(x))
    case Cast(ty, x) => [T(Open)] + (TypePieces(ty) + ([T(Close)] + Pieces(x)))
    case Index(b, x) => [T(W(b))] + ([T(OpenSq)] + (Pieces(x) + [T(CloseSq)]))
    case Apply(f, x) => [T(W(f))] + ([T(Open)] + (Pieces(x) + [T(Close)]))
  }

  function TypePieces(ty: CType): seq<Piece> {
    match ty
    case IntT => [T(W("int"))]
    case LongLongT => SpacedPieces("long", [T(W("long"))])
    case UIntT => SpacedPieces("unsigned", [T(W("int"))])
    case ULongLongT => SpacedPieces("unsigned", SpacedPieces("long", [T(W("long"))]))
  }

  function SpacedPieces(a: string, ps: seq<Piece>): seq<Piece> { [T(W(a))] + ([Space] + ps) }

  lemma FlatOne(p: Piece, b: seq<Piece>)
    ensures Flat([p] + b) == PieceText(p) + Flat(b)
    ensures TokensIn([p] + b) == (if p.Space? then [] else [p.t]) + TokensIn(b)
  {
    assert ([p] + b)[1..] == b;
  }

  lemma FlatLast(p: Piece)
    ensures Flat([p]) == PieceText(p) && (p.T? ==> TokensIn([p]) == [p.t])
  {
    FlatOne(p, []);
    assert [p] + [] == [p];
  }

  lemma Associate<A>(a: seq<A>, b: seq<A>, c: seq<A>)
    ensures (a + b) + c == a + (b + c)
  {
  }

  lemma {:induction false} FlatJoin(a: seq<Piece>, b: seq<Piece>)
    ensures Flat(a + b) == Flat(a) + Flat(b)
  {
    if a == [] {
      assert a + b == b;
    } else {
      FlatJoin(a[1..], b);
      assert (a + b)[1..] == a[1..] + b;
      Associate(PieceText(a[0]), Flat(a[1..]), Flat(b));
    }
  }

  lemma {:induction false} TokensJoin(a: seq<Piece>, b: seq<Piece>)
    ensures TokensIn(a + b) == TokensIn(a) + TokensIn(b)
  {
    if a == [] {
      assert a + b == b;
    } else {
      TokensJoin(a[1..], b);
      assert (a + b)[1..] == a[1..] + b;
      Associate(if a[0].Space? then [] else [a[0].t], TokensIn(a[1..]), TokensIn(b));
    }
  }

  lemma FlatWords(a: string, ps: seq<Piece>)
    ensures Flat(SpacedPieces(a, ps)) == Spaced(a, Flat(ps)) && TokensIn(SpacedPieces(a, ps)) == [W(a)] + TokensIn(ps)
  {
    FlatOne(Space, ps);
    FlatOne(T(W(a)), [Space] + ps);
  }

  lemma FlatType(ty: CType)
    ensures Flat(TypePieces(ty)) == TypeText(ty) && TokensIn(TypePieces(ty)) == TypeTokens(ty)
  {
    FlatLast(T(W("int")));
    FlatLast(T(W("long")));
    match ty
    case IntT =>
    case LongLongT => FlatWords("long", [T(W("long"))]);
    case UIntT => FlatWords("unsigned", [T(W("int"))]);
    case ULongLongT =>
      FlatWords("long", [T(W("long"))]);
      FlatWords("unsigned", SpacedPieces("long", [T(W("long"))]));
  }

  /** The pieces of a rendering spell it. */
  lemma {:induction false} FlatDoc(d: Doc)
    ensures Flat(Pieces(d)) == Text(d) && TokensIn(Pieces(d)) == Tokens(d)
  {
    match d
    case Word(w) => FlatLast(T(W(w)));
    case Infix(op, l, r) => FlatDoc(l); FlatDoc(r); FlatInfix(Pieces(l), T(O(op)), Pieces(r));
    case Prefix(op, x) => FlatDoc(x); FlatPrefix(T(O(op)), Pieces(x), UnarySep(op, Text(x)));
    case Cast(ty, x) => FlatDoc(x); FlatType(ty); FlatCast(TypePieces(ty), Pieces(x));
    case Paren(x) => FlatDoc(x); FlatGroup(T(Open), Pieces(x), T(Close));
    case Index(b, x) => FlatDoc(x); FlatGroup(T(OpenSq), Pieces(x), T(CloseSq));
      FlatOne(T(W(b)), [T(OpenSq)] + (Pieces(x) + [T(CloseSq)]));
    case Apply(f, x) => FlatDoc(x); FlatGroup(T(Open), Pieces(x), T(Close));
      FlatOne(T(W(f)), [T(Open)] + (Pieces(x) + [T(Close)]));
  }

  lemma FlatPrefix(op: Piece, x: seq<Piece>, sep: string)
    requires op.T? && (sep == "" || sep == " ")
    ensures Flat([op] + if sep == "" then x else [Space] + x) == PieceText(op) + (sep + Flat(x))
    ensures TokensIn([op] + if sep == "" then x else [Space] + x) == [op.t] + TokensIn(x)
  {
    FlatOne(op, if sep == "" then x else [Space] + x);
    FlatOne(Space, x);
    assert sep == "" ==> sep + Flat(x) == Flat(x);
  }

  lemma FlatGroup(open: Piece, x: seq<Piece>, close: Piece)
    requires open.T? && close.T?
    ensures Flat([open] + (x + [close])) == PieceText(open) + (Flat(x) + PieceText(close))
    ensures TokensIn([open] + (x + [close])) == [open.t] + (TokensIn(x) + [close.t])
  {
    FlatOne(open, x + [close]);
    FlatJoin(x, [close]);
    TokensJoin(x, [close]);
    FlatLast(close);
  }

  lemma FlatInfix(l: seq<Piece>, op: Piece, r: seq<Piece>)
    requires op.T?
    ensures Flat(l + ([Space] + ([op] + ([Space] + r)))) == Flat(l) + (" " + (PieceText(op) + (" " + Flat(r))))
    ensures TokensIn(l + ([Space] + ([op] + ([Space] + r)))) == TokensIn(l) + ([op.t] + TokensIn(r))
  {
    var mid := [Space] + ([op] + ([Space] + r));
    FlatJoin(l, mid);
    TokensJoin(l, mid);
    FlatOne(Space, r);
    FlatOne(op, [Space] + r);
    FlatOne(Space, [op] + ([Space] + r));
    assert [] + TokensIn(r) == TokensIn(r);
    assert [] + TokensIn([op] + ([Space] + r)) == TokensIn([op] + ([Space] + r));
  }

  lemma FlatCast(ty: seq<Piece>, x: seq<Piece>)
    ensures Flat([T(Open)] + (ty + ([T(Close)] + x))) == "(" + (Flat(ty) + (")" + Flat(x)))
    ensures TokensIn([T(Open)] + (ty + ([T(Close)] + x))) == [Open] + (TokensIn(ty) + ([Close] + TokensIn(x)))
  {
    FlatOne(T(Close), x);
    FlatJoin(ty, [T(Close)] + x);
    TokensJoin(ty, [T(Close)] + x);
    FlatOne(T(Open), ty + ([T(Close)] + x));
  }

  /** Whether token t ends where it is written when the next character is c. */
  predicate Ends(lang: Lang, t: Token, c: char) {
    match t
    case W(w) => IsWord(w) && !WordChar(c)
    case O(op) =>
      if Second(op) == ' ' then One(First(op)) == t && Two(lang, First(op), c) == NONE
      else Two(lang, First(op), Second(op)) == t && !Three(lang, First(op), Second(op), c)
    case Stray(_) => false
    case _ => true
  }

  function Head(ps: seq<Piece>, next: char): char {
    if ps == [] then next else CharAt(PieceText(ps[0]), 0)
  }

  /** Every token of ps ends where it is written, ps being followed by the character next. */
  predicate Apart(lang: Lang, ps: seq<Piece>, next: char) {
    ps == [] || ((ps[0].T? ==> Ends(lang, ps[0].t, Head(ps[1..], next))) && Apart(lang, ps[1..], next))
  }

  lemma {:induction false} ApartJoin(lang: Lang, a: seq<Piece>, b: seq<Piece>, next: char)
    requires Apart(lang, a, Head(b, next)) && Apart(lang, b, next)
    ensures Apart(lang, a + b, next) && Head(a + b, next) == Head(a, Head(b, next))
  {
    if a == [] {
      assert a + b == b;
    } else {
      ApartJoin(lang, a[1..], b, next);
      assert (a + b)[1..] == a[1..] + b;
    }
  }

  lemma LexWord(lang: Lang, w: string, rest: string)
    requires IsWord(w) && (rest == "" || !WordChar(rest[0]))
    ensures Lex(lang, w + rest) == [W(w)] + Lex(lang, rest)
  {
    var s := w + rest;
    WordLengthIs(w, rest);
    assert s[..|w|] == w && s[|w|..] == rest;
    assert s[0] == w[0];
  }

  lemma {:induction false} WordLengthIs(w: string, rest: string)
    requires (forall i :: 0 <= i < |w| ==> WordChar(w[i])) && (rest == "" || !WordChar(rest[0]))
    ensures WordLength(w + rest) == |w|
  {
    if w == "" {
      assert w + rest == rest;
    } else {
      WordLengthIs(w[1..], rest);
      assert (w + rest)[1..] == w[1..] + rest;
    }
  }

  lemma MunchOp(lang: Lang, t: Token, s: string)
    requires !t.W? && Spelling(t) != "" && |Spelling(t)| <= |s| && s[..|Spelling(t)|] == Spelling(t)
    requires Ends(lang, t, CharAt(s, |Spelling(t)|))
    ensures s[0] != ' ' && Munch(lang, s) == (t, |Spelling(t)|)
  {
    var w := Spelling(t);
    assert s[0] == w[0];
    if |w| == 2 { assert s[1] == w[1]; }
  }

  /** The first token of a text is the one written there. */
  lemma LexToken(lang: Lang, t: Token, rest: string)
    requires Ends(lang, t, CharAt(rest, 0))
    ensures Lex(lang, Spelling(t) + rest) == [t] + Lex(lang, rest)
  {
    var w := Spelling(t);
    var s := w + rest;
    if t.W? {
      LexWord(lang, w, rest);
    } else {
      assert s[..|w|] == w && s[|w|..] == rest && CharAt(s, |w|) == CharAt(rest, 0);
      MunchOp(lang, t, s);
    }
  }

  lemma {:induction false} HeadIs(ps: seq<Piece>, next: char)
    requires next == ' ' && forall p :: p in ps ==> PieceText(p) != ""
    ensures Head(ps, next) == CharAt(Flat(ps), 0)
  {
  }

  /** Reading a row of pieces that stand apart gives exactly its tokens: no two of them fuse. */
  lemma {:induction false} LexFlat(lang: Lang, ps: seq<Piece>)
    requires Apart(lang, ps, ' ') && forall p :: p in ps ==> PieceText(p) != ""
    ensures Lex(lang, Flat(ps)) == TokensIn(ps)
  {
    if ps != [] {
      LexFlat(lang, ps[1..]);
      HeadIs(ps[1..], ' ');
      LexPiece(lang, ps[0], Flat(ps[1..]));
    }
  }

  lemma LexPiece(lang: Lang, p: Piece, rest: string)
    requires p.T? ==> Ends(lang, p.t, CharAt(rest, 0))
    ensures Lex(lang, PieceText(p) + rest) == (if p.Space? then [] else [p.t]) + Lex(lang, rest)
  {
    if p.T? {
      LexToken(lang, p.t, rest);
    } else {
      assert (" " + rest)[1..] == rest;
    }
  }

  /** How a rendering begins. */
  predicate OperandStart(c: char) {
    WordChar(c) || c == '(' || c == '-' || c == '+' || c == '!' || c == '~' || c == '^'
  }

  predicate Delimiter(c: char) { c == ' ' || c == ')' || c == ']' }

  predicate Spelled(ps: seq<Piece>) { forall p :: p in ps ==> PieceText(p) != "" }

  lemma {:induction false} TextHead(d: Doc, next: char)
    requires Spelled(Pieces(d)) && Pieces(d) != []
    ensures CharAt(Text(d), 0) == Head(Pieces(d), next)
  {
    FlatDoc(d);
    assert Pieces(d)[0] in Pieces(d);
  }

  lemma InfixEnds(lang: Lang, op: Op)
    requires BinPrec(lang, op) > 0
    ensures Ends(lang, O(op), ' ') && Spell(op) != ""
  {
  }

  lemma PrefixEnds(lang: Lang, op: Op, c: char)
    requires IsUnary(lang, op) && OperandStart(c)
    ensures (op.Sub? && c == '-') || (op.Add? && c == '+') || Ends(lang, O(op), c)
    ensures Ends(lang, O(op), ' ') && OperandStart(Spell(op)[0])
  {
  }

  lemma TypeApart(lang: Lang, ty: CType)
    ensures Apart(lang, TypePieces(ty), ')') && Spelled(TypePieces(ty)) && TypePieces(ty) != []
  {
    match ty
    case IntT =>
    case LongLongT => ApartWords(lang, "long", [T(W("long"))], ')');
    case UIntT => ApartWords(lang, "unsigned", [T(W("int"))], ')');
    case ULongLongT =>
      ApartWords(lang, "long", [T(W("long"))], ')');
      ApartWords(lang, "unsigned", SpacedPieces("long", [T(W("long"))]), ')');
  }

  lemma ApartWords(lang: Lang, a: string, ps: seq<Piece>, next: char)
    requires IsWord(a) && Apart(lang, ps, next) && Spelled(ps)
    ensures Apart(lang, SpacedPieces(a, ps), next) && Spelled(SpacedPieces(a, ps))
  {
    ApartOne(lang, Space, ps, next);
    ApartOne(lang, T(W(a)), [Space] + ps, next);
  }

  lemma ApartOne(lang: Lang, p: Piece, b: seq<Piece>, next: char)
    requires Apart(lang, b, next) && (p.T? ==> Ends(lang, p.t, Head(b, next)))
    ensures Apart(lang, [p] + b, next)
  {
    assert ([p] + b)[1..] == b;
  }

  /** In a well-formed rendering the tokens stand apart. */
  lemma {:induction false} ApartDoc(lang: Lang, d: Doc, next: char)
    requires WellFormed(lang, d) && Delimiter(next)
    ensures Apart(lang, Pieces(d), next) && Spelled(Pieces(d))
    ensures Pieces(d) != [] && OperandStart(Head(Pieces(d), next))
    decreases d, 1
  {
    match d
    case Word(w) =>
    case Paren(x) => ApartGroup(lang, T(Open), x, T(Close), next);
    case Infix(op, l, r) => ApartInfix(lang, d, next);
    case Prefix(op, x) => ApartPrefix(lang, d, next);
    case Cast(ty, x) => ApartCast(lang, d, next);
    case Index(b, x) =>
      ApartGroup(lang, T(OpenSq), x, T(CloseSq), next);
      ApartOne(lang, T(W(b)), [T(OpenSq)] + (Pieces(x) + [T(CloseSq)]), next);
    case Apply(f, x) =>
      ApartGroup(lang, T(Open), x, T(Close), next);
      ApartOne(lang, T(W(f)), [T(Open)] + (Pieces(x) + [T(Close)]), next);
  }

  lemma {:induction false} ApartGroup(lang: Lang, open: Piece, x: Doc, close: Piece, next: char)
    requires WellFormed(lang, x) && Delimiter(next)
    requires (open == T(Open) && close == T(Close)) || (open == T(OpenSq) && close == T(CloseSq))
    ensures var ps := [open] + (Pieces(x) + [close]); Apart(lang, ps, next) && Spelled(ps)
    decreases x, 2
  {
    var c := CharAt(PieceText(close), 0);
    ApartDoc(lang, x, c);
    assert Head([close], next) == c && Apart(lang, [close], next);
    ApartJoin(lang, Pieces(x), [close], next);
    ApartOne(lang, open, Pieces(x) + [close], next);
  }

  lemma {:induction false} ApartInfix(lang: Lang, d: Doc, next: char)
    requires d.Infix? && WellFormed(lang, d) && Delimiter(next)
    ensures Apart(lang, Pieces(d), next) && Spelled(Pieces(d))
    ensures Pieces(d) != [] && OperandStart(Head(Pieces(d), next))
    decreases d, 0
  {
    var op, r := T(O(d.op)), Pieces(d.r);
    ApartDoc(lang, d.l, ' ');
    ApartDoc(lang, d.r, next);
    InfixEnds(lang, d.op);
    ApartOne(lang, Space, r, next);
    ApartOne(lang, op, [Space] + r, next);
    ApartOne(lang, Space, [op] + ([Space] + r), next);
    ApartJoin(lang, Pieces(d.l), [Space] + ([op] + ([Space] + r)), next);
  }

  lemma {:induction false} ApartPrefix(lang: Lang, d: Doc, next: char)
    requires d.Prefix? && WellFormed(lang, d) && Delimiter(next)
    ensures Apart(lang, Pieces(d), next) && Spelled(Pieces(d))
    ensures Pieces(d) != [] && OperandStart(Head(Pieces(d), next))
    decreases d, 0
  {
    var op, x := T(O(d.op)), Pieces(d.d);
    ApartDoc(lang, d.d, next);
    TextHead(d.d, next);
    PrefixEnds(lang, d.op, Head(x, next));
    ApartOne(lang, Space, x, next);
    ApartOne(lang, op, if UnarySep(d.op, Text(d.d)) == "" then x else [Space] + x, next);
  }

  lemma {:induction false} ApartCast(lang: Lang, d: Doc, next: char)
    requires d.Cast? && WellFormed(lang, d) && Delimiter(next)
    ensures Apart(lang, Pieces(d), next) && Spelled(Pieces(d))
    ensures Pieces(d) != [] && OperandStart(Head(Pieces(d), next))
    decreases d, 0
  {
    var x := Pieces(d.d);
    ApartDoc(lang, d.d, next);
    TypeApart(lang, d.ty);
    ApartOne(lang, T(Close), x, next);
    ApartJoin(lang, TypePieces(d.ty), [T(Close)] + x, next);
    ApartOne(lang, T(Open), TypePieces(d.ty) + ([T(Close)] + x), next);
  }

  /** Lexing the text of a well-formed rendering gives the tokens that were meant. */
  lemma LexText(lang: Lang, d: Doc)
    requires WellFormed(lang, d)
    ensures Lex(lang, Text(d)) == Tokens(d)
  {
    ApartDoc(lang, d, ' ');
    LexFlat(lang, Pieces(d));
    FlatDoc(d);
  }

  // The parser undoes Tokens.

  predicate NotPostfix(rest: seq<Token>) { rest == [] || (rest[0] != OpenSq && rest[0] != Open) }

  lemma {:induction false} FirstToken(lang: Lang, d: Doc)
    requires Grammatical(lang, d)
    ensures Tokens(d) != [] && (Tokens(d)[0].W? ==> !Reserved(lang, Tokens(d)[0].w))
  {
    match d
    case Infix(_, l, _) => FirstToken(lang, l);
    case _ =>
  }

  lemma CastTokens(ty: CType, rest: seq<Token>)
    ensures TypeAt(TypeTokens(ty) + rest) == (ty, |TypeTokens(ty)|)
  {
    assert "int" != "long" && "int" != "unsigned" && "long" != "unsigned";
  }

  lemma ReadPrefix(lang: Lang, op: Op, ts: seq<Token>, r: Parse)
    requires IsPrefix(lang, op) && r.Ok? && ParsePrefix(lang, ts) == r
    ensures ParsePrefix(lang, [O(op)] + ts) == Ok(Un(op, r.t), r.rest)
  {
    assert ([O(op)] + ts)[1..] == ts;
  }

  lemma ReadParen(lang: Lang, ts: seq<Token>)
    requires ts != [] && (ts[0].W? ==> !Reserved(lang, ts[0].w))
    ensures ParsePrefix(lang, [Open] + ts) == Closed(lang, ts, Close)
  {
    assert ([Open] + ts)[1..] == ts;
  }

  lemma CastRest(words: seq<Token>, ts: seq<Token>)
    ensures var q := words + ([Close] + ts); q[|words|] == Close && ([Open] + q)[|words| + 2..] == ts
  {
    var q := words + ([Close] + ts);
    assert q[|words| + 1..] == ts && ([Open] + q)[|words| + 2..] == q[|words| + 1..];
  }

  lemma ReadCast(ty: CType, ts: seq<Token>, r: Parse)
    requires r.Ok? && ParsePrefix(C, ts) == r
    ensures ParsePrefix(C, [Open] + (TypeTokens(ty) + ([Close] + ts))) == Ok(As(ty, r.t), r.rest)
  {
    var n := |TypeTokens(ty)|;
    var q := TypeTokens(ty) + ([Close] + ts);
    CastTokens(ty, [Close] + ts);
    CastRest(TypeTokens(ty), ts);
    assert ([Open] + q)[1..] == q && ([Open] + q)[0] == Open;
  }

  lemma {:induction false} ParsesPrefix(lang: Lang, d: Doc, rest: seq<Token>)
    requires Grammatical(lang, d) && Prec(lang, d) >= PREFIX && NotPostfix(rest)
    ensures ParsePrefix(lang, Tokens(d) + rest) == Ok(TreeOf(d), rest)
    decreases d, 2
  {
    if d.Prefix? {
      ParsesPrefix(lang, d.d, rest);
      SignedTree(lang, d, rest);
    } else if d.Cast? {
      ParsesPrefix(lang, d.d, rest);
      CastTree(d, rest);
    } else {
      ParsesAtom(lang, d, rest);
    }
  }

  lemma SignedTree(lang: Lang, d: Doc, rest: seq<Token>)
    requires d.Prefix? && IsPrefix(lang, d.op) && ParsePrefix(lang, Tokens(d.d) + rest) == Ok(TreeOf(d.d), rest)
    ensures ParsePrefix(lang, Tokens(d) + rest) == Ok(TreeOf(d), rest)
  {
    ReadPrefix(lang, d.op, Tokens(d.d) + rest, Ok(TreeOf(d.d), rest));
    Associate([O(d.op)], Tokens(d.d), rest);
  }

  lemma CastTree(d: Doc, rest: seq<Token>)
    requires d.Cast? && ParsePrefix(C, Tokens(d.d) + rest) == Ok(TreeOf(d.d), rest)
    ensures ParsePrefix(C, Tokens(d) + rest) == Ok(TreeOf(d), rest)
  {
    ReadCast(d.ty, Tokens(d.d) + rest, Ok(TreeOf(d.d), rest));
    Associate([Close], Tokens(d.d), rest);
    Associate(TypeTokens(d.ty), [Close] + Tokens(d.d), rest);
    Associate([Open], TypeTokens(d.ty) + ([Close] + Tokens(d.d)), rest);
  }

  lemma ReadGroup(lang: Lang, b: string, ts: seq<Token>, open: Token, close: Token, r: Parse)
    requires !Reserved(lang, b) && ((open == OpenSq && close == CloseSq) || (open == Open && close == Close))
    requires r.Ok? && Closed(lang, ts, close) == r
    ensures ParsePrefix(lang, [W(b)] + ([open] + ts)) == Ok(if open == OpenSq then At(b, r.t) else Call(b, r.t), r.rest)
  {
    assert ([W(b)] + ([open] + ts))[2..] == ts;
  }

  lemma ReadWord(lang: Lang, w: string, rest: seq<Token>)
    requires !Reserved(lang, w) && NotPostfix(rest)
    ensures ParsePrefix(lang, [W(w)] + rest) == Ok(Leaf(w), rest)
  {
    assert ([W(w)] + rest)[1..] == rest;
  }

  lemma {:induction false} ParsesAtom(lang: Lang, d: Doc, rest: seq<Token>)
    requires Grammatical(lang, d) && (d.Word? || d.Paren? || d.Index? || d.Apply?) && NotPostfix(rest)
    ensures ParsePrefix(lang, Tokens(d) + rest) == Ok(TreeOf(d), rest)
    decreases d, 1
  {
    if d.Word? {
      ReadWord(lang, d.w, rest);
    } else if d.Paren? {
      FirstToken(lang, d.d);
      ParsesClosed(lang, d.d, Close, rest);
      ReadParen(lang, Tokens(d.d) + ([Close] + rest));
      GroupTokens(Open, Tokens(d.d), Close, rest);
    } else {
      ParsesGroup(lang, d, rest);
    }
  }

  lemma GroupTokens(open: Token, ts: seq<Token>, close: Token, rest: seq<Token>)
    ensures ([open] + (ts + [close])) + rest == [open] + (ts + ([close] + rest))
  {
    Associate(ts, [close], rest);
    Associate([open], ts + [close], rest);
  }

  lemma {:induction false} ParsesGroup(lang: Lang, d: Doc, rest: seq<Token>)
    requires Grammatical(lang, d) && (d.Index? || d.Apply?) && NotPostfix(rest)
    ensures ParsePrefix(lang, Tokens(d) + rest) == Ok(TreeOf(d), rest)
    decreases d, 0
  {
    var b, open, close := if d.Index? then d.buf else d.f, if d.Index? then OpenSq else Open, if d.Index? then CloseSq else Close;
    ParsesClosed(lang, d.d, close, rest);
    ReadGroup(lang, b, Tokens(d.d) + ([close] + rest), open, close, Ok(TreeOf(d.d), rest));
    GroupTokens(open, Tokens(d.d), close, rest);
    Associate([W(b)], [open] + (Tokens(d.d) + [close]), rest);
  }

  lemma {:induction false} ParsesClosed(lang: Lang, x: Doc, close: Token, rest: seq<Token>)
    requires Grammatical(lang, x) && (close.Close? || close.CloseSq?)
    ensures Closed(lang, Tokens(x) + ([close] + rest), close) == Ok(TreeOf(x), rest)
    decreases x, 4
  {
    ParsesExpr(lang, x, 0, [close] + rest);
    assert ([close] + rest)[1..] == rest;
  }

  lemma ReadInfix(lang: Lang, min: nat, op: Op, t: Tree, ts: seq<Token>, r: Parse)
    requires BinPrec(lang, op) >= min && BinPrec(lang, op) > 0
    requires r.Ok? && ParseExpr(lang, BinPrec(lang, op) + 1, ts) == r
    ensures Climb(lang, min, t, [O(op)] + ts) == Climb(lang, min, Bin(op, t, r.t), r.rest)
  {
    assert ([O(op)] + ts)[1..] == ts;
  }

  /** Parsing an expression at any level it binds tightly enough for leaves the parser where reading
      the finished tree on the left would. */
  lemma {:induction false} ParsesExpr(lang: Lang, d: Doc, min: nat, rest: seq<Token>)
    requires Grammatical(lang, d) && Prec(lang, d) >= min && HeadPrec(lang, rest) <= Prec(lang, d) && NotPostfix(rest)
    ensures ParseExpr(lang, min, Tokens(d) + rest) == Climb(lang, min, TreeOf(d), rest)
    decreases d, 3
  {
    if d.Infix? {
      var q := Tokens(d.r) + rest;
      ParsesOperand(lang, d.r, BinPrec(lang, d.op) + 1, rest);
      ParsesExpr(lang, d.l, min, [O(d.op)] + q);
      ReadInfix(lang, min, d.op, TreeOf(d.l), q, Ok(TreeOf(d.r), rest));
      InfixTokens(d, rest);
    } else {
      ParsesPrefix(lang, d, rest);
    }
  }

  lemma InfixTokens(d: Doc, rest: seq<Token>)
    requires d.Infix?
    ensures Tokens(d) + rest == Tokens(d.l) + ([O(d.op)] + (Tokens(d.r) + rest))
  {
    Associate([O(d.op)], Tokens(d.r), rest);
    Associate(Tokens(d.l), [O(d.op)] + Tokens(d.r), rest);
  }

  lemma {:induction false} ParsesOperand(lang: Lang, d: Doc, min: nat, rest: seq<Token>)
    requires Grammatical(lang, d) && Prec(lang, d) >= min && HeadPrec(lang, rest) < min && NotPostfix(rest)
    ensures ParseExpr(lang, min, Tokens(d) + rest) == Ok(TreeOf(d), rest)
    decreases d, 4
  {
    ParsesExpr(lang, d, min, rest);
  }

  /** The parser reads the tokens of a rendering as its tree. */
  lemma ParsesAll(lang: Lang, d: Doc)
    requires Grammatical(lang, d)
    ensures ParseExpr(lang, 0, Tokens(d)) == Ok(TreeOf(d), [])
  {
    ParsesExpr(lang, d, 0, []);
    assert Tokens(d) + [] == Tokens(d);
  }
}
