/** The two grammars themselves, apart from any table of precedences: the binary expressions of ISO C++17
    clause 8, from multiplicative to logical or, and of the Go specification (Operators).  What a text
    denotes is the one tree its grammar derives. */
module ExprGrammar {
  import opened Basics
  import opened ExprText

  datatype Nonterminal =
    | LogicalOr | LogicalAnd | InclusiveOr | ExclusiveOr | AndExpression | Equality | Relational | ShiftExpression
    | Additive | Multiplicative | CastExpression                                                  // C
    | GoExpression | Conjunction | Comparison | Sum | Product | UnaryExpr                         // Go

  function Start(lang: Lang): Nonterminal { if lang == C then LogicalOr else GoExpression }

  /** How many productions lie between a nonterminal and a unary expression. */
  function Height(nt: Nonterminal): nat {
    match nt
    case LogicalOr => 10 case LogicalAnd => 9 case InclusiveOr => 8 case ExclusiveOr => 7 case AndExpression => 6
    case Equality => 5 case Relational => 4 case ShiftExpression => 3 case Additive => 2 case Multiplicative => 1
    case CastExpression => 0
    case GoExpression => 5 case Conjunction => 4 case Comparison => 3 case Sum => 2 case Product => 1
    case UnaryExpr => 0
  }

  /** nt derives the tokens, as tree t. */
  ghost predicate Derives(nt: Nonterminal, ts: seq<Token>, t: Tree)
    decreases |ts|, Height(nt), 1
  {
    match nt
    // [expr.mul]: cast-expression, or multiplicative-expression *, / or % cast-expression; and so on up
    // to [expr.log.or]
    case Multiplicative => Derives(CastExpression, ts, t) || Operation(Multiplicative, {Mul, Quo, Rem}, CastExpression, ts, t)
    case Additive => Derives(Multiplicative, ts, t) || Operation(Additive, {Add, Sub}, Multiplicative, ts, t)
    case ShiftExpression => Derives(Additive, ts, t) || Operation(ShiftExpression, {Shl, Shr}, Additive, ts, t)
    case Relational => Derives(ShiftExpression, ts, t) || Operation(Relational, {Lss, Gtr, Leq, Geq}, ShiftExpression, ts, t)
    case Equality => Derives(Relational, ts, t) || Operation(Equality, {Eql, Neq}, Relational, ts, t)
    case AndExpression => Derives(Equality, ts, t) || Operation(AndExpression, {And}, Equality, ts, t)
    case ExclusiveOr => Derives(AndExpression, ts, t) || Operation(ExclusiveOr, {Xor}, AndExpression, ts, t)
    case InclusiveOr => Derives(ExclusiveOr, ts, t) || Operation(InclusiveOr, {Or}, ExclusiveOr, ts, t)
    case LogicalAnd => Derives(InclusiveOr, ts, t) || Operation(LogicalAnd, {LAnd}, InclusiveOr, ts, t)
    case LogicalOr => Derives(LogicalAnd, ts, t) || Operation(LogicalOr, {LOr}, LogicalAnd, ts, t)
    case CastExpression => Primary(C, ts, t) || Prefixed(CastExpression, {Add, Sub, Not, Tilde, PlusPlus, MinusMinus}, ts, t) || Casts(ts, t)
    // The five levels of Go, mul_op to ||
    case Product => Derives(UnaryExpr, ts, t) || Operation(Product, {Mul, Quo, Rem, Shl, Shr, And, AndNot}, UnaryExpr, ts, t)
    case Sum => Derives(Product, ts, t) || Operation(Sum, {Add, Sub, Or, Xor}, Product, ts, t)
    case Comparison => Derives(Sum, ts, t) || Operation(Comparison, {Eql, Neq, Lss, Leq, Gtr, Geq}, Sum, ts, t)
    case Conjunction => Derives(Comparison, ts, t) || Operation(Conjunction, {LAnd}, Comparison, ts, t)
    case GoExpression => Derives(Conjunction, ts, t) || Operation(GoExpression, {LOr}, Conjunction, ts, t)
    case UnaryExpr => Primary(Go, ts, t) || Prefixed(UnaryExpr, {Add, Sub, Not, Xor}, ts, t)
  }

  /** nt op operand, associating to the left. */
  ghost predicate Operation(nt: Nonterminal, ops: set<Op>, operand: Nonterminal, ts: seq<Token>, t: Tree)
    decreases |ts|, Height(nt), 0
  {
    t.Bin? && t.op in ops &&
    exists k :: 0 <= k < |ts| && ts[k] == O(t.op) && Derives(nt, ts[..k], t.l) && Derives(operand, ts[k + 1..], t.r)
  }

  ghost predicate Prefixed(nt: Nonterminal, ops: set<Op>, ts: seq<Token>, t: Tree)
    decreases |ts|, Height(nt), 0
  {
    ts != [] && t.Un? && t.op in ops && ts[0] == O(t.op) && Derives(nt, ts[1..], t.t)
  }

  /** ( type-id ) cast-expression */
  ghost predicate Casts(ts: seq<Token>, t: Tree)
    decreases |ts|, Height(CastExpression), 0
  {
    t.As? && var n := |TypeTokens(t.ty)|;
    && n + 2 <= |ts| && ts[0] == Open && ts[1..n + 1] == TypeTokens(t.ty) && ts[n + 1] == Close
    && Derives(CastExpression, ts[n + 2..], t.t)
  }

  /** A name or a literal, a parenthesised expression, a subscript or a call of a name. */
  ghost predicate Primary(lang: Lang, ts: seq<Token>, t: Tree)
    decreases |ts|, 0, 0
  {
    var n := |ts|;
    || (n == 1 && ts[0].W? && !Reserved(lang, ts[0].w) && t == Leaf(ts[0].w))
    || (n >= 2 && ts[0] == Open && ts[n - 1] == Close && Derives(Start(lang), ts[1..n - 1], t))
    || (n >= 3 && ts[0].W? && !Reserved(lang, ts[0].w) && ts[1] == OpenSq && ts[n - 1] == CloseSq &&
        t.At? && t.buf == ts[0].w && Derives(Start(lang), ts[2..n - 1], t.t))
    || (n >= 3 && ts[0].W? && !Reserved(lang, ts[0].w) && ts[1] == Open && ts[n - 1] == Close &&
        t.Call? && t.f == ts[0].w && Derives(Start(lang), ts[2..n - 1], t.t))
  }

  /** The text has a tree in the grammar of the language, and this is the only one. */
  ghost predicate Denotes(lang: Lang, s: string, t: Tree) {
    forall u :: Derives(Start(lang), Lex(lang, s), u) <==> u == t
  }

  // A derivation is a rendering of its tokens.

  function LangOf(nt: Nonterminal): Lang {
    if nt.GoExpression? || nt.Conjunction? || nt.Comparison? || nt.Sum? || nt.Product? || nt.UnaryExpr? then Go else C
  }

  /** Where the table has a level. */
  function Level(nt: Nonterminal): nat {
    match nt
    case LogicalOr => 4 case LogicalAnd => 5 case InclusiveOr => 6 case ExclusiveOr => 7 case AndExpression => 8
    case Equality => 9 case Relational => 10 case ShiftExpression => 11 case Additive => 12 case Multiplicative => 13
    case GoExpression => 1 case Conjunction => 2 case Comparison => 3 case Sum => 4 case Product => 5
    case CastExpression => PREFIX case UnaryExpr => PREFIX
  }

  /** What a level is made of, and the operators it adds. */
  function Below(nt: Nonterminal): Nonterminal {
    match nt
    case LogicalOr => LogicalAnd case LogicalAnd => InclusiveOr case InclusiveOr => ExclusiveOr
    case ExclusiveOr => AndExpression case AndExpression => Equality case Equality => Relational
    case Relational => ShiftExpression case ShiftExpression => Additive case Additive => Multiplicative
    case Multiplicative => CastExpression
    case GoExpression => Conjunction case Conjunction => Comparison case Comparison => Sum case Sum => Product
    case Product => UnaryExpr
    case _ => nt
  }

  function Operators(nt: Nonterminal): set<Op> {
    match nt
    case LogicalOr => {LOr} case LogicalAnd => {LAnd} case InclusiveOr => {Or} case ExclusiveOr => {Xor}
    case AndExpression => {And} case Equality => {Eql, Neq} case Relational => {Lss, Gtr, Leq, Geq}
    case ShiftExpression => {Shl, Shr} case Additive => {Add, Sub} case Multiplicative => {Mul, Quo, Rem}
    case GoExpression => {LOr} case Conjunction => {LAnd} case Comparison => {Eql, Neq, Lss, Leq, Gtr, Geq}
    case Sum => {Add, Sub, Or, Xor} case Product => {Mul, Quo, Rem, Shl, Shr, And, AndNot}
    case _ => {}
  }

  lemma BinaryDerives(nt: Nonterminal, ts: seq<Token>, t: Tree)
    requires Height(nt) > 0
    ensures Derives(nt, ts, t) <==> Derives(Below(nt), ts, t) || Operation(nt, Operators(nt), Below(nt), ts, t)
  {
  }

  lemma LevelsRise(nt: Nonterminal)
    ensures Height(nt) > 0 ==> 0 < Level(nt) < Level(Below(nt)) && LangOf(Below(nt)) == LangOf(nt) && Height(Below(nt)) < Height(nt)
    ensures Height(nt) == 0 ==> Level(nt) == PREFIX && (nt == CastExpression || nt == UnaryExpr)
  {
  }

  /** The production that names a binary operator. */
  function Production(lang: Lang, op: Op): Nonterminal {
    match op
    case Mul | Quo | Rem => if lang == C then Multiplicative else Product
    case Shl | Shr => if lang == C then ShiftExpression else Product
    case And => if lang == C then AndExpression else Product
    case AndNot => Product
    case Add | Sub => if lang == C then Additive else Sum
    case Or => if lang == C then InclusiveOr else Sum
    case Xor => if lang == C then ExclusiveOr else Sum
    case Lss | Leq | Gtr | Geq => if lang == C then Relational else Comparison
    case Eql | Neq => if lang == C then Equality else Comparison
    case LAnd => if lang == C then LogicalAnd else Conjunction
    case _ => if lang == C then LogicalOr else GoExpression
  }

  /** The table has every operator where the grammar has it, and no other. */
  lemma TableInGrammar(lang: Lang, op: Op)
    requires BinPrec(lang, op) > 0
    ensures var nt := Production(lang, op);
      op in Operators(nt) && Height(nt) > 0 && LangOf(nt) == lang && Level(nt) == BinPrec(lang, op)
  {
  }

  lemma GrammarInTable(nt: Nonterminal, op: Op)
    requires op in Operators(nt)
    ensures Height(nt) > 0 && BinPrec(LangOf(nt), op) == Level(nt)
  {
    if LangOf(nt) == C { CGrammarInTable(nt, op); } else { GoGrammarInTable(nt, op); }
  }

  lemma CGrammarInTable(nt: Nonterminal, op: Op)
    requires op in Operators(nt) && LangOf(nt) == C
    ensures Height(nt) > 0 && BinPrec(C, op) == Level(nt)
  {
  }

  lemma GoGrammarInTable(nt: Nonterminal, op: Op)
    requires op in Operators(nt) && LangOf(nt) == Go
    ensures Height(nt) > 0 && BinPrec(Go, op) == Level(nt)
  {
  }

  // A rendering is derived.

  lemma {:induction false} Climbs(nt: Nonterminal, from: Nonterminal, ts: seq<Token>, t: Tree)
    requires Derives(from, ts, t) && LangOf(from) == LangOf(nt) && Level(nt) <= Level(from)
    ensures Derives(nt, ts, t)
    decreases Height(nt)
  {
    if nt != from {
      LevelsApart(nt, from);
      Climbs(Below(nt), from, ts, t);
      BinaryDerives(nt, ts, t);
    }
  }

  lemma LevelsApart(nt: Nonterminal, from: Nonterminal)
    requires nt != from && LangOf(from) == LangOf(nt) && Level(nt) <= Level(from)
    ensures Height(nt) > 0 && Level(Below(nt)) <= Level(from) && LangOf(Below(nt)) == LangOf(nt) && Height(Below(nt)) < Height(nt)
  {
  }

  function UnaryOf(lang: Lang): Nonterminal { if lang == C then CastExpression else UnaryExpr }

  lemma {:induction false} DocDerives(lang: Lang, d: Doc, nt: Nonterminal)
    requires Grammatical(lang, d) && LangOf(nt) == lang && Prec(lang, d) >= Level(nt)
    ensures Derives(nt, Tokens(d), TreeOf(d))
    decreases d, 1
  {
    if d.Infix? {
      InfixDerives(lang, d);
      TableInGrammar(lang, d.op);
      Climbs(nt, Production(lang, d.op), Tokens(d), TreeOf(d));
    } else {
      UnaryDerives(lang, d);
      Climbs(nt, UnaryOf(lang), Tokens(d), TreeOf(d));
    }
  }

  lemma {:induction false} InfixDerives(lang: Lang, d: Doc)
    requires d.Infix? && Grammatical(lang, d)
    ensures Derives(Production(lang, d.op), Tokens(d), TreeOf(d))
    decreases d, 0
  {
    var nt, k := Production(lang, d.op), |Tokens(d.l)|;
    TableInGrammar(lang, d.op);
    LevelsRise(nt);
    DocDerives(lang, d.l, nt);
    OperandDerives(lang, d.r, nt);
    SplitAt(Tokens(d.l), O(d.op), Tokens(d.r), Tokens(d));
    Operates(nt, Tokens(d), TreeOf(d), k);
    BinaryDerives(nt, Tokens(d), TreeOf(d));
  }

  lemma {:induction false} OperandDerives(lang: Lang, d: Doc, nt: Nonterminal)
    requires Grammatical(lang, d) && LangOf(nt) == lang && Height(nt) > 0 && Prec(lang, d) > Level(nt)
    ensures Derives(Below(nt), Tokens(d), TreeOf(d))
    decreases d, 2
  {
    LevelsRise(nt);
    if d.Infix? { TableInGrammar(lang, d.op); NextLevel(nt, Production(lang, d.op)); }
    DocDerives(lang, d, Below(nt));
  }

  lemma Operates(nt: Nonterminal, ts: seq<Token>, t: Tree, k: nat)
    requires Height(nt) > 0 && t.Bin? && t.op in Operators(nt) && k < |ts| && ts[k] == O(t.op)
    requires Derives(nt, ts[..k], t.l) && Derives(Below(nt), ts[k + 1..], t.r)
    ensures Operation(nt, Operators(nt), Below(nt), ts, t)
  {
  }

  /** No level lies between one and the next. */
  lemma NextLevel(nt: Nonterminal, other: Nonterminal)
    requires LangOf(nt) == LangOf(other) && Height(nt) > 0 && Level(other) > Level(nt)
    ensures Level(other) >= Level(Below(nt))
  {
  }

  // Where the parts of a row of tokens are

  lemma SplitAt(a: seq<Token>, x: Token, b: seq<Token>, ts: seq<Token>)
    requires ts == a + ([x] + b)
    ensures |ts| == |a| + 1 + |b| && ts[..|a|] == a && ts[|a|] == x && ts[|a| + 1..] == b
  {
    assert ts[|a|..] == [x] + b;
  }

  lemma SplitCast(a: seq<Token>, b: seq<Token>, ts: seq<Token>)
    requires ts == [Open] + (a + ([Close] + b))
    ensures |a| + 2 <= |ts| && ts[0] == Open && ts[1..|a| + 1] == a && ts[|a| + 1] == Close && ts[|a| + 2..] == b
  {
    SplitAt([Open] + a, Close, b, ts);
  }

  lemma SplitGroup(open: Token, a: seq<Token>, close: Token, ts: seq<Token>)
    requires ts == [open] + (a + [close])
    ensures |ts| == |a| + 2 && ts[0] == open && ts[|ts| - 1] == close && ts[1..|ts| - 1] == a
  {
  }

  lemma SplitNamed(w: Token, open: Token, a: seq<Token>, close: Token, ts: seq<Token>)
    requires ts == [w] + ([open] + (a + [close]))
    ensures |ts| == |a| + 3 && ts[0] == w && ts[1] == open && ts[|ts| - 1] == close && ts[2..|ts| - 1] == a
  {
    SplitGroup(open, a, close, ts[1..]);
  }

  lemma {:induction false} UnaryDerives(lang: Lang, d: Doc)
    requires !d.Infix? && Grammatical(lang, d)
    ensures Derives(UnaryOf(lang), Tokens(d), TreeOf(d))
    decreases d, 0
  {
    if d.Prefix? {
      DocDerives(lang, d.d, UnaryOf(lang));
      SignDerives(lang, d.op, Tokens(d.d), TreeOf(d.d));
    } else if d.Cast? {
      DocDerives(lang, d.d, UnaryOf(lang));
      CastDerives(d.ty, Tokens(d.d), TreeOf(d.d));
    } else {
      if !d.Word? { DocDerives(lang, d.d, Start(lang)); }
      PrimaryDerives(lang, d);
    }
  }

  lemma SignDerives(lang: Lang, op: Op, ts: seq<Token>, t: Tree)
    requires IsPrefix(lang, op) && Derives(UnaryOf(lang), ts, t)
    ensures Derives(UnaryOf(lang), [O(op)] + ts, Un(op, t))
  {
    assert ([O(op)] + ts)[1..] == ts;
  }

  lemma CastDerives(ty: CType, ts: seq<Token>, t: Tree)
    requires Derives(CastExpression, ts, t)
    ensures Derives(CastExpression, [Open] + (TypeTokens(ty) + ([Close] + ts)), As(ty, t))
  {
    SplitCast(TypeTokens(ty), ts, [Open] + (TypeTokens(ty) + ([Close] + ts)));
  }

  lemma PrimaryDerives(lang: Lang, d: Doc)
    requires (d.Word? || d.Paren? || d.Index? || d.Apply?) && Grammatical(lang, d)
    requires !d.Word? ==> Derives(Start(lang), Tokens(d.d), TreeOf(d.d))
    ensures Derives(UnaryOf(lang), Tokens(d), TreeOf(d))
  {
    if d.Word? {
      assert Primary(lang, Tokens(d), TreeOf(d));
    } else if d.Paren? {
      GroupDerives(lang, Tokens(d.d), TreeOf(d.d));
    } else if d.Index? {
      NamedDerives(lang, d.buf, OpenSq, Tokens(d.d), TreeOf(d.d), CloseSq);
    } else {
      NamedDerives(lang, d.f, Open, Tokens(d.d), TreeOf(d.d), Close);
    }
  }

  lemma GroupDerives(lang: Lang, ts: seq<Token>, t: Tree)
    requires Derives(Start(lang), ts, t)
    ensures Derives(UnaryOf(lang), [Open] + (ts + [Close]), t)
  {
    SplitGroup(Open, ts, Close, [Open] + (ts + [Close]));
    assert Primary(lang, [Open] + (ts + [Close]), t);
  }

  lemma NamedDerives(lang: Lang, w: string, open: Token, ts: seq<Token>, t: Tree, close: Token)
    requires Derives(Start(lang), ts, t) && !Reserved(lang, w)
    requires (open == OpenSq && close == CloseSq) || (open == Open && close == Close)
    ensures Derives(UnaryOf(lang), [W(w)] + ([open] + (ts + [close])), if open == OpenSq then At(w, t) else Call(w, t))
  {
    var all := [W(w)] + ([open] + (ts + [close]));
    SplitNamed(W(w), open, ts, close, all);
    assert Primary(lang, all, if open == OpenSq then At(w, t) else Call(w, t));
  }

  // And what is derived is a rendering.

  /** A rendering of these tokens, binding at least so tightly, with this tree. */
  predicate Rendering(lang: Lang, min: nat, d: Doc, ts: seq<Token>, t: Tree) {
    Grammatical(lang, d) && Prec(lang, d) >= min && Tokens(d) == ts && TreeOf(d) == t
  }

  lemma {:induction false} DerivedDoc(nt: Nonterminal, ts: seq<Token>, t: Tree) returns (d: Doc)
    requires Derives(nt, ts, t)
    ensures Rendering(LangOf(nt), Level(nt), d, ts, t)
    decreases |ts|, Height(nt), 1
  {
    LevelsRise(nt);
    if Height(nt) > 0 {
      BinaryDerives(nt, ts, t);
      if Derives(Below(nt), ts, t) {
        d := DerivedDoc(Below(nt), ts, t);
      } else {
        d := OperationDoc(nt, ts, t);
      }
    } else if Primary(LangOf(nt), ts, t) {
      d := PrimaryDoc(LangOf(nt), ts, t);
    } else if Casts(ts, t) && nt.CastExpression? {
      d := CastDoc(ts, t);
    } else {
      d := PrefixedDoc(nt, if nt.CastExpression? then {Add, Sub, Not, Tilde, PlusPlus, MinusMinus} else {Add, Sub, Not, Xor}, ts, t);
    }
  }

  lemma {:induction false} PrefixedDoc(nt: Nonterminal, ops: set<Op>, ts: seq<Token>, t: Tree) returns (d: Doc)
    requires Prefixed(nt, ops, ts, t) && (nt.CastExpression? || nt.UnaryExpr?) && forall op :: op in ops ==> IsPrefix(LangOf(nt), op)
    ensures Rendering(LangOf(nt), PREFIX, d, ts, t)
    decreases |ts|, Height(nt), 0
  {
    var x := DerivedDoc(nt, ts[1..], t.t);
    d := Prefix(t.op, x);
    assert ts == [O(t.op)] + ts[1..];
  }

  lemma {:induction false} CastDoc(ts: seq<Token>, t: Tree) returns (d: Doc)
    requires Casts(ts, t)
    ensures Rendering(C, PREFIX, d, ts, t)
    decreases |ts|, 0, 0
  {
    var x := DerivedDoc(CastExpression, ts[|TypeTokens(t.ty)| + 2..], t.t);
    d := Cast(t.ty, x);
    CastTokensAre(t.ty, ts);
  }

  lemma CastTokensAre(ty: CType, ts: seq<Token>)
    requires var n := |TypeTokens(ty)|; n + 2 <= |ts| && ts[0] == Open && ts[1..n + 1] == TypeTokens(ty) && ts[n + 1] == Close
    ensures ts == [Open] + (TypeTokens(ty) + ([Close] + ts[|TypeTokens(ty)| + 2..]))
  {
    var n := |TypeTokens(ty)|;
    assert ts[n + 1..] == [Close] + ts[n + 2..];
    assert ts[1..] == ts[1..n + 1] + ts[n + 1..];
  }

  lemma {:induction false} OperationDoc(nt: Nonterminal, ts: seq<Token>, t: Tree) returns (d: Doc)
    requires Height(nt) > 0 && Operation(nt, Operators(nt), Below(nt), ts, t)
    ensures Rendering(LangOf(nt), Level(nt), d, ts, t)
    decreases |ts|, Height(nt), 0
  {
    var k :| 0 <= k < |ts| && ts[k] == O(t.op) && Derives(nt, ts[..k], t.l) && Derives(Below(nt), ts[k + 1..], t.r);
    LevelsRise(nt);
    GrammarInTable(nt, t.op);
    var l := DerivedDoc(nt, ts[..k], t.l);
    var r := DerivedDoc(Below(nt), ts[k + 1..], t.r);
    d := Infix(t.op, l, r);
    JoinAt(ts, k);
  }

  lemma JoinAt(ts: seq<Token>, k: nat)
    requires k < |ts|
    ensures ts == ts[..k] + ([ts[k]] + ts[k + 1..])
  {
  }

  lemma {:induction false} PrimaryDoc(lang: Lang, ts: seq<Token>, t: Tree) returns (d: Doc)
    requires Primary(lang, ts, t)
    ensures Rendering(lang, PREFIX, d, ts, t)
    decreases |ts|, 0, 0
  {
    var n := |ts|;
    if n == 1 {
      d := Word(ts[0].w);
      assert ts == [W(ts[0].w)];
    } else if ts[0] == Open {
      var x := DerivedDoc(Start(lang), ts[1..n - 1], t);
      d := Paren(x);
      JoinGroup(ts);
    } else {
      var x := DerivedDoc(Start(lang), ts[2..n - 1], t.t);
      d := if ts[1] == OpenSq then Index(t.buf, x) else Apply(t.f, x);
      JoinNamed(ts);
    }
  }

  lemma JoinNamed(ts: seq<Token>)
    requires |ts| >= 3
    ensures ts == [ts[0]] + ([ts[1]] + (ts[2..|ts| - 1] + [ts[|ts| - 1]]))
  {
    JoinGroup(ts[1..]);
  }

  lemma JoinGroup(ts: seq<Token>)
    requires |ts| >= 2
    ensures ts == [ts[0]] + (ts[1..|ts| - 1] + [ts[|ts| - 1]])
  {
  }

  // What the parser reads is derived, too.

  /** The parser has read a rendering, and left the rest. */
  predicate Parsed(lang: Lang, min: nat, d: Doc, ts: seq<Token>, t: Tree, rest: seq<Token>) {
    Grammatical(lang, d) && Prec(lang, d) >= min && ts == Tokens(d) + rest && TreeOf(d) == t
  }

  lemma TypeAtIs(ts: seq<Token>)
    requires TypeAt(ts).1 > 0
    ensures TypeAt(ts).1 == |TypeTokens(TypeAt(ts).0)| && ts[..TypeAt(ts).1] == TypeTokens(TypeAt(ts).0)
  {
  }

  lemma {:induction false} PrefixParsed(lang: Lang, ts: seq<Token>) returns (d: Doc)
    requires ParsePrefix(lang, ts).Ok?
    ensures var r := ParsePrefix(lang, ts); Parsed(lang, PREFIX, d, ts, r.t, r.rest)
    decreases |ts|, 1
  {
    if ts[0].O? {
      var x := PrefixParsed(lang, ts[1..]);
      d := Prefix(ts[0].op, x);
      assert ts == [ts[0]] + ts[1..];
      Associate([ts[0]], Tokens(x), ParsePrefix(lang, ts[1..]).rest);
    } else if ts[0].Open? {
      if IsCast(lang, ts[1..]) { d := CastParsed(ts); } else { d := GroupParsed(lang, ts); }
    } else {
      d := WordParsed(lang, ts);
    }
  }

  lemma {:induction false} CastParsed(ts: seq<Token>) returns (d: Doc)
    requires ts != [] && ts[0] == Open && IsCast(C, ts[1..]) && ParsePrefix(C, ts).Ok?
    ensures var r := ParsePrefix(C, ts); Parsed(C, PREFIX, d, ts, r.t, r.rest)
    decreases |ts|, 0
  {
    var ty, n := TypeAt(ts[1..]).0, TypeAt(ts[1..]).1;
    var x := PrefixParsed(C, ts[n + 2..]);
    d := Cast(ty, x);
    TypeAtIs(ts[1..]);
    assert ts[1..][..n] == ts[1..n + 1] && ts[1..][n] == ts[n + 1];
    CastTokensAre(ty, ts);
    CastJoin(TypeTokens(ty), Tokens(x), ParsePrefix(C, ts[n + 2..]).rest);
  }

  lemma CastJoin(a: seq<Token>, b: seq<Token>, rest: seq<Token>)
    ensures [Open] + (a + ([Close] + (b + rest))) == ([Open] + (a + ([Close] + b))) + rest
  {
  }

  lemma {:induction false} GroupParsed(lang: Lang, ts: seq<Token>) returns (d: Doc)
    requires ts != [] && ts[0] == Open && !IsCast(lang, ts[1..]) && ParsePrefix(lang, ts).Ok?
    ensures var r := ParsePrefix(lang, ts); Parsed(lang, PREFIX, d, ts, r.t, r.rest)
    decreases |ts|, 0
  {
    var x := ClosedParsed(lang, ts[1..], Close);
    d := Paren(x);
    assert ts == [Open] + ts[1..];
    GroupTokens(Open, Tokens(x), Close, ParsePrefix(lang, ts).rest);
  }

  lemma {:induction false} WordParsed(lang: Lang, ts: seq<Token>) returns (d: Doc)
    requires ts != [] && ts[0].W? && ParsePrefix(lang, ts).Ok?
    ensures var r := ParsePrefix(lang, ts); Parsed(lang, PREFIX, d, ts, r.t, r.rest)
    decreases |ts|, 0
  {
    var w := ts[0].w;
    if |ts| > 1 && (ts[1] == OpenSq || ts[1] == Open) {
      var close := if ts[1] == OpenSq then CloseSq else Close;
      var x := ClosedParsed(lang, ts[2..], close);
      d := if ts[1] == OpenSq then Index(w, x) else Apply(w, x);
      assert ts == [W(w)] + ([ts[1]] + ts[2..]);
      GroupTokens(ts[1], Tokens(x), close, ParsePrefix(lang, ts).rest);
      Associate([W(w)], [ts[1]] + (Tokens(x) + [close]), ParsePrefix(lang, ts).rest);
    } else {
      d := Word(w);
      assert ts == [W(w)] + ts[1..];
    }
  }

  lemma {:induction false} ClosedParsed(lang: Lang, ts: seq<Token>, close: Token) returns (x: Doc)
    requires Closed(lang, ts, close).Ok?
    ensures var r := Closed(lang, ts, close); Grammatical(lang, x) && ts == Tokens(x) + ([close] + r.rest) && TreeOf(x) == r.t
    decreases |ts|, 3
  {
    x := ExprParsed(lang, 0, ts);
    var rest := ParseExpr(lang, 0, ts).rest;
    assert rest == [close] + rest[1..];
  }

  lemma {:induction false} ExprParsed(lang: Lang, min: nat, ts: seq<Token>) returns (d: Doc)
    requires ParseExpr(lang, min, ts).Ok? && min <= PREFIX
    ensures var r := ParseExpr(lang, min, ts); Parsed(lang, min, d, ts, r.t, r.rest)
    decreases |ts|, 2
  {
    var r := ParsePrefix(lang, ts);
    var x := PrefixParsed(lang, ts);
    d := ClimbParsed(lang, min, x, r.rest);
    Associate(Tokens(x), Tokens(d)[|Tokens(x)|..], Climb(lang, min, r.t, r.rest).rest);
  }

  /** Where climbing stops no operator of its level follows. */
  lemma {:induction false} ClimbStops(lang: Lang, min: nat, t: Tree, ts: seq<Token>)
    requires Climb(lang, min, t, ts).Ok? && min > 0
    ensures HeadPrec(lang, Climb(lang, min, t, ts).rest) < min
    decreases |ts|
  {
    var p := HeadPrec(lang, ts);
    if p != 0 && p >= min {
      var r := ParseExpr(lang, p + 1, ts[1..]);
      ClimbStops(lang, min, Bin(ts[0].op, t, r.t), r.rest);
    }
  }

  /** Climbing from what has been read goes on with a rendering that begins with it. */
  lemma {:induction false} ClimbParsed(lang: Lang, min: nat, x: Doc, ts: seq<Token>) returns (d: Doc)
    requires Climb(lang, min, TreeOf(x), ts).Ok? && Grammatical(lang, x) && Prec(lang, x) >= min && HeadPrec(lang, ts) <= Prec(lang, x)
    ensures var r := Climb(lang, min, TreeOf(x), ts); Parsed(lang, min, d, Tokens(x) + ts, r.t, r.rest)
    decreases |ts|, 0
  {
    var p := HeadPrec(lang, ts);
    if p == 0 || p < min {
      d := x;
    } else {
      var r := ParseExpr(lang, p + 1, ts[1..]);
      var y := ExprParsed(lang, p + 1, ts[1..]);
      var z := Infix(ts[0].op, x, y);
      assert ts == [O(ts[0].op)] + ts[1..];
      InfixTokens(z, r.rest);
      var q := ParsePrefix(lang, ts[1..]);
      ClimbStops(lang, p + 1, q.t, q.rest);
      d := ClimbParsed(lang, min, z, r.rest);
    }
  }

  // The two agree.

  /** The parser reads exactly what the grammar derives: no text has two trees. */
  lemma ParserIsGrammar(lang: Lang, ts: seq<Token>, t: Tree)
    ensures ParseExpr(lang, 0, ts) == Ok(t, []) <==> Derives(Start(lang), ts, t)
  {
    if ParseExpr(lang, 0, ts) == Ok(t, []) {
      var d := ExprParsed(lang, 0, ts);
      assert Tokens(d) + [] == Tokens(d);
      LowestLevel(lang, d);
      DocDerives(lang, d, Start(lang));
    }
    if Derives(Start(lang), ts, t) {
      var d := DerivedDoc(Start(lang), ts, t);
      ParsesAll(lang, d);
    }
  }

  lemma LowestLevel(lang: Lang, d: Doc)
    requires Grammatical(lang, d)
    ensures Prec(lang, d) >= Level(Start(lang)) && LangOf(Start(lang)) == lang
  {
    if d.Infix? { OperatorLevel(lang, d.op); }
  }

  lemma OperatorLevel(lang: Lang, op: Op)
    requires BinPrec(lang, op) > 0
    ensures BinPrec(lang, op) >= Level(Start(lang))
  {
  }

  /** So reading a text gives the tree it denotes, or fails where it denotes none. */
  lemma ReadIsGrammar(lang: Lang, s: string, t: Tree)
    ensures Read(lang, s) == Ok(t, []) <==> Derives(Start(lang), Lex(lang, s), t)
    ensures Read(lang, s) == Ok(t, []) <==> Denotes(lang, s, t)
  {
    ParserIsGrammar(lang, Lex(lang, s), t);
    forall u ensures Derives(Start(lang), Lex(lang, s), u) <==> Read(lang, s) == Ok(u, []) {
      ParserIsGrammar(lang, Lex(lang, s), u);
    }
  }

  /** The round trip: the text of a rendering that parenthesises what binds more loosely, and keeps its
      signs apart, denotes its tree and nothing else. */
  lemma RoundTrip(lang: Lang, d: Doc)
    requires WellFormed(lang, d)
    ensures Denotes(lang, Text(d), TreeOf(d))
  {
    LexText(lang, d);
    WellFormedIsGrammatical(lang, d);
    ParsesAll(lang, d);
    ReadIsGrammar(lang, Text(d), TreeOf(d));
  }

  // Every parenthesis is needed: without it the text denotes another tree.

  /** What d op e reads as when d binds more loosely than op: the operator takes the end of d. */
  function OnTheRight(lang: Lang, d: Doc, op: Op, e: Doc): Doc {
    if d.Infix? && BinPrec(lang, d.op) < BinPrec(lang, op) then Infix(d.op, d.l, OnTheRight(lang, d.r, op, e)) else Infix(op, d, e)
  }

  lemma {:induction false} RightIs(lang: Lang, d: Doc, op: Op, e: Doc)
    requires WellFormed(lang, d) && WellFormed(lang, e) && BinPrec(lang, op) > 0 && Prec(lang, e) > BinPrec(lang, op)
    ensures var x := OnTheRight(lang, d, op, e);
      && WellFormed(lang, x) && Text(x) == Text(Infix(op, d, e))
      && Prec(lang, x) >= if Prec(lang, d) < BinPrec(lang, op) then Prec(lang, d) else BinPrec(lang, op)
  {
    if d.Infix? && BinPrec(lang, d.op) < BinPrec(lang, op) {
      RightIs(lang, d.r, op, e);
      JoinRight(Text(d.l), Spell(d.op), Text(d.r), " " + (Spell(op) + (" " + Text(e))));
    }
  }

  lemma JoinRight(a: string, o: string, b: string, rest: string)
    ensures (a + (" " + (o + (" " + b)))) + rest == a + (" " + (o + (" " + (b + rest))))
  {
  }

  lemma LeftNeedsParenthesis(lang: Lang, d: Doc, op: Op, e: Doc)
    requires WellFormed(lang, d) && WellFormed(lang, e) && BinPrec(lang, op) > 0
    requires Prec(lang, d) < BinPrec(lang, op) < Prec(lang, e)
    ensures !Denotes(lang, Text(Infix(op, d, e)), TreeOf(Infix(op, d, e)))
  {
    var x := OnTheRight(lang, d, op, e);
    RightIs(lang, d, op, e);
    OneTree(lang, Text(x), x, TreeOf(Infix(op, d, e)));
  }

  /** A text denotes one tree at most. */
  lemma OneTree(lang: Lang, s: string, x: Doc, t: Tree)
    requires WellFormed(lang, x) && s == Text(x) && t != TreeOf(x)
    ensures !Denotes(lang, s, t)
  {
    RoundTrip(lang, x);
    assert Derives(Start(lang), Lex(lang, s), TreeOf(x));
  }

  /** What d op e reads as when e does not bind more tightly: the operator takes the start of e. */
  function OnTheLeft(lang: Lang, d: Doc, op: Op, e: Doc): Doc {
    if e.Infix? && BinPrec(lang, e.op) <= BinPrec(lang, op) then Infix(e.op, OnTheLeft(lang, d, op, e.l), e.r) else Infix(op, d, e)
  }

  lemma {:induction false} LeftIs(lang: Lang, d: Doc, op: Op, e: Doc)
    requires WellFormed(lang, d) && WellFormed(lang, e) && BinPrec(lang, op) > 0 && Prec(lang, d) >= BinPrec(lang, op)
    ensures var x := OnTheLeft(lang, d, op, e);
      && WellFormed(lang, x) && Text(x) == Text(Infix(op, d, e))
      && Prec(lang, x) >= if Prec(lang, e) < BinPrec(lang, op) then Prec(lang, e) else BinPrec(lang, op)
  {
    if e.Infix? && BinPrec(lang, e.op) <= BinPrec(lang, op) {
      LeftIs(lang, d, op, e.l);
      JoinRight(Text(d), Spell(op), Text(e.l), " " + (Spell(e.op) + (" " + Text(e.r))));
    }
  }

  lemma RightNeedsParenthesis(lang: Lang, d: Doc, op: Op, e: Doc)
    requires WellFormed(lang, d) && WellFormed(lang, e) && BinPrec(lang, op) > 0
    requires Prec(lang, e) <= BinPrec(lang, op) <= Prec(lang, d) && e.Infix?
    ensures !Denotes(lang, Text(Infix(op, d, e)), TreeOf(Infix(op, d, e)))
  {
    var x := OnTheLeft(lang, d, op, e);
    LeftIs(lang, d, op, e);
    RightPart(x, op, d, e);
    OneTree(lang, Text(x), x, TreeOf(Infix(op, d, e)));
  }

  lemma RightPart(x: Doc, op: Op, d: Doc, e: Doc)
    requires x.Infix? && e.Infix? && x.r == e.r
    ensures TreeOf(x) != TreeOf(Infix(op, d, e))
  {
    assert TreeOf(x) == Bin(x.op, TreeOf(x.l), TreeOf(e.r)) && TreeOf(e) == Bin(e.op, TreeOf(e.l), TreeOf(e.r));
    assert TreeOf(Infix(op, d, e)) == Bin(op, TreeOf(d), TreeOf(e));
    NotOwnPart(e.op, TreeOf(e.l), TreeOf(e.r));
  }

  lemma {:induction false} NotOwnPart(op: Op, l: Tree, t: Tree)
    ensures Bin(op, l, t) != t
    decreases t
  {
    if t.Bin? { NotOwnPart(t.op, t.l, t.r); }
  }

  /** What a prefix operator on d reads as when d is a binary expression: it takes the start of d. */
  function OnTheStart(op: Op, d: Doc): Doc {
    if d.Infix? then Infix(d.op, OnTheStart(op, d.l), d.r) else Prefix(op, d)
  }

  lemma {:induction false} StartIs(lang: Lang, op: Op, d: Doc)
    requires WellFormed(lang, d) && IsUnary(lang, op)
    ensures var x := OnTheStart(op, d);
      && WellFormed(lang, x) && Text(x) == Text(Prefix(op, d)) && Prec(lang, x) == if d.Infix? then Prec(lang, d) else PREFIX
  {
    if d.Infix? {
      StartIs(lang, op, d.l);
      StartText(op, Text(d.l), " " + (Spell(d.op) + (" " + Text(d.r))));
      NotEmpty(lang, d.l);
    }
  }

  lemma StartText(op: Op, a: string, rest: string)
    requires a != ""
    ensures (Spell(op) + (UnarySep(op, a) + a)) + rest == Spell(op) + (UnarySep(op, a + rest) + (a + rest))
  {
    assert (a + rest)[0] == a[0];
  }

  lemma {:induction false} NotEmpty(lang: Lang, d: Doc)
    requires WellFormed(lang, d)
    ensures Text(d) != ""
  {
    if d.Infix? { NotEmpty(lang, d.l); }
    if d.Prefix? { assert Spell(d.op) != ""; }
  }

  lemma PrefixNeedsParenthesis(lang: Lang, op: Op, d: Doc)
    requires WellFormed(lang, d) && IsUnary(lang, op) && d.Infix?
    ensures !Denotes(lang, Text(Prefix(op, d)), TreeOf(Prefix(op, d)))
  {
    StartIs(lang, op, d);
    OneTree(lang, Text(Prefix(op, d)), OnTheStart(op, d), TreeOf(Prefix(op, d)));
  }
}
