/** The words C++ keeps for itself, and those the emitter escapes. */
module CppWords {
  import opened ExprEmit
  import NameScope

  // ISO C++17, [lex.key], and the alternative tokens of [lex.digraph]

  const A_TO_C := {
    "alignas", "alignof", "asm", "auto", "bool", "break", "case", "catch", "char", "char16_t", "char32_t",
    "class", "const", "constexpr", "const_cast", "continue" }

  const D_TO_N := {
    "decltype", "default", "delete", "do", "double", "dynamic_cast", "else", "enum", "explicit", "export",
    "extern", "false", "float", "for", "friend", "goto", "if", "inline", "int", "long", "mutable", "namespace",
    "new", "noexcept", "nullptr" }

  const O_TO_S := {
    "operator", "private", "protected", "public", "register", "reinterpret_cast", "return", "short", "signed",
    "sizeof", "static", "static_assert", "static_cast", "struct", "switch" }

  const T_TO_W := {
    "template", "this", "thread_local", "throw", "true", "try", "typedef", "typeid", "typename", "union",
    "unsigned", "using", "virtual", "void", "volatile", "wchar_t", "while" }

  const SPELLED_OUT := {
    "and", "and_eq", "bitand", "bitor", "compl", "not", "not_eq", "or", "or_eq", "xor", "xor_eq" }

  const RESERVED_WORDS := A_TO_C + D_TO_N + O_TO_S + T_TO_W + SPELLED_OUT

  /** Those no Go variable can be spelled as. */
  const GO_WORDS := {
    "break", "case", "const", "continue", "default", "else", "for", "goto", "if", "return", "struct", "switch" }

  /** Those a Go variable can be spelled as, and the emitter does not know. */
  const UNESCAPED := {
    "alignas", "alignof", "asm", "catch", "char16_t", "char32_t", "constexpr", "const_cast", "decltype", "do",
    "dynamic_cast", "enum", "explicit", "export", "false", "mutable", "noexcept", "nullptr",
    "reinterpret_cast", "static_assert", "static_cast", "thread_local", "true", "typeid", "typename",
    "wchar_t", "while", "and", "and_eq", "bitand", "bitor", "compl", "not", "not_eq", "or", "or_eq", "xor",
    "xor_eq" }

  lemma AToC(x: string)
    requires x in A_TO_C
    ensures x in KEYWORDS || x in GO_WORDS || x in UNESCAPED
    ensures x != "" && x[|x| - 1] != '_'
  {
  }

  lemma DToN(x: string)
    requires x in D_TO_N
    ensures x in KEYWORDS || x in GO_WORDS || x in UNESCAPED
    ensures x != "" && x[|x| - 1] != '_'
  {
  }

  lemma OToS(x: string)
    requires x in O_TO_S
    ensures x in KEYWORDS || x in GO_WORDS || x in UNESCAPED
    ensures x != "" && x[|x| - 1] != '_'
  {
  }

  lemma TToW(x: string)
    requires x in T_TO_W
    ensures x in KEYWORDS || x in GO_WORDS || x in UNESCAPED
    ensures x != "" && x[|x| - 1] != '_'
  {
  }

  lemma SpelledOut(x: string)
    requires x in SPELLED_OUT
    ensures x in KEYWORDS || x in GO_WORDS || x in UNESCAPED
    ensures x != "" && x[|x| - 1] != '_'
  {
  }

  lemma ReservedAre(x: string)
    requires x in RESERVED_WORDS
    ensures x in KEYWORDS || x in GO_WORDS || x in UNESCAPED
    ensures x != "" && x[|x| - 1] != '_'
  {
    if x in A_TO_C { AToC(x); } else if x in D_TO_N { DToN(x); } else if x in O_TO_S { OToS(x); }
    else if x in T_TO_W { TToW(x); } else { SpelledOut(x); }
  }

  /** Nothing is escaped that C++ does not keep. */
  lemma EscapedAreReserved(x: string)
    requires x in KEYWORDS
    ensures x in RESERVED_WORDS
  {
  }

  lemma EscapedIsNone(x: string)
    ensures x + "_" !in RESERVED_WORDS
  {
    var w := x + "_";
    assert w[|w| - 1] == '_';
    if w in RESERVED_WORDS { ReservedAre(w); }
  }

  /** An emitted name is a word of C++ exactly if it is one the emitter does not escape; and for a variable
      of Go that is one of those it does not know. */
  lemma NameIsReserved(x: string)
    ensures CName(x) in RESERVED_WORDS <==> x in RESERVED_WORDS && x !in KEYWORDS
    ensures CName(x) in RESERVED_WORDS && x !in GO_WORDS ==> x in UNESCAPED
  {
    EscapedIsNone(x);
    if x in RESERVED_WORDS { ReservedAre(x); }
  }

  /** while := 1: no refusal meets the name, and it is emitted as it is. */
  lemma WhileIsNotEscaped()
    ensures IsName("while") && CName("while") in RESERVED_WORDS && NameScope.NamesOk({"while"}, [])
  {
    WhileIsReserved();
    OneName("while");
  }

  lemma WhileIsReserved()
    ensures IsName("while") && "while" in RESERVED_WORDS && CName("while") == "while" && |"while"| < |NameScope.RESERVED|
  {
    WhileIsName();
    WhileIsKept();
    WhileIsUnknown();
  }

  lemma WhileIsName()
    ensures IsName("while")
  {
  }

  lemma WhileIsKept()
    ensures "while" in RESERVED_WORDS
  {
    assert "while" in T_TO_W;
  }

  lemma WhileIsUnknown()
    ensures "while" !in KEYWORDS
  {
  }

  lemma OneName(w: string)
    requires CName(w) == w && |w| < |NameScope.RESERVED|
    ensures NameScope.NamesOk({w}, [])
  {
  }
}
