/** The token vocabulary of text/tokens.ts. */
module Tokens {
  import opened Numerals

  datatype TokenType =
    // ranging kinds
    | BinOpToken | NumToken | IdentToken | StringToken | CharToken
    // keywords
    | ImportToken | FunctionToken | DeleteToken | WordToken | StrToken | PtrToken
    | ReturnToken | ASMToken | ForToken | WhileToken | IfToken | ElseToken
    // symbols
    | EOF | EquToken | Comma | Dot | CompareToken | LogicToken | NotToken
    | Colon | Semicolon | OpenBrace | CloseBrace | OpenBracket | CloseBracket
    | OpenParen | CloseParen

  datatype Token = Token(kind: TokenType, value: string)

  /** What the lexer guarantees of each token it emits and the parser relies
      on: a number token is a non-empty run of decimal digits, a char token is
      one character, and a type keyword token carries its keyword. */
  predicate WellFormed(t: Token) {
    (t.kind == NumToken ==> t.value != [] && IsDigits(t.value)) &&
    (t.kind == CharToken ==> |t.value| == 1) &&
    (t.kind == WordToken ==> t.value == "word" || t.value == "int16") &&
    (t.kind == PtrToken ==> t.value == "ptr") &&
    (t.kind == StrToken ==> t.value == "str")
  }

  predicate AllWellFormed(ts: seq<Token>) {
    forall i :: 0 <= i < |ts| ==> WellFormed(ts[i])
  }

  /** A token as the lexer emits it: what the parser reads. */
  type LexToken = t: Token | WellFormed(t) witness Token(EOF, "EOF")
}
