/** The parser of `ParserSpec` one step at a time. Each lemma here unfolds
    one function once: an operator loop that stops at a token that is not
    its operator, a level of the expression grammar that hands on what the
    level below it parsed, a block that ends at its brace. The properties
    in `ParserProperties` are put together from these steps. */
module ParserSteps {
  import opened Wrappers
  import opened Numerals
  import opened Tokens
  import opened Ast
  import opened ParserSpec

  // ---------------------------------------------------------------------
  // Atoms

  /** The tokens that are a whole primary on their own: the literals, and
      `;`. */
  predicate IsAtom(t: LexToken) {
    t.kind == IdentToken || t.kind == NumToken || t.kind == StringToken || t.kind == CharToken || t.kind == Semicolon
  }

  /** The node `parse_primary` makes of an atom. */
  function AtomNode(t: LexToken): Node
    requires IsAtom(t)
  {
    if t.kind == IdentToken then IdentLiteral(t.value)
    else if t.kind == NumToken then NumericLiteral(DecimalValue(t.value))
    else if t.kind == StringToken then StringLiteral(t.value)
    else if t.kind == CharToken then CharLiteral(t.value[0])
    else SemicolonNode
  }

  lemma PrimaryAtom(ts: seq<LexToken>)
    requires ts != [] && IsAtom(ts[0])
    ensures Primary(ts) == Ok(Parsed(AtomNode(ts[0]), ts[1..]))
  {
  }

  // ---------------------------------------------------------------------
  // Where each level of the expression grammar ends

  /** A token after which no member, call or multiplication continues. */
  predicate EndsFactor(t: LexToken) {
    t.kind != Dot && t.kind != OpenBracket && t.kind != OpenParen && !IsMultiplicative(t.value)
  }

  /** Tokens before which an operand of the assignment level ends: nothing
      additive follows, nor a single logic token (two in a row belong to
      the logical level). */
  predicate EndsOperand(rest: seq<LexToken>) {
    rest != [] && EndsFactor(rest[0]) && !IsAdditive(rest[0].value) &&
    (rest[0].kind != LogicToken || (|rest| >= 2 && rest[1].kind == LogicToken))
  }

  /** Tokens before which an operand of the logical level ends: no `=`,
      comparison or `!` follows either. */
  predicate EndsComparand(rest: seq<LexToken>) {
    EndsOperand(rest) && rest[0].kind != EquToken && rest[0].kind != CompareToken && rest[0].kind != NotToken
  }

  /** Tokens before which a whole expression ends. */
  predicate EndsExpr(rest: seq<LexToken>) {
    EndsComparand(rest) && rest[0].kind != LogicToken
  }

  /** `;` ends every expression. */
  lemma SemicolonEndsExpr(rest: seq<LexToken>)
    requires rest != [] && rest[0] == Token(Semicolon, ";")
    ensures EndsExpr(rest)
  {
    assert ";"[0] == ';';
  }

  /** A one-character token that is not `.`, `[` or `(` and whose
      character is no arithmetic operator ends a factor, and is not
      additive. */
  lemma SymbolEnds(t: LexToken, c: char)
    requires t.value == [c] && c != '+' && c != '-' && c != '*' && c != '/' && c != '%'
    requires t.kind != Dot && t.kind != OpenBracket && t.kind != OpenParen
    ensures EndsFactor(t) && !IsAdditive(t.value)
  {
    assert "+"[0] == '+' && "-"[0] == '-' && "*"[0] == '*' && "/"[0] == '/' && "%"[0] == '%';
  }

  /** A `+` or `-` token ends the factor before it. */
  lemma OperatorEndsFactor(t: LexToken)
    requires t.kind == BinOpToken && IsAdditive(t.value)
    ensures EndsFactor(t)
  {
    assert "+"[0] == '+' && "-"[0] == '-' && "*"[0] == '*' && "/"[0] == '/' && "%"[0] == '%';
  }

  /** A logic token as the lexer makes it: `|`, `&` or `^`. */
  predicate IsLogicSymbol(t: LexToken) {
    t.kind == LogicToken && (t.value == "|" || t.value == "&" || t.value == "^")
  }

  lemma LogicSymbolEnds(t: LexToken)
    requires IsLogicSymbol(t)
    ensures EndsFactor(t) && !IsAdditive(t.value)
  {
    SymbolEnds(t, t.value[0]);
  }

  /** Two logic tokens in a row end every operand below the logical
      level. */
  lemma LogicPairEnds(rest: seq<LexToken>)
    requires |rest| >= 2 && IsLogicSymbol(rest[0]) && rest[1].kind == LogicToken
    ensures EndsComparand(rest)
  {
    LogicSymbolEnds(rest[0]);
  }

  // ---------------------------------------------------------------------
  // One level at a time

  lemma MemberOf(ts: seq<LexToken>, n: Node, rest: seq<LexToken>)
    requires Primary(ts) == Ok(Parsed(n, rest))
    requires rest != [] && rest[0].kind != Dot && rest[0].kind != OpenBracket
    ensures Member(ts) == Ok(Parsed(n, rest))
  {
    assert MemberLoop(n, rest) == Ok(Parsed(n, rest));
  }

  lemma CallMemberOf(ts: seq<LexToken>, n: Node, rest: seq<LexToken>)
    requires Member(ts) == Ok(Parsed(n, rest))
    requires rest != [] && rest[0].kind != OpenParen
    ensures CallMember(ts) == Ok(Parsed(n, rest))
  {
  }

  lemma MultiplicativeOf(ts: seq<LexToken>, n: Node, rest: seq<LexToken>)
    requires CallMember(ts) == Ok(Parsed(n, rest))
    requires rest != [] && !IsMultiplicative(rest[0].value)
    ensures Multiplicative(ts) == Ok(Parsed(n, rest))
  {
    MultiplicativeLoopStops(n, rest);
  }

  lemma AdditiveOf(ts: seq<LexToken>, n: Node, rest: seq<LexToken>)
    requires Multiplicative(ts) == Ok(Parsed(n, rest))
    requires rest != [] && !IsAdditive(rest[0].value)
    ensures Additive(ts) == Ok(Parsed(n, rest))
  {
    AdditiveLoopStops(n, rest);
  }

  lemma BitwiseOf(ts: seq<LexToken>, n: Node, rest: seq<LexToken>)
    requires Additive(ts) == Ok(Parsed(n, rest))
    requires rest != [] && (rest[0].kind != LogicToken || (|rest| >= 2 && rest[1].kind == LogicToken))
    ensures Bitwise(ts) == Ok(Parsed(n, rest))
  {
    assert BitwiseLoop(n, rest) == Ok(Parsed(n, rest));
  }

  lemma ArrayExprOf(ts: seq<LexToken>, n: Node, rest: seq<LexToken>)
    requires ts != [] && ts[0].kind != OpenBracket
    requires Bitwise(ts) == Ok(Parsed(n, rest))
    ensures ArrayExpr(ts) == Ok(Parsed(n, rest))
  {
  }

  lemma AssignOf(ts: seq<LexToken>, n: Node, rest: seq<LexToken>)
    requires ArrayExpr(ts) == Ok(Parsed(n, rest))
    requires rest != [] && rest[0].kind != EquToken
    ensures Assign(ts) == Ok(Parsed(n, rest))
  {
  }

  lemma ComparisonOf(ts: seq<LexToken>, n: Node, rest: seq<LexToken>)
    requires Assign(ts) == Ok(Parsed(n, rest))
    requires rest != [] && rest[0].kind != CompareToken
    ensures Comparison(ts) == Ok(Parsed(n, rest))
  {
  }

  lemma NegComparisonOf(ts: seq<LexToken>, n: Node, rest: seq<LexToken>)
    requires ts != [] && ts[0].kind != NotToken
    requires Comparison(ts) == Ok(Parsed(n, rest))
    requires rest != [] && rest[0].kind != NotToken
    ensures NegComparison(ts) == Ok(Parsed(n, rest))
  {
  }

  lemma ExprOf(ts: seq<LexToken>, n: Node, rest: seq<LexToken>)
    requires NegComparison(ts) == Ok(Parsed(n, rest))
    requires rest != [] && (rest[0].kind != LogicToken || (|rest| >= 2 && rest[1].kind != LogicToken))
    ensures Expr(ts) == Ok(Parsed(n, rest))
  {
    LogicalLoopStops(n, rest);
  }

  // ---------------------------------------------------------------------
  // One turn of each operator loop

  lemma LogicalLoopStep(left: Node, ts: seq<LexToken>, right: Node, rest: seq<LexToken>)
    requires |ts| >= 2 && ts[0].kind == LogicToken && ts[1].kind == LogicToken
    requires NegComparison(ts[2..]) == Ok(Parsed(right, rest))
    ensures LogicalLoop(left, ts) == LogicalLoop(LogicalExpr(left, right, ts[0].value + ts[1].value), rest)
  {
  }

  lemma BitwiseLoopStep(left: Node, ts: seq<LexToken>, right: Node, rest: seq<LexToken>)
    requires |ts| >= 2 && ts[0].kind == LogicToken && ts[1].kind != LogicToken && ts[1].kind != EquToken
    requires Additive(ts[1..]) == Ok(Parsed(right, rest))
    ensures BitwiseLoop(left, ts) == BitwiseLoop(BitwiseExpr(left, right, ts[0].value), rest)
  {
  }

  lemma AdditiveLoopStep(left: Node, ts: seq<LexToken>, right: Node, rest: seq<LexToken>)
    requires |ts| >= 2 && IsAdditive(ts[0].value) && ts[1].kind != EquToken
    requires Multiplicative(ts[1..]) == Ok(Parsed(right, rest))
    ensures AdditiveLoop(left, ts) == AdditiveLoop(BinaryExpr(left, right, ts[0].value), rest)
  {
  }

  lemma AdditiveAssignStep(left: Node, ts: seq<LexToken>, right: Node, rest: seq<LexToken>)
    requires |ts| >= 2 && IsAdditive(ts[0].value) && ts[1].kind == EquToken
    requires Multiplicative(ts[2..]) == Ok(Parsed(right, rest))
    ensures AdditiveLoop(left, ts) == AdditiveLoop(BinOpAssignExpr(left, right, ts[0].value + ts[1].value), rest)
  {
  }

  lemma MultiplicativeLoopStep(left: Node, ts: seq<LexToken>, right: Node, rest: seq<LexToken>)
    requires |ts| >= 2 && IsMultiplicative(ts[0].value) && ts[1].kind != EquToken
    requires CallMember(ts[1..]) == Ok(Parsed(right, rest))
    ensures MultiplicativeLoop(left, ts) == MultiplicativeLoop(BinaryExpr(left, right, ts[0].value), rest)
  {
  }

  /** A turn of the logical loop whose right operand is one atom. */
  lemma LogicalAtom(left: Node, ts: seq<LexToken>)
    requires |ts| >= 3 && ts[0].kind == LogicToken && ts[1].kind == LogicToken && IsAtom(ts[2])
    requires EndsComparand(ts[3..])
    ensures LogicalLoop(left, ts) == LogicalLoop(LogicalExpr(left, AtomNode(ts[2]), ts[0].value + ts[1].value), ts[3..])
  {
    Drop(ts, 2);
    AtomComparand(ts[2..]);
    LogicalLoopStep(left, ts, AtomNode(ts[2]), ts[3..]);
  }

  /** A turn of the bitwise loop whose right operand is one atom. */
  lemma BitwiseAtom(left: Node, ts: seq<LexToken>)
    requires |ts| >= 3 && ts[0].kind == LogicToken && IsAtom(ts[1])
    requires EndsFactor(ts[2]) && !IsAdditive(ts[2].value)
    ensures BitwiseLoop(left, ts) == BitwiseLoop(BitwiseExpr(left, AtomNode(ts[1]), ts[0].value), ts[2..])
  {
    Drop(ts, 1);
    AtomFactor(ts[1..]);
    AdditiveOf(ts[1..], AtomNode(ts[1]), ts[2..]);
    BitwiseLoopStep(left, ts, AtomNode(ts[1]), ts[2..]);
  }

  /** A turn of the additive loop whose right operand is one atom. */
  lemma AdditiveAtom(left: Node, ts: seq<LexToken>)
    requires |ts| >= 3 && IsAdditive(ts[0].value) && IsAtom(ts[1]) && EndsFactor(ts[2])
    ensures AdditiveLoop(left, ts) == AdditiveLoop(BinaryExpr(left, AtomNode(ts[1]), ts[0].value), ts[2..])
  {
    Drop(ts, 1);
    AtomFactor(ts[1..]);
    AdditiveLoopStep(left, ts, AtomNode(ts[1]), ts[2..]);
  }

  /** A turn of the multiplicative loop whose right operand is one atom. */
  lemma MultiplicativeAtom(left: Node, ts: seq<LexToken>)
    requires |ts| >= 3 && IsMultiplicative(ts[0].value) && IsAtom(ts[1])
    requires ts[2].kind != Dot && ts[2].kind != OpenBracket && ts[2].kind != OpenParen
    ensures MultiplicativeLoop(left, ts) == MultiplicativeLoop(BinaryExpr(left, AtomNode(ts[1]), ts[0].value), ts[2..])
  {
    Drop(ts, 1);
    PrimaryAtom(ts[1..]);
    MemberOf(ts[1..], AtomNode(ts[1]), ts[2..]);
    CallMemberOf(ts[1..], AtomNode(ts[1]), ts[2..]);
    MultiplicativeLoopStep(left, ts, AtomNode(ts[1]), ts[2..]);
  }

  lemma LogicalLoopStops(left: Node, ts: seq<LexToken>)
    requires ts != [] && (ts[0].kind != LogicToken || (|ts| >= 2 && ts[1].kind != LogicToken))
    ensures LogicalLoop(left, ts) == Ok(Parsed(left, ts))
  {
  }

  lemma BitwiseLoopStops(left: Node, ts: seq<LexToken>)
    requires ts != [] && ts[0].kind != LogicToken
    ensures BitwiseLoop(left, ts) == Ok(Parsed(left, ts))
  {
  }

  lemma AdditiveLoopStops(left: Node, ts: seq<LexToken>)
    requires ts != [] && !IsAdditive(ts[0].value)
    ensures AdditiveLoop(left, ts) == Ok(Parsed(left, ts))
  {
  }

  lemma MultiplicativeLoopStops(left: Node, ts: seq<LexToken>)
    requires ts != [] && !IsMultiplicative(ts[0].value)
    ensures MultiplicativeLoop(left, ts) == Ok(Parsed(left, ts))
  {
  }

  // ---------------------------------------------------------------------
  // Several levels at once

  lemma FactorOfPrimary(ts: seq<LexToken>, n: Node, rest: seq<LexToken>)
    requires Primary(ts) == Ok(Parsed(n, rest)) && rest != [] && EndsFactor(rest[0])
    ensures Multiplicative(ts) == Ok(Parsed(n, rest))
  {
    MemberOf(ts, n, rest);
    CallMemberOf(ts, n, rest);
    MultiplicativeOf(ts, n, rest);
  }

  lemma OperandOfFactor(ts: seq<LexToken>, n: Node, rest: seq<LexToken>)
    requires ts != [] && ts[0].kind != OpenBracket
    requires Multiplicative(ts) == Ok(Parsed(n, rest)) && EndsOperand(rest)
    ensures ArrayExpr(ts) == Ok(Parsed(n, rest))
  {
    AdditiveOf(ts, n, rest);
    BitwiseOf(ts, n, rest);
    ArrayExprOf(ts, n, rest);
  }

  lemma ComparandOfAssign(ts: seq<LexToken>, n: Node, rest: seq<LexToken>)
    requires ts != [] && ts[0].kind != NotToken
    requires Assign(ts) == Ok(Parsed(n, rest)) && rest != [] && rest[0].kind != CompareToken && rest[0].kind != NotToken
    ensures NegComparison(ts) == Ok(Parsed(n, rest))
  {
    ComparisonOf(ts, n, rest);
    NegComparisonOf(ts, n, rest);
  }

  lemma ComparandOfOperand(ts: seq<LexToken>, n: Node, rest: seq<LexToken>)
    requires ts != [] && ts[0].kind != NotToken
    requires ArrayExpr(ts) == Ok(Parsed(n, rest)) && EndsComparand(rest)
    ensures NegComparison(ts) == Ok(Parsed(n, rest))
  {
    AssignOf(ts, n, rest);
    ComparandOfAssign(ts, n, rest);
  }

  lemma ExprOfAssign(ts: seq<LexToken>, n: Node, rest: seq<LexToken>)
    requires ts != [] && ts[0].kind != NotToken
    requires Assign(ts) == Ok(Parsed(n, rest)) && EndsExpr(rest)
    ensures Expr(ts) == Ok(Parsed(n, rest))
  {
    ComparandOfAssign(ts, n, rest);
    ExprOf(ts, n, rest);
  }

  lemma ExprOfComparison(ts: seq<LexToken>, n: Node, rest: seq<LexToken>)
    requires ts != [] && ts[0].kind != NotToken
    requires Comparison(ts) == Ok(Parsed(n, rest)) && EndsExpr(rest)
    ensures Expr(ts) == Ok(Parsed(n, rest))
  {
    NegComparisonOf(ts, n, rest);
    ExprOf(ts, n, rest);
  }

  lemma AtomFactor(ts: seq<LexToken>)
    requires |ts| >= 2 && IsAtom(ts[0]) && EndsFactor(ts[1])
    ensures Multiplicative(ts) == Ok(Parsed(AtomNode(ts[0]), ts[1..]))
  {
    PrimaryAtom(ts);
    FactorOfPrimary(ts, AtomNode(ts[0]), ts[1..]);
  }

  lemma AtomOperand(ts: seq<LexToken>)
    requires ts != [] && IsAtom(ts[0]) && EndsOperand(ts[1..])
    ensures ArrayExpr(ts) == Ok(Parsed(AtomNode(ts[0]), ts[1..]))
  {
    AtomFactor(ts);
    OperandOfFactor(ts, AtomNode(ts[0]), ts[1..]);
  }

  lemma AtomComparand(ts: seq<LexToken>)
    requires ts != [] && IsAtom(ts[0]) && EndsComparand(ts[1..])
    ensures NegComparison(ts) == Ok(Parsed(AtomNode(ts[0]), ts[1..]))
  {
    AtomOperand(ts);
    ComparandOfOperand(ts, AtomNode(ts[0]), ts[1..]);
  }

  /** An atom before tokens that end an expression is that expression. */
  lemma AtomExpr(ts: seq<LexToken>)
    requires ts != [] && IsAtom(ts[0]) && EndsExpr(ts[1..])
    ensures Expr(ts) == Ok(Parsed(AtomNode(ts[0]), ts[1..]))
  {
    AtomComparand(ts);
    ExprOf(ts, AtomNode(ts[0]), ts[1..]);
  }

  // ---------------------------------------------------------------------
  // Statements and blocks

  /** Taking one more token off a suffix. */
  lemma Drop(ts: seq<LexToken>, i: nat)
    requires i < |ts|
    ensures ts[i..][1..] == ts[i + 1..]
  {
  }

  lemma Skip(ts: seq<LexToken>, i: nat, j: nat)
    requires i + j <= |ts|
    ensures ts[i..][j..] == ts[i + j..]
  {
  }

  /** The kinds that start a statement other than an expression. */
  predicate StartsStatement(k: TokenType) {
    IsTypeKeyword(k) || k == FunctionToken || k == ReturnToken || k == DeleteToken || k == ASMToken ||
    k == ForToken || k == WhileToken || k == IfToken || k == ImportToken
  }

  lemma ExprStatement(ts: seq<LexToken>)
    requires ts != [] && !StartsStatement(ts[0].kind)
    ensures Statement(ts) == Expr(ts)
  {
  }

  /** Which statement function the first token picks. */
  lemma StatementKinds(ts: seq<LexToken>)
    requires ts != []
    ensures IsTypeKeyword(ts[0].kind) ==> Statement(ts) == VarDeclStmt(ts)
    ensures ts[0].kind == FunctionToken ==> Statement(ts) == FunDeclStmt(ts)
    ensures ts[0].kind == ForToken ==> Statement(ts) == ForStmt(ts)
    ensures ts[0].kind == IfToken ==> Statement(ts) == IfStmt(ts)
  {
  }

  lemma BlockEnds(acc: seq<Node>, ts: seq<LexToken>)
    requires ts != [] && (ts[0].kind == CloseBrace || ts[0].kind == EOF)
    ensures Block(acc, ts) == Ok(ParsedSeq(acc, ts[1..]))
  {
  }

  lemma BlockStep(acc: seq<Node>, ts: seq<LexToken>, n: Node, rest: seq<LexToken>)
    requires ts != [] && ts[0].kind != CloseBrace && ts[0].kind != EOF
    requires Statement(ts) == Ok(Parsed(n, rest))
    ensures Block(acc, ts) == Block(acc + [n], rest)
  {
  }
}
