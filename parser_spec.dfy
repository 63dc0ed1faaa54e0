/** What the recursive-descent parser of ast/parser.ts computes, as functions
    on the token list. Each `parse_*` method becomes a function from the
    tokens still to be read to the node it builds and the tokens it leaves;
    each `while` loop of the source becomes a function that carries what the
    loop has built so far. `Parser.Parser` is proved to do what these
    functions say.

    Reading the kind or the value of a token that is not there (once the
    list is used up) is a `TypeError` in JavaScript: that is `Crash`. A
    message printed before `Deno.exit` is `Fatal`. */
module ParserSpec {
  import opened Wrappers
  import opened Numerals
  import opened Tokens
  import opened VTypes
  import opened Ast

  /** The message each fatal error prints, by `Text`. */
  datatype Message =
    | NoVariableName
    | NoValue
    | NoDeclSemicolon
    | NoFunctionName
    | NoFunctionParen
    | NoFunctionBody
    | BadParamType
    | NoParamName
    | NoReturnSemicolon
    | NoDeleteName
    | NoDeleteSemicolon
    | NoAsmLine
    | NoAsmSemicolon
    | NoForParen
    | NoConditionSemicolon
    | NoActionSemicolon
    | NoForClose
    | NoForBody
    | NoWhileParen
    | NoWhileClose
    | NoWhileBody
    | NoIfParen
    | NoIfClose
    | NoIfBody
    | NoElseBody
    | NoImportSemicolon
    | BadImport
    | NoNotEquals
    | NoArrayComma
    | BadMember
    | NoMemberClose
    | NoCallParen
    | NoCallClose
    | NoGroupClose

  /** What is printed for each message. */
  function Text(m: Message): string {
    match m
    case NoVariableName => "Expected variable name"
    case NoValue => "Cannot declare variables with no value as all variables are immutable."
    case NoDeclSemicolon => "Expected semicolon after variable declaration statement"
    case NoFunctionName => "Expected function name"
    case NoFunctionParen => "Expected open parenthesis after function name"
    case NoFunctionBody => "Function body expected"
    case BadParamType => "Unexpected type provided in function parameters list: "
    case NoParamName => "Expected parameter name"
    case NoReturnSemicolon => "Expected semicolon after return statement"
    case NoDeleteName => "Expected identifier in delete statement"
    case NoDeleteSemicolon => "Expected semicolon after delete statement"
    case NoAsmLine => "Expected string as a asm line"
    case NoAsmSemicolon => "Expected semicolon after asm line"
    case NoForParen => "Open parenthesis expected after for keyword"
    case NoConditionSemicolon => "Semicolon expected after condition inside of a for loop"
    case NoActionSemicolon => "Semicolon expected after action inside of a for loop"
    case NoForClose => "Close parenthesis expected after for loop condition"
    case NoForBody => "Expected for loop body"
    case NoWhileParen => "Open parenthesis expected after while keyword"
    case NoWhileClose => "Close parenthesis expected after while loop condition"
    case NoWhileBody => "While loop body expected"
    case NoIfParen => "Open parenthesis expected after if keyword"
    case NoIfClose => "Close parenthesis expected after if condition"
    case NoIfBody => "If keyword body expected"
    case NoElseBody => "Else keyword body expected"
    case NoImportSemicolon => "Expected semicolon after import statement"
    case BadImport => "Can not import value of type "
    case NoNotEquals => "Expected equality token after not symbol"
    case NoArrayComma => "Comma expected after value in array literal"
    case BadMember => "Unable to compute member expression after the dot"
    case NoMemberClose => "Expected close bracket after computed member expression"
    case NoCallParen => "Expected open parenthesis"
    case NoCallClose => "Expected close parenthesis"
    case NoGroupClose => "Closing parenthesis expected after an expression"
  }

  datatype ParseError = Fatal(message: Message) | Crash

  /** A node and the tokens left after it. */
  datatype Parsed = Parsed(node: Node, rest: seq<LexToken>)

  /** A list of nodes and the tokens left after it. */
  datatype ParsedSeq = ParsedSeq(nodes: seq<Node>, rest: seq<LexToken>)

  /** A function's parameter list and the tokens left after it. */
  datatype ParsedParams = ParsedParams(params: seq<(string, VType)>, rest: seq<LexToken>)

  /** A token taken by `expect` and the tokens left after it. */
  datatype Took = Took(token: LexToken, rest: seq<LexToken>)

  /** At least one token was taken: what every parse function promises,
      and what makes the parser terminate. */
  predicate Eaten(rest: seq<LexToken>, ts: seq<LexToken>) {
    |rest| < |ts|
  }

  /** No token was added: what every loop promises, since it may stop at
      once. */
  predicate NotLonger(rest: seq<LexToken>, ts: seq<LexToken>) {
    |rest| <= |ts|
  }

  /** `at().type` */
  function Kind(ts: seq<LexToken>): (r: Result<TokenType, ParseError>)
    ensures r.Ok? <==> ts != []
    ensures r.Ok? ==> r.value == ts[0].kind
    ensures r.Err? ==> r.error == Crash
  {
    if ts == [] then Err(Crash) else Ok(ts[0].kind)
  }

  /** `next().type` */
  function NextKind(ts: seq<LexToken>): (r: Result<TokenType, ParseError>)
    ensures r.Ok? <==> |ts| >= 2
    ensures r.Ok? ==> r.value == ts[1].kind
    ensures r.Err? ==> r.error == Crash
  {
    if |ts| < 2 then Err(Crash) else Ok(ts[1].kind)
  }

  /** `eof()` */
  function Eof(ts: seq<LexToken>): (r: Result<bool, ParseError>)
    ensures r.Ok? <==> ts != []
    ensures r.Ok? ==> (r.value <==> ts[0].kind == EOF)
    ensures r.Err? ==> r.error == Crash
  {
    if ts == [] then Err(Crash) else Ok(ts[0].kind == EOF)
  }

  /** `expect(kind, message)`: the next token is taken whatever it is, and
      must be of the kind expected. */
  function Expect(ts: seq<LexToken>, kind: TokenType, message: Message): (r: Result<Took, ParseError>)
    ensures r.Ok? <==> ts != [] && ts[0].kind == kind
    ensures r.Ok? ==> r.value == Took(ts[0], ts[1..])
    ensures r.Err? ==> r.error == (if ts == [] then Crash else Fatal(message))
  {
    if ts == [] then Err(Crash)
    else if ts[0].kind != kind then Err(Fatal(message))
    else Ok(Took(ts[0], ts[1..]))
  }

  /** The type a variable declaration's keyword names. */
  function DeclType(keyword: string): (t: Option<VType>)
    ensures t.Some? <==> keyword == "word" || keyword == "int16" || keyword == "str" || keyword == "ptr"
  {
    if keyword == "word" || keyword == "int16" then Some(NumberType)
    else if keyword == "str" then Some(StringType)
    else if keyword == "ptr" then Some(PointerType)
    else None
  }

  /** The type a parameter's type token names. */
  function ParamType(kind: TokenType): (t: Option<VType>)
    ensures t.Some? <==> kind == WordToken || kind == PtrToken || kind == StrToken
  {
    if kind == WordToken then Some(NumberType)
    else if kind == PtrToken then Some(PointerType)
    else if kind == StrToken then Some(StringType)
    else None
  }

  predicate IsTypeKeyword(kind: TokenType) {
    kind == WordToken || kind == PtrToken || kind == StrToken
  }

  predicate IsAdditive(value: string) {
    value == "+" || value == "-"
  }

  predicate IsMultiplicative(value: string) {
    value == "*" || value == "/" || value == "%"
  }

  // ---------------------------------------------------------------------
  // The program and the statements

  /** The loop of `parse`: statements until the EOF token, which is left in
      place. */
  function TopLevel(acc: seq<Node>, ts: seq<LexToken>): (r: Result<ParsedSeq, ParseError>)
    ensures r.Ok? ==> NotLonger(r.value.rest, ts) && r.value.rest != [] && r.value.rest[0].kind == EOF
    decreases |ts|, 20
  {
    var eof :- Eof(ts);
    if eof then Ok(ParsedSeq(acc, ts))
    else
      var s :- Statement(ts);
      TopLevel(acc + [s.node], s.rest)
  }

  /** `parse` on the tokens of a source text. */
  function ParseTokens(ts: seq<LexToken>): (r: Result<Node, ParseError>)
    ensures r.Ok? ==> r.value.Program?
  {
    var b :- TopLevel([], ts);
    Ok(Program(b.nodes))
  }

  /** The loop shared by every braced body: statements until a closing
      brace or the EOF token, and then that token is taken too. */
  function Block(acc: seq<Node>, ts: seq<LexToken>): (r: Result<ParsedSeq, ParseError>)
    ensures r.Ok? ==> Eaten(r.value.rest, ts)
    decreases |ts|, 20
  {
    var eof :- Eof(ts);
    if eof || ts[0].kind == CloseBrace then Ok(ParsedSeq(acc, ts[1..]))
    else
      var s :- Statement(ts);
      Block(acc + [s.node], s.rest)
  }

  /** `parse_statement`: the first token picks the statement; anything else
      is an expression. */
  function Statement(ts: seq<LexToken>): (r: Result<Parsed, ParseError>)
    ensures r.Ok? ==> Eaten(r.value.rest, ts)
    decreases |ts|, 19
  {
    var k :- Kind(ts);
    if IsTypeKeyword(k) then VarDeclStmt(ts)
    else if k == FunctionToken then FunDeclStmt(ts)
    else if k == ReturnToken then ReturnStmt(ts)
    else if k == DeleteToken then DelStmt(ts)
    else if k == ASMToken then AsmStmt(ts)
    else if k == ForToken then ForStmt(ts)
    else if k == WhileToken then WhileStmt(ts)
    else if k == IfToken then IfStmt(ts)
    else if k == ImportToken then ImportStmt(ts)
    else Expr(ts)
  }

  /** `parse_var_decl`: type keyword, name, one token (any but `;`), the
      value, and `;`. */
  function VarDeclStmt(ts: seq<LexToken>): (r: Result<Parsed, ParseError>)
    requires ts != [] && IsTypeKeyword(ts[0].kind)
    ensures r.Ok? ==> Eaten(r.value.rest, ts)
    decreases |ts|, 18
  {
    var vtype := DeclType(ts[0].value).value;
    var name :- Expect(ts[1..], IdentToken, NoVariableName);
    var k :- Kind(name.rest);
    if k == Semicolon then Err(Fatal(NoValue))
    else
      var v :- Expr(name.rest[1..]);
      var semi :- Expect(v.rest, Semicolon, NoDeclSemicolon);
      Ok(Parsed(VarDecl(name.token.value, v.node, vtype), semi.rest))
  }

  /** `parse_fun_decl`: `fn`, name, `(`, parameters, `)`, `{`, body. */
  function FunDeclStmt(ts: seq<LexToken>): (r: Result<Parsed, ParseError>)
    requires ts != []
    ensures r.Ok? ==> Eaten(r.value.rest, ts)
    decreases |ts|, 18
  {
    var name :- Expect(ts[1..], IdentToken, NoFunctionName);
    var open :- Expect(name.rest, OpenParen, NoFunctionParen);
    var ps :- Params([], open.rest);
    var brace :- Expect(ps.rest, OpenBrace, NoFunctionBody);
    var body :- Block([], brace.rest);
    Ok(Parsed(FunDecl(name.token.value, ps.params, body.nodes), body.rest))
  }

  /** The parameter loop: a type token and a name, then an optional comma,
      until a closing parenthesis or the EOF token, which is taken too. */
  function Params(acc: seq<(string, VType)>, ts: seq<LexToken>): (r: Result<ParsedParams, ParseError>)
    ensures r.Ok? ==> Eaten(r.value.rest, ts)
    decreases |ts|
  {
    var eof :- Eof(ts);
    if eof || ts[0].kind == CloseParen then Ok(ParsedParams(acc, ts[1..]))
    else
      var vtype := ParamType(ts[0].kind);
      if vtype.None? then Err(Fatal(BadParamType))
      else
        var name :- Expect(ts[1..], IdentToken, NoParamName);
        var k :- Kind(name.rest);
        Params(acc + [(name.token.value, vtype.value)], if k == Comma then name.rest[1..] else name.rest)
  }

  /** `parse_ret_statement` */
  function ReturnStmt(ts: seq<LexToken>): (r: Result<Parsed, ParseError>)
    requires ts != []
    ensures r.Ok? ==> Eaten(r.value.rest, ts)
    decreases |ts|, 18
  {
    var v :- Expr(ts[1..]);
    var semi :- Expect(v.rest, Semicolon, NoReturnSemicolon);
    Ok(Parsed(ReturnStatement(v.node), semi.rest))
  }

  /** `parse_del_statement` */
  function DelStmt(ts: seq<LexToken>): (r: Result<Parsed, ParseError>)
    requires ts != []
    ensures r.Ok? ==> Eaten(r.value.rest, ts)
    decreases |ts|, 18
  {
    var name :- Expect(ts[1..], IdentToken, NoDeleteName);
    var semi :- Expect(name.rest, Semicolon, NoDeleteSemicolon);
    Ok(Parsed(DelStatement(name.token.value), semi.rest))
  }

  /** `parse_asm_statement` */
  function AsmStmt(ts: seq<LexToken>): (r: Result<Parsed, ParseError>)
    requires ts != []
    ensures r.Ok? ==> Eaten(r.value.rest, ts)
    decreases |ts|, 18
  {
    var line :- Expect(ts[1..], StringToken, NoAsmLine);
    var semi :- Expect(line.rest, Semicolon, NoAsmSemicolon);
    Ok(Parsed(ASMLine(line.token.value), semi.rest))
  }

  /** `parse_for_statement` */
  function ForStmt(ts: seq<LexToken>): (r: Result<Parsed, ParseError>)
    requires ts != []
    ensures r.Ok? ==> Eaten(r.value.rest, ts)
    decreases |ts|, 18
  {
    var open :- Expect(ts[1..], OpenParen, NoForParen);
    var cond :- ForClause(open.rest, NoConditionSemicolon);
    var action :- ForClause(cond.rest, NoActionSemicolon);
    var close :- Expect(action.rest, CloseParen, NoForClose);
    var brace :- Expect(close.rest, OpenBrace, NoForBody);
    var body :- Block([], brace.rest);
    Ok(Parsed(ForStatement(cond.node, action.node, body.nodes), body.rest))
  }

  /** One clause of a `for` header: a lone `;` is an empty clause, which is
      a `NullLiteral`; otherwise an expression and then `;`, except that no
      `;` is expected after an expression that is itself a `NullLiteral`. */
  function ForClause(ts: seq<LexToken>, message: Message): (r: Result<Parsed, ParseError>)
    ensures r.Ok? ==> Eaten(r.value.rest, ts)
    decreases |ts|, 14
  {
    var k :- Kind(ts);
    if k == Semicolon then Ok(Parsed(NullLiteral, ts[1..]))
    else
      var e :- Expr(ts);
      if e.node == NullLiteral then Ok(e)
      else
        var semi :- Expect(e.rest, Semicolon, message);
        Ok(Parsed(e.node, semi.rest))
  }

  /** `parse_while_statement` */
  function WhileStmt(ts: seq<LexToken>): (r: Result<Parsed, ParseError>)
    requires ts != []
    ensures r.Ok? ==> Eaten(r.value.rest, ts)
    decreases |ts|, 18
  {
    var open :- Expect(ts[1..], OpenParen, NoWhileParen);
    var cond :- Expr(open.rest);
    var close :- Expect(cond.rest, CloseParen, NoWhileClose);
    var brace :- Expect(close.rest, OpenBrace, NoWhileBody);
    var body :- Block([], brace.rest);
    Ok(Parsed(WhileStatement(cond.node, body.nodes), body.rest))
  }

  /** `parse_if_statement`: the else body is kept only when it holds a
      statement. */
  function IfStmt(ts: seq<LexToken>): (r: Result<Parsed, ParseError>)
    requires ts != []
    ensures r.Ok? ==> Eaten(r.value.rest, ts)
    ensures r.Ok? ==> r.value.node.IfStatement? && (r.value.node.elsebody.Some? ==> r.value.node.elsebody.value != [])
    decreases |ts|, 18
  {
    var open :- Expect(ts[1..], OpenParen, NoIfParen);
    var cond :- Expr(open.rest);
    var close :- Expect(cond.rest, CloseParen, NoIfClose);
    var brace :- Expect(close.rest, OpenBrace, NoIfBody);
    var body :- Block([], brace.rest);
    var otherwise :- ElseClause(body.rest);
    var kept := if |otherwise.nodes| > 0 then Some(otherwise.nodes) else None;
    Ok(Parsed(IfStatement(cond.node, body.nodes, kept), otherwise.rest))
  }

  /** The statements of an `else` block, if one follows; none otherwise. */
  function ElseClause(ts: seq<LexToken>): (r: Result<ParsedSeq, ParseError>)
    ensures r.Ok? ==> NotLonger(r.value.rest, ts)
    decreases |ts|, 18
  {
    var k :- Kind(ts);
    if k != ElseToken then Ok(ParsedSeq([], ts))
    else
      var brace :- Expect(ts[1..], OpenBrace, NoElseBody);
      Block([], brace.rest)
  }

  /** `parse_import_statement`: the token after `import` is taken, then `;`
      is expected, and only then is the token's kind looked at. */
  function ImportStmt(ts: seq<LexToken>): (r: Result<Parsed, ParseError>)
    requires ts != []
    ensures r.Ok? ==> Eaten(r.value.rest, ts)
    decreases |ts|, 18
  {
    var rest := ts[1..];
    if rest == [] then Err(Crash)
    else
      var semi :- Expect(rest[1..], Semicolon, NoImportSemicolon);
      var v := rest[0];
      if v.kind == StringToken then Ok(Parsed(ImportStatement(v.value, false), semi.rest))
      else if v.kind == IdentToken then Ok(Parsed(ImportStatement(v.value, true), semi.rest))
      else Err(Fatal(BadImport))
  }

  // ---------------------------------------------------------------------
  // The expressions, from the loosest binding to the tightest

  /** `parse_expr` */
  function Expr(ts: seq<LexToken>): (r: Result<Parsed, ParseError>)
    ensures r.Ok? ==> Eaten(r.value.rest, ts)
    decreases |ts|, 13
  {
    Logical(ts)
  }

  /** `parse_logical_expr` */
  function Logical(ts: seq<LexToken>): (r: Result<Parsed, ParseError>)
    ensures r.Ok? ==> Eaten(r.value.rest, ts)
    decreases |ts|, 12
  {
    var left :- NegComparison(ts);
    LogicalLoop(left.node, left.rest)
  }

  /** Its loop: two logic tokens in a row (`&&`, `||`, `^^`) join the left
      side so far to the next operand. */
  function LogicalLoop(left: Node, ts: seq<LexToken>): (r: Result<Parsed, ParseError>)
    ensures r.Ok? ==> NotLonger(r.value.rest, ts)
    decreases |ts|, 0
  {
    var eof :- Eof(ts);
    if eof || ts[0].kind != LogicToken then Ok(Parsed(left, ts))
    else
      var next :- NextKind(ts);
      if next != LogicToken then Ok(Parsed(left, ts))
      else
        var right :- NegComparison(ts[2..]);
        LogicalLoop(LogicalExpr(left, right.node, ts[0].value + ts[1].value), right.rest)
  }

  /** `parse_neg_comparison_expr`: `!` before a comparison negates it; `!`
      after one, with `=`, makes the operator `!=`. */
  function NegComparison(ts: seq<LexToken>): (r: Result<Parsed, ParseError>)
    ensures r.Ok? ==> Eaten(r.value.rest, ts)
    decreases |ts|, 11
  {
    var k :- Kind(ts);
    if k == NotToken then
      var v :- Comparison(ts[1..]);
      Ok(Parsed(NotExpr(v.node), v.rest))
    else
      var left :- Comparison(ts);
      var k2 :- Kind(left.rest);
      if k2 != NotToken then Ok(left)
      else
        var op := left.rest[0].value + "=";
        var eq :- Expect(left.rest[1..], EquToken, NoNotEquals);
        var right :- Comparison(eq.rest);
        Ok(Parsed(ComparisonExpr(left.node, right.node, op), right.rest))
  }

  /** `parse_comparison_expr`: `<` or `>`, and `=` right after it joins the
      operator. */
  function Comparison(ts: seq<LexToken>): (r: Result<Parsed, ParseError>)
    ensures r.Ok? ==> Eaten(r.value.rest, ts)
    decreases |ts|, 10
  {
    var left :- Assign(ts);
    var k :- Kind(left.rest);
    if k != CompareToken then Ok(left)
    else
      var after := left.rest[1..];
      var k2 :- Kind(after);
      var op := if k2 == EquToken then left.rest[0].value + "=" else left.rest[0].value;
      var right :- Assign(if k2 == EquToken then after[1..] else after);
      Ok(Parsed(ComparisonExpr(left.node, right.node, op), right.rest))
  }

  /** `parse_assign_expr`: `=` assigns and `= =` compares. */
  function Assign(ts: seq<LexToken>): (r: Result<Parsed, ParseError>)
    ensures r.Ok? ==> Eaten(r.value.rest, ts)
    decreases |ts|, 9
  {
    var left :- ArrayExpr(ts);
    var k :- Kind(left.rest);
    if k != EquToken then Ok(left)
    else
      var after := left.rest[1..];
      var k2 :- Kind(after);
      if k2 == EquToken then
        var right :- ArrayExpr(after[1..]);
        Ok(Parsed(ComparisonExpr(left.node, right.node, "=="), right.rest))
      else
        var right :- ArrayExpr(after);
        Ok(Parsed(AssignExpr(left.node, right.node), right.rest))
  }

  /** `parse_array_expr`: `[` starts an array literal. */
  function ArrayExpr(ts: seq<LexToken>): (r: Result<Parsed, ParseError>)
    ensures r.Ok? ==> Eaten(r.value.rest, ts)
    decreases |ts|, 8
  {
    var k :- Kind(ts);
    if k != OpenBracket then Bitwise(ts)
    else ArrayValues([], ts[1..])
  }

  /** Its loop: values, each followed by a comma unless a `]` follows, until
      a `]` or the EOF token, which is taken too. */
  function ArrayValues(acc: seq<Node>, ts: seq<LexToken>): (r: Result<Parsed, ParseError>)
    ensures r.Ok? ==> Eaten(r.value.rest, ts)
    decreases |ts|, 14
  {
    var eof :- Eof(ts);
    if eof || ts[0].kind == CloseBracket then Ok(Parsed(ArrayLiteral(acc), ts[1..]))
    else
      var v :- Expr(ts);
      var k :- Kind(v.rest);
      if k == CloseBracket then ArrayValues(acc + [v.node], v.rest)
      else
        var comma :- Expect(v.rest, Comma, NoArrayComma);
        ArrayValues(acc + [v.node], comma.rest)
  }

  /** `parse_bitwise_expr` */
  function Bitwise(ts: seq<LexToken>): (r: Result<Parsed, ParseError>)
    ensures r.Ok? ==> Eaten(r.value.rest, ts)
    decreases |ts|, 7
  {
    var left :- Additive(ts);
    BitwiseLoop(left.node, left.rest)
  }

  /** Its loop: one logic token (not two) joins the next operand; with `=`
      after it, it is a compound assignment such as `|=`. */
  function BitwiseLoop(left: Node, ts: seq<LexToken>): (r: Result<Parsed, ParseError>)
    ensures r.Ok? ==> NotLonger(r.value.rest, ts)
    decreases |ts|, 0
  {
    var eof :- Eof(ts);
    if eof || ts[0].kind != LogicToken then Ok(Parsed(left, ts))
    else
      var next :- NextKind(ts);
      if next == LogicToken then Ok(Parsed(left, ts))
      else if next == EquToken then
        var right :- Additive(ts[2..]);
        BitwiseLoop(BinOpAssignExpr(left, right.node, ts[0].value + ts[1].value), right.rest)
      else
        var right :- Additive(ts[1..]);
        BitwiseLoop(BitwiseExpr(left, right.node, ts[0].value), right.rest)
  }

  /** `parse_additive_expr` */
  function Additive(ts: seq<LexToken>): (r: Result<Parsed, ParseError>)
    ensures r.Ok? ==> Eaten(r.value.rest, ts)
    decreases |ts|, 6
  {
    var left :- Multiplicative(ts);
    AdditiveLoop(left.node, left.rest)
  }

  /** Its loop: a token whose text is `+` or `-` (of whatever kind) joins
      the next operand; with `=` after it, it is `+=` or `-=`. */
  function AdditiveLoop(left: Node, ts: seq<LexToken>): (r: Result<Parsed, ParseError>)
    ensures r.Ok? ==> NotLonger(r.value.rest, ts)
    decreases |ts|, 0
  {
    if ts == [] then Err(Crash)
    else if !IsAdditive(ts[0].value) then Ok(Parsed(left, ts))
    else
      var next :- NextKind(ts);
      if next == EquToken then
        var right :- Multiplicative(ts[2..]);
        AdditiveLoop(BinOpAssignExpr(left, right.node, ts[0].value + ts[1].value), right.rest)
      else
        var right :- Multiplicative(ts[1..]);
        AdditiveLoop(BinaryExpr(left, right.node, ts[0].value), right.rest)
  }

  /** `parse_multiplicative_expr` */
  function Multiplicative(ts: seq<LexToken>): (r: Result<Parsed, ParseError>)
    ensures r.Ok? ==> Eaten(r.value.rest, ts)
    decreases |ts|, 5
  {
    var left :- CallMember(ts);
    MultiplicativeLoop(left.node, left.rest)
  }

  /** Its loop: a token whose text is `*`, `/` or `%` joins the next operand;
      with `=` after it, it is a compound assignment. */
  function MultiplicativeLoop(left: Node, ts: seq<LexToken>): (r: Result<Parsed, ParseError>)
    ensures r.Ok? ==> NotLonger(r.value.rest, ts)
    decreases |ts|, 0
  {
    if ts == [] then Err(Crash)
    else if !IsMultiplicative(ts[0].value) then Ok(Parsed(left, ts))
    else
      var next :- NextKind(ts);
      if next == EquToken then
        var right :- CallMember(ts[2..]);
        MultiplicativeLoop(BinOpAssignExpr(left, right.node, ts[0].value + ts[1].value), right.rest)
      else
        var right :- CallMember(ts[1..]);
        MultiplicativeLoop(BinaryExpr(left, right.node, ts[0].value), right.rest)
  }

  /** `parse_call_member_expr` */
  function CallMember(ts: seq<LexToken>): (r: Result<Parsed, ParseError>)
    ensures r.Ok? ==> Eaten(r.value.rest, ts)
    decreases |ts|, 4
  {
    var member :- Member(ts);
    var k :- Kind(member.rest);
    if k == OpenParen then Call(member.node, member.rest)
    else Ok(member)
  }

  /** `parse_member_expr` */
  function Member(ts: seq<LexToken>): (r: Result<Parsed, ParseError>)
    ensures r.Ok? ==> Eaten(r.value.rest, ts)
    decreases |ts|, 3
  {
    var obj :- Primary(ts);
    MemberLoop(obj.node, obj.rest)
  }

  /** Its loop: `.name` is a member that is not computed (anything but a
      name after the dot is fatal), `[e]` one that is. */
  function MemberLoop(obj: Node, ts: seq<LexToken>): (r: Result<Parsed, ParseError>)
    ensures r.Ok? ==> NotLonger(r.value.rest, ts)
    decreases |ts|, 0
  {
    var k :- Kind(ts);
    if k == Dot then
      var property :- Primary(ts[1..]);
      if !property.node.IdentLiteral? then Err(Fatal(BadMember))
      else MemberLoop(MemberExpr(obj, property.node, false), property.rest)
    else if k == OpenBracket then
      var property :- Expr(ts[1..]);
      var close :- Expect(property.rest, CloseBracket, NoMemberClose);
      MemberLoop(MemberExpr(obj, property.node, true), close.rest)
    else Ok(Parsed(obj, ts))
  }

  /** `parse_call_expr`: a call, and the call of its result while `(`
      follows. */
  function Call(caller: Node, ts: seq<LexToken>): (r: Result<Parsed, ParseError>)
    ensures r.Ok? ==> Eaten(r.value.rest, ts)
    decreases |ts|, 2
  {
    var args :- Args(ts);
    var call := CallExpr(caller, args.nodes);
    var k :- Kind(args.rest);
    if k == OpenParen then Call(call, args.rest)
    else Ok(Parsed(call, args.rest))
  }

  /** `parse_args`: `(`, the arguments unless `)` follows at once, `)`. */
  function Args(ts: seq<LexToken>): (r: Result<ParsedSeq, ParseError>)
    ensures r.Ok? ==> Eaten(r.value.rest, ts)
    decreases |ts|, 1
  {
    var open :- Expect(ts, OpenParen, NoCallParen);
    var k :- Kind(open.rest);
    var list :- if k == CloseParen then Ok(ParsedSeq([], open.rest)) else ArgumentList(open.rest);
    var close :- Expect(list.rest, CloseParen, NoCallClose);
    Ok(ParsedSeq(list.nodes, close.rest))
  }

  /** `parse_argument_list`: an expression, then more after each comma. */
  function ArgumentList(ts: seq<LexToken>): (r: Result<ParsedSeq, ParseError>)
    ensures r.Ok? ==> Eaten(r.value.rest, ts)
    decreases |ts|, 14
  {
    var first :- Expr(ts);
    ArgumentLoop([first.node], first.rest)
  }

  function ArgumentLoop(acc: seq<Node>, ts: seq<LexToken>): (r: Result<ParsedSeq, ParseError>)
    ensures r.Ok? ==> NotLonger(r.value.rest, ts)
    decreases |ts|, 0
  {
    var eof :- Eof(ts);
    if eof || ts[0].kind != Comma then Ok(ParsedSeq(acc, ts))
    else
      var arg :- Expr(ts[1..]);
      ArgumentLoop(acc + [arg.node], arg.rest)
  }

  /** `parse_primary`: a literal, `(e)` (which is `e` itself), or, for any
      other token, a `NullLiteral` once the token is taken. */
  function Primary(ts: seq<LexToken>): (r: Result<Parsed, ParseError>)
    ensures r.Ok? ==> Eaten(r.value.rest, ts)
    decreases |ts|, 2
  {
    var k :- Kind(ts);
    var t := ts[0];
    if k == IdentToken then Ok(Parsed(IdentLiteral(t.value), ts[1..]))
    else if k == NumToken then Ok(Parsed(NumericLiteral(DecimalValue(t.value)), ts[1..]))
    else if k == StringToken then Ok(Parsed(StringLiteral(t.value), ts[1..]))
    else if k == CharToken then Ok(Parsed(CharLiteral(t.value[0]), ts[1..]))
    else if k == Semicolon then Ok(Parsed(SemicolonNode, ts[1..]))
    else if k == OpenParen then
      var v :- Expr(ts[1..]);
      var close :- Expect(v.rest, CloseParen, NoGroupClose);
      Ok(Parsed(v.node, close.rest))
    else Ok(Parsed(NullLiteral, ts[1..]))
  }
}
