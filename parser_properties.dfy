/** What the parser of ast/parser.ts promises, proved about `ParserSpec`:
    the program is the statements in order, declarations and parameter
    lists read back what they say, and operators build the trees the
    grammar describes. Token positions are written `ts[i]`; "ends an
    expression" is `ParserSteps.EndsExpr` (a `;` does, for one). */
module ParserProperties {
  import opened Wrappers
  import opened Tokens
  import opened VTypes
  import opened Ast
  import opened ParserSpec
  import opened ParserSteps

  // ---------------------------------------------------------------------
  // The program

  /** `acc` in front of the nodes of a successful result; an error as it
      is. */
  function Prefixed(acc: seq<Node>, r: Result<ParsedSeq, ParseError>): Result<ParsedSeq, ParseError> {
    if r.Ok? then Ok(ParsedSeq(acc + r.value.nodes, r.value.rest)) else r
  }

  /** The statement loop only appends: it returns what it was given
      followed by what it finds from there, or the error it meets. */
  lemma {:induction false} TopLevelAppends(acc: seq<Node>, ts: seq<LexToken>)
    ensures TopLevel(acc, ts) == Prefixed(acc, TopLevel([], ts))
    decreases |ts|
  {
    if ts == [] {
      assert TopLevel(acc, ts) == Err(Crash) && TopLevel([], ts) == Err(Crash);
    } else if ts[0].kind == EOF {
      assert acc + [] == acc;
    } else if Statement(ts).Err? {
      TopLevelFails(acc, ts);
      TopLevelFails([], ts);
    } else {
      var s := Statement(ts).value;
      TopLevelStep(acc, ts);
      TopLevelStep([], ts);
      assert [] + [s.node] == [s.node];
      TopLevelAppends(acc + [s.node], s.rest);
      TopLevelAppends([s.node], s.rest);
      PrefixedTwice(acc, [s.node], TopLevel([], s.rest));
    }
  }

  /** One turn of the program loop. */
  lemma TopLevelStep(acc: seq<Node>, ts: seq<LexToken>)
    requires ts != [] && ts[0].kind != EOF && Statement(ts).Ok?
    ensures TopLevel(acc, ts) == TopLevel(acc + [Statement(ts).value.node], Statement(ts).value.rest)
  {
  }

  lemma TopLevelFails(acc: seq<Node>, ts: seq<LexToken>)
    requires ts != [] && ts[0].kind != EOF && Statement(ts).Err?
    ensures TopLevel(acc, ts) == Err(Statement(ts).error)
  {
  }

  lemma PrefixedTwice(a: seq<Node>, b: seq<Node>, r: Result<ParsedSeq, ParseError>)
    ensures Prefixed(a, Prefixed(b, r)) == Prefixed(a + b, r)
  {
    if r.Ok? {
      assert a + (b + r.value.nodes) == a + b + r.value.nodes;
    }
  }

  /** At the EOF token the program is empty. */
  lemma EmptyProgram(ts: seq<LexToken>)
    requires ts != [] && ts[0].kind == EOF
    ensures ParseTokens(ts) == Ok(Program([]))
  {
  }

  /** `s` in front of the body of a successful program; an error as it
      is. */
  function WithFirst(s: Node, p: Result<Node, ParseError>): Result<Node, ParseError> {
    if p.Ok? && p.value.Program? then Ok(Program([s] + p.value.body)) else p
  }

  /** Before the EOF token, a program is its first statement followed by
      the program after it, so the body holds the statements in the order
      they were parsed; an error in the first statement is the program's
      error. */
  lemma ProgramIsStatements(ts: seq<LexToken>)
    requires ts != [] && ts[0].kind != EOF
    ensures Statement(ts).Err? ==> ParseTokens(ts) == Err(Statement(ts).error)
    ensures Statement(ts).Ok? ==>
      ParseTokens(ts) == WithFirst(Statement(ts).value.node, ParseTokens(Statement(ts).value.rest))
  {
    if Statement(ts).Ok? {
      var s := Statement(ts).value;
      assert [] + [s.node] == [s.node];
      assert TopLevel([], ts) == TopLevel([s.node], s.rest);
      TopLevelAppends([s.node], s.rest);
    }
  }

  // ---------------------------------------------------------------------
  // Declarations

  /** The type keyword of a declaration names its type: `word` and `int16`
      a number, `str` a string, `ptr` a pointer. */
  lemma DeclTypes(t: LexToken)
    requires IsTypeKeyword(t.kind)
    ensures t.kind == WordToken ==> DeclType(t.value) == Some(NumberType)
    ensures t.kind == StrToken ==> DeclType(t.value) == Some(StringType)
    ensures t.kind == PtrToken ==> DeclType(t.value) == Some(PointerType)
  {
  }

  /** `<type> <name> <any token but ;> <expression>` declares the name with
      the keyword's type and the expression as its value when `;` follows,
      and is fatal when something else does. */
  lemma VarDeclOf(ts: seq<LexToken>, v: Node, rest: seq<LexToken>)
    requires |ts| >= 3 && IsTypeKeyword(ts[0].kind) && ts[1].kind == IdentToken && ts[2].kind != Semicolon
    requires Expr(ts[3..]) == Ok(Parsed(v, rest)) && rest != []
    ensures rest[0].kind == Semicolon ==>
      Statement(ts) == Ok(Parsed(VarDecl(ts[1].value, v, DeclType(ts[0].value).value), rest[1..]))
    ensures rest[0].kind != Semicolon ==> Statement(ts) == Err(Fatal(NoDeclSemicolon))
  {
    Drop(ts, 1);
    Drop(ts, 2);
    assert Statement(ts) == VarDeclStmt(ts);
  }

  /** A `;` right after the declared name is fatal: every variable needs a
      value. */
  lemma VarDeclNeedsValue(ts: seq<LexToken>)
    requires |ts| >= 3 && IsTypeKeyword(ts[0].kind) && ts[1].kind == IdentToken && ts[2].kind == Semicolon
    ensures Statement(ts) == Err(Fatal(NoValue))
  {
    Drop(ts, 1);
    assert Statement(ts) == VarDeclStmt(ts);
  }

  /** The type token a parameter of type `vtype` is written with. */
  function TypeToken(vtype: VType): (t: LexToken)
    ensures ParamType(t.kind) == Some(vtype)
  {
    match vtype
    case NumberType => Token(WordToken, "word")
    case PointerType => Token(PtrToken, "ptr")
    case StringType => Token(StrToken, "str")
  }

  /** A parameter list written out, each parameter as its type token and
      its name with commas between, followed by `tail`. */
  function ParamTokens(params: seq<(string, VType)>, tail: seq<LexToken>): (ts: seq<LexToken>)
    ensures |ts| == |tail| + (if params == [] then 0 else 3 * |params| - 1)
    decreases |params|
  {
    if params == [] then tail
    else
      var head := [TypeToken(params[0].1), Token(IdentToken, params[0].0)];
      if |params| == 1 then head + tail
      else head + [Token(Comma, ",")] + ParamTokens(params[1..], tail)
  }

  /** One parameter: its type token names its type, a name follows, and a
      comma after it is skipped. */
  lemma ParamStep(acc: seq<(string, VType)>, ts: seq<LexToken>)
    requires |ts| >= 3 && ParamType(ts[0].kind).Some? && ts[1].kind == IdentToken
    ensures Params(acc, ts) ==
      Params(acc + [(ts[1].value, ParamType(ts[0].kind).value)], if ts[2].kind == Comma then ts[3..] else ts[2..])
  {
    Drop(ts, 1);
    var rest := ts[2..];
    assert Expect(ts[1..], IdentToken, NoParamName) == Ok(Took(ts[1], rest));
    var next := if rest[0].kind == Comma then rest[1..] else rest;
    assert Params(acc, ts) == Params(acc + [(ts[1].value, ParamType(ts[0].kind).value)], next);
    Drop(ts, 2);
  }

  /** The `)` ends the parameter list and is eaten. */
  lemma ParamsEnd(acc: seq<(string, VType)>, rest: seq<LexToken>)
    ensures Params(acc, [Token(CloseParen, ")")] + rest) == Ok(ParsedParams(acc, rest))
  {
    assert ([Token(CloseParen, ")")] + rest)[1..] == rest;
  }

  /** One written-out parameter, then its comma or the closing `)`. */
  lemma ParamThen(acc: seq<(string, VType)>, p: (string, VType), sep: seq<LexToken>, next: seq<LexToken>)
    requires sep == [Token(Comma, ",")] || (sep == [] && next != [] && next[0].kind == CloseParen)
    ensures Params(acc, [TypeToken(p.1), Token(IdentToken, p.0)] + sep + next) == Params(acc + [p], next)
  {
    var ts := [TypeToken(p.1), Token(IdentToken, p.0)] + sep + next;
    assert ts[0] == TypeToken(p.1) && ts[1] == Token(IdentToken, p.0);
    if sep == [] {
      assert ts[2..] == next;
    } else {
      assert ts[2] == sep[0];
      assert ts[3..] == next;
    }
    ParamStep(acc, ts);
  }

  /** Reading a written-out parameter list up to its `)` gives back the
      parameters, in order, as (name, type) pairs, and leaves what follows
      the `)`. */
  lemma {:induction false} ParamsRoundTrip(acc: seq<(string, VType)>, params: seq<(string, VType)>, rest: seq<LexToken>)
    ensures Params(acc, ParamTokens(params, [Token(CloseParen, ")")] + rest)) == Ok(ParsedParams(acc + params, rest))
    decreases |params|
  {
    var tail := [Token(CloseParen, ")")] + rest;
    if params == [] {
      ParamsEnd(acc, rest);
      assert acc + params == acc;
    } else {
      var p := params[0];
      var next := ParamTokens(params[1..], tail);
      var sep: seq<LexToken> := if |params| == 1 then [] else [Token(Comma, ",")];
      ParamTokensHead(params, tail);
      assert |params| == 1 ==> next == tail;
      ParamThen(acc, p, sep, next);
      ParamsRoundTrip(acc + [p], params[1..], rest);
      assert acc + [p] + params[1..] == acc + params;
    }
  }

  /** The first parameter written out, then its comma unless it is the last. */
  lemma ParamTokensHead(params: seq<(string, VType)>, tail: seq<LexToken>)
    requires params != []
    ensures ParamTokens(params, tail) ==
      [TypeToken(params[0].1), Token(IdentToken, params[0].0)] + (if |params| == 1 then [] else [Token(Comma, ",")]) +
      ParamTokens(params[1..], tail)
  {
    var head := [TypeToken(params[0].1), Token(IdentToken, params[0].0)];
    if |params| == 1 {
      assert params[1..] == [];
      assert head + [] + tail == head + tail;
    }
  }

  /** A parameter whose type token is not `word`, `ptr` or `str` is
      fatal. */
  lemma ParamBadType(acc: seq<(string, VType)>, ts: seq<LexToken>)
    requires ts != [] && ts[0].kind != EOF && ts[0].kind != CloseParen && ParamType(ts[0].kind).None?
    ensures Params(acc, ts) == Err(Fatal(BadParamType))
  {
  }

  /** `fn <name> ( <parameters> { <body>` declares a function with those
      parameters and that body. */
  lemma FunDeclOf(ts: seq<LexToken>, ps: seq<(string, VType)>, r1: seq<LexToken>, body: seq<Node>, r2: seq<LexToken>)
    requires |ts| >= 3 && ts[0].kind == FunctionToken && ts[1].kind == IdentToken && ts[2].kind == OpenParen
    requires Params([], ts[3..]) == Ok(ParsedParams(ps, r1)) && r1 != [] && r1[0].kind == OpenBrace
    requires Block([], r1[1..]) == Ok(ParsedSeq(body, r2))
    ensures Statement(ts) == Ok(Parsed(FunDecl(ts[1].value, ps, body), r2))
  {
    StatementKinds(ts);
    FunDeclStmtOf(ts, ps, r1, body, r2);
  }

  lemma FunDeclStmtOf(ts: seq<LexToken>, ps: seq<(string, VType)>, r1: seq<LexToken>, body: seq<Node>, r2: seq<LexToken>)
    requires |ts| >= 3 && ts[0].kind == FunctionToken && ts[1].kind == IdentToken && ts[2].kind == OpenParen
    requires Params([], ts[3..]) == Ok(ParsedParams(ps, r1)) && r1 != [] && r1[0].kind == OpenBrace
    requires Block([], r1[1..]) == Ok(ParsedSeq(body, r2))
    ensures FunDeclStmt(ts) == Ok(Parsed(FunDecl(ts[1].value, ps, body), r2))
  {
    Drop(ts, 1);
    Drop(ts, 2);
    assert Expect(ts[1..], IdentToken, NoFunctionName) == Ok(Took(ts[1], ts[2..]));
    assert Expect(ts[2..], OpenParen, NoFunctionParen) == Ok(Took(ts[2], ts[3..]));
    assert Expect(r1, OpenBrace, NoFunctionBody) == Ok(Took(r1[0], r1[1..]));
  }

  // ---------------------------------------------------------------------
  // Control statements

  /** An empty clause of a `for` header is a `NullLiteral`. */
  lemma ForClauseEmpty(ts: seq<LexToken>, message: Message)
    requires ts != [] && ts[0].kind == Semicolon
    ensures ForClause(ts, message) == Ok(Parsed(NullLiteral, ts[1..]))
  {
  }

  /** A clause that is an expression needs its `;`. */
  lemma ForClauseOfExpr(ts: seq<LexToken>, message: Message, e: Node, rest: seq<LexToken>)
    requires ts != [] && ts[0].kind != Semicolon
    requires Expr(ts) == Ok(Parsed(e, rest)) && e != NullLiteral && rest != []
    ensures rest[0].kind == Semicolon ==> ForClause(ts, message) == Ok(Parsed(e, rest[1..]))
    ensures rest[0].kind != Semicolon ==> ForClause(ts, message) == Err(Fatal(message))
  {
  }

  /** `for ( <condition clause> <action clause> ) { <body>` is a for
      statement of the two clauses and the body. */
  lemma ForOf(ts: seq<LexToken>, cond: Node, r1: seq<LexToken>, action: Node, r2: seq<LexToken>,
              body: seq<Node>, r3: seq<LexToken>)
    requires |ts| >= 2 && ts[0].kind == ForToken && ts[1].kind == OpenParen
    requires ForClause(ts[2..], NoConditionSemicolon) == Ok(Parsed(cond, r1))
    requires ForClause(r1, NoActionSemicolon) == Ok(Parsed(action, r2))
    requires |r2| >= 2 && r2[0].kind == CloseParen && r2[1].kind == OpenBrace
    requires Block([], r2[2..]) == Ok(ParsedSeq(body, r3))
    ensures Statement(ts) == Ok(Parsed(ForStatement(cond, action, body), r3))
  {
    Drop(ts, 1);
    Drop(r2, 1);
    StatementKinds(ts);
  }

  /** `for ( ; ; ) { <body>`: both clauses empty, so both `NullLiteral`. */
  lemma ForWithEmptyHeader(ts: seq<LexToken>, body: seq<Node>, rest: seq<LexToken>)
    requires |ts| >= 6 && ts[0].kind == ForToken && ts[1].kind == OpenParen && ts[2].kind == Semicolon
    requires ts[3].kind == Semicolon && ts[4].kind == CloseParen && ts[5].kind == OpenBrace
    requires Block([], ts[6..]) == Ok(ParsedSeq(body, rest))
    ensures Statement(ts) == Ok(Parsed(ForStatement(NullLiteral, NullLiteral, body), rest))
  {
    Skip(ts, 2, 1);
    Skip(ts, 3, 1);
    Skip(ts, 4, 2);
    ForClauseEmpty(ts[2..], NoConditionSemicolon);
    ForClauseEmpty(ts[3..], NoActionSemicolon);
    ForOf(ts, NullLiteral, ts[3..], NullLiteral, ts[4..], body, rest);
  }

  /** `if ( <condition> ) { <body> } <else clause>`: the else body is kept
      exactly when it holds a statement. */
  lemma IfOf(ts: seq<LexToken>, c: Node, r1: seq<LexToken>, body: seq<Node>, r2: seq<LexToken>,
             els: seq<Node>, r3: seq<LexToken>)
    requires |ts| >= 2 && ts[0].kind == IfToken && ts[1].kind == OpenParen
    requires Expr(ts[2..]) == Ok(Parsed(c, r1)) && |r1| >= 2 && r1[0].kind == CloseParen && r1[1].kind == OpenBrace
    requires Block([], r1[2..]) == Ok(ParsedSeq(body, r2)) && ElseClause(r2) == Ok(ParsedSeq(els, r3))
    ensures Statement(ts) == Ok(Parsed(IfStatement(c, body, if els == [] then None else Some(els)), r3))
  {
    StatementKinds(ts);
    IfStmtOf(ts, c, r1, body, r2, els, r3);
  }

  lemma IfStmtOf(ts: seq<LexToken>, c: Node, r1: seq<LexToken>, body: seq<Node>, r2: seq<LexToken>,
                 els: seq<Node>, r3: seq<LexToken>)
    requires |ts| >= 2 && ts[0].kind == IfToken && ts[1].kind == OpenParen
    requires Expr(ts[2..]) == Ok(Parsed(c, r1)) && |r1| >= 2 && r1[0].kind == CloseParen && r1[1].kind == OpenBrace
    requires Block([], r1[2..]) == Ok(ParsedSeq(body, r2)) && ElseClause(r2) == Ok(ParsedSeq(els, r3))
    ensures IfStmt(ts) == Ok(Parsed(IfStatement(c, body, if els == [] then None else Some(els)), r3))
  {
    Drop(ts, 1);
    Drop(r1, 1);
    assert Expect(ts[1..], OpenParen, NoIfParen) == Ok(Took(ts[1], ts[2..]));
    assert Expect(r1, CloseParen, NoIfClose) == Ok(Took(r1[0], r1[1..]));
    assert Expect(r1[1..], OpenBrace, NoIfBody) == Ok(Took(r1[1], r1[2..]));
  }

  /** Without `else` the else clause is empty and takes nothing. */
  lemma NoElse(ts: seq<LexToken>)
    requires ts != [] && ts[0].kind != ElseToken
    ensures ElseClause(ts) == Ok(ParsedSeq([], ts))
  {
  }

  /** `else {` starts a block, whose statements are the else clause. */
  lemma ElseBlock(ts: seq<LexToken>)
    requires |ts| >= 2 && ts[0].kind == ElseToken && ts[1].kind == OpenBrace
    ensures ElseClause(ts) == Block([], ts[2..])
  {
    Drop(ts, 1);
  }

  /** `else {}` is an empty else clause, which `IfOf` then drops. */
  lemma EmptyElse(ts: seq<LexToken>)
    requires |ts| >= 3 && ts[0].kind == ElseToken && ts[1].kind == OpenBrace && ts[2].kind == CloseBrace
    ensures ElseClause(ts) == Ok(ParsedSeq([], ts[3..]))
  {
    ElseBlock(ts);
    BlockEnds([], ts[2..]);
    Drop(ts, 2);
  }

  // ---------------------------------------------------------------------
  // Comparison and assignment

  /** `a = = b` compares with `==`. */
  lemma DoubleEqualsCompares(ts: seq<LexToken>)
    requires |ts| >= 4 && IsAtom(ts[0]) && ts[1] == Token(EquToken, "=") && ts[2].kind == EquToken && IsAtom(ts[3])
    requires EndsExpr(ts[4..])
    ensures Expr(ts) == Ok(Parsed(ComparisonExpr(AtomNode(ts[0]), AtomNode(ts[3]), "=="), ts[4..]))
  {
    SymbolEnds(ts[1], '=');
    AtomOperand(ts);
    Drop(ts, 1);
    Drop(ts, 2);
    Drop(ts, 3);
    AtomOperand(ts[3..]);
    var e := ComparisonExpr(AtomNode(ts[0]), AtomNode(ts[3]), "==");
    assert Assign(ts) == Ok(Parsed(e, ts[4..]));
    ExprOfAssign(ts, e, ts[4..]);
  }

  /** `a = b` assigns. */
  lemma SingleEqualsAssigns(ts: seq<LexToken>)
    requires |ts| >= 3 && IsAtom(ts[0]) && ts[1] == Token(EquToken, "=") && IsAtom(ts[2]) && EndsExpr(ts[3..])
    ensures Expr(ts) == Ok(Parsed(AssignExpr(AtomNode(ts[0]), AtomNode(ts[2])), ts[3..]))
  {
    SymbolEnds(ts[1], '=');
    AtomOperand(ts);
    Drop(ts, 1);
    Drop(ts, 2);
    AtomOperand(ts[2..]);
    var e := AssignExpr(AtomNode(ts[0]), AtomNode(ts[2]));
    assert Assign(ts) == Ok(Parsed(e, ts[3..]));
    ExprOfAssign(ts, e, ts[3..]);
  }

  /** `a ! = b` compares with `!=`. */
  lemma NotEqualsCompares(ts: seq<LexToken>)
    requires |ts| >= 4 && IsAtom(ts[0]) && ts[1] == Token(NotToken, "!") && ts[2].kind == EquToken && IsAtom(ts[3])
    requires EndsExpr(ts[4..])
    ensures Expr(ts) == Ok(Parsed(ComparisonExpr(AtomNode(ts[0]), AtomNode(ts[3]), "!="), ts[4..]))
  {
    SymbolEnds(ts[1], '!');
    AtomOperand(ts);
    AssignOf(ts, AtomNode(ts[0]), ts[1..]);
    ComparisonOf(ts, AtomNode(ts[0]), ts[1..]);
    Drop(ts, 1);
    Drop(ts, 2);
    Drop(ts, 3);
    AtomOperand(ts[3..]);
    AssignOf(ts[3..], AtomNode(ts[3]), ts[4..]);
    ComparisonOf(ts[3..], AtomNode(ts[3]), ts[4..]);
    assert "!" + "=" == "!=";
    var e := ComparisonExpr(AtomNode(ts[0]), AtomNode(ts[3]), "!=");
    assert NegComparison(ts) == Ok(Parsed(e, ts[4..]));
    ExprOf(ts, e, ts[4..]);
  }

  /** `a < = b` and `a > = b` compare with `<=` and `>=`. */
  lemma OrderingWithEquals(ts: seq<LexToken>, c: char)
    requires (c == '<' || c == '>') && |ts| >= 4 && IsAtom(ts[0]) && ts[1] == Token(CompareToken, [c])
    requires ts[2].kind == EquToken && IsAtom(ts[3]) && EndsExpr(ts[4..])
    ensures Expr(ts) == Ok(Parsed(ComparisonExpr(AtomNode(ts[0]), AtomNode(ts[3]), [c, '=']), ts[4..]))
  {
    SymbolEnds(ts[1], c);
    AtomOperand(ts);
    AssignOf(ts, AtomNode(ts[0]), ts[1..]);
    Drop(ts, 1);
    Drop(ts, 2);
    Drop(ts, 3);
    AtomOperand(ts[3..]);
    AssignOf(ts[3..], AtomNode(ts[3]), ts[4..]);
    assert [c] + "=" == [c, '='];
    var e := ComparisonExpr(AtomNode(ts[0]), AtomNode(ts[3]), [c, '=']);
    assert Comparison(ts) == Ok(Parsed(e, ts[4..]));
    ExprOfComparison(ts, e, ts[4..]);
  }

  /** `a < b` and `a > b` compare with the comparison token's own text. */
  lemma OrderingAlone(ts: seq<LexToken>, c: char)
    requires (c == '<' || c == '>') && |ts| >= 3 && IsAtom(ts[0]) && ts[1] == Token(CompareToken, [c])
    requires IsAtom(ts[2]) && EndsExpr(ts[3..])
    ensures Expr(ts) == Ok(Parsed(ComparisonExpr(AtomNode(ts[0]), AtomNode(ts[2]), [c]), ts[3..]))
  {
    SymbolEnds(ts[1], c);
    AtomOperand(ts);
    AssignOf(ts, AtomNode(ts[0]), ts[1..]);
    Drop(ts, 1);
    Drop(ts, 2);
    AtomOperand(ts[2..]);
    AssignOf(ts[2..], AtomNode(ts[2]), ts[3..]);
    var e := ComparisonExpr(AtomNode(ts[0]), AtomNode(ts[2]), [c]);
    assert Comparison(ts) == Ok(Parsed(e, ts[3..]));
    ExprOfComparison(ts, e, ts[3..]);
  }

  // ---------------------------------------------------------------------
  // Operator chains

  /** An operator token and the atom after it. */
  datatype Link = Link(op: LexToken, operand: LexToken)

  /** Links written out, each operator before its operand, followed by
      `tail`. */
  function Chain(links: seq<Link>, tail: seq<LexToken>): seq<LexToken>
    decreases |links|
  {
    if links == [] then tail else [links[0].op, links[0].operand] + Chain(links[1..], tail)
  }

  /** A chain starts with its first operator, or with its tail when it has
      no links. */
  lemma ChainStart(links: seq<Link>, tail: seq<LexToken>)
    requires links != [] || tail != []
    ensures Chain(links, tail) != []
    ensures Chain(links, tail)[0] == if links != [] then links[0].op else tail[0]
  {
  }

  /** The tree a chain of binary operators should give: each operator
      takes the whole tree to its left as its left operand. */
  function BinaryFold(left: Node, links: seq<Link>): Node
    requires forall l <- links :: IsAtom(l.operand)
    decreases |links|
  {
    if links == [] then left
    else BinaryFold(BinaryExpr(left, AtomNode(links[0].operand), links[0].op.value), links[1..])
  }

  /** Additive operators (`+` or `-` tokens) before atoms. */
  predicate AdditiveLinks(links: seq<Link>) {
    forall l <- links :: l.op.kind == BinOpToken && IsAdditive(l.op.value) && IsAtom(l.operand)
  }

  /** One additive operator and its atom. */
  lemma AdditiveLink(left: Node, l: Link, more: seq<LexToken>)
    requires l.op.kind == BinOpToken && IsAdditive(l.op.value) && IsAtom(l.operand)
    requires more != [] && EndsFactor(more[0])
    ensures AdditiveLoop(left, [l.op, l.operand] + more) ==
      AdditiveLoop(BinaryExpr(left, AtomNode(l.operand), l.op.value), more)
  {
    var ts := [l.op, l.operand] + more;
    assert ts[2..] == more;
    AdditiveAtom(left, ts);
  }

  /** Additive operators associate to the left: the loop over a chain that
      ends before anything multiplicative or additive builds the left
      fold. */
  lemma {:induction false} AdditiveIsLeftAssociative(left: Node, links: seq<Link>, tail: seq<LexToken>)
    requires AdditiveLinks(links)
    requires tail != [] && EndsFactor(tail[0]) && !IsAdditive(tail[0].value)
    ensures AdditiveLoop(left, Chain(links, tail)) == Ok(Parsed(BinaryFold(left, links), tail))
    decreases |links|
  {
    if links == [] {
      AdditiveLoopStops(left, tail);
    } else {
      var l := links[0];
      ChainStart(links[1..], tail);
      if links[1..] != [] {
        assert links[1..][0] in links;
        OperatorEndsFactor(links[1..][0].op);
      }
      var next := BinaryExpr(left, AtomNode(l.operand), l.op.value);
      assert Chain(links, tail) == [l.op, l.operand] + Chain(links[1..], tail);
      assert BinaryFold(left, links) == BinaryFold(next, links[1..]);
      AdditiveLink(left, l, Chain(links[1..], tail));
      AdditiveIsLeftAssociative(next, links[1..], tail);
    }
  }

  lemma TwoLinks(o1: LexToken, x: LexToken, o2: LexToken, y: LexToken, tail: seq<LexToken>)
    ensures Chain([Link(o1, x), Link(o2, y)], tail) == [o1, x, o2, y] + tail
  {
    assert [Link(o1, x), Link(o2, y)][1..] == [Link(o2, y)];
    assert Chain([Link(o2, y)], tail) == [o2, y] + tail;
  }

  /** An atom and then something that ends a factor: the additive level
      starts with the atom as its left operand. */
  lemma AtomThenAdditive(a: LexToken, more: seq<LexToken>)
    requires IsAtom(a) && more != [] && EndsFactor(more[0])
    ensures Additive([a] + more) == AdditiveLoop(AtomNode(a), more)
  {
    var ts := [a] + more;
    assert ts[1..] == more;
    AtomFactor(ts);
  }

  /** `a - b - c` is `(a - b) - c`. */
  lemma {:induction false} SubtractionGroupsLeft(a: LexToken, b: LexToken, c: LexToken, tail: seq<LexToken>)
    requires IsAtom(a) && IsAtom(b) && IsAtom(c)
    requires tail != [] && EndsFactor(tail[0]) && !IsAdditive(tail[0].value)
    ensures Additive([a, Token(BinOpToken, "-"), b, Token(BinOpToken, "-"), c] + tail) ==
      Ok(Parsed(BinaryExpr(BinaryExpr(AtomNode(a), AtomNode(b), "-"), AtomNode(c), "-"), tail))
  {
    var minus := Token(BinOpToken, "-");
    var links := [Link(minus, b), Link(minus, c)];
    var chain := Chain(links, tail);
    TwoLinks(minus, b, minus, c, tail);
    assert [a, minus, b, minus, c] + tail == [a] + chain;
    assert chain[0] == minus;
    OperatorEndsFactor(minus);
    AtomThenAdditive(a, chain);
    assert AdditiveLinks(links) by {
      assert IsAdditive(minus.value);
    }
    AdditiveIsLeftAssociative(AtomNode(a), links, tail);
    var ab := BinaryExpr(AtomNode(a), AtomNode(b), "-");
    assert BinaryFold(AtomNode(a), links) == BinaryFold(ab, links[1..]);
    assert links[1..] == [Link(minus, c)];
    assert BinaryFold(ab, [Link(minus, c)]) == BinaryFold(BinaryExpr(ab, AtomNode(c), "-"), []);
  }

  /** Multiplicative operators (`*`, `/` or `%` tokens) before atoms. */
  predicate MultiplicativeLinks(links: seq<Link>) {
    forall l <- links :: l.op.kind == BinOpToken && IsMultiplicative(l.op.value) && IsAtom(l.operand)
  }

  /** One multiplicative operator and its atom. */
  lemma MultiplicativeLink(left: Node, l: Link, more: seq<LexToken>)
    requires l.op.kind == BinOpToken && IsMultiplicative(l.op.value) && IsAtom(l.operand)
    requires more != [] && more[0].kind != Dot && more[0].kind != OpenBracket && more[0].kind != OpenParen
    ensures MultiplicativeLoop(left, [l.op, l.operand] + more) ==
      MultiplicativeLoop(BinaryExpr(left, AtomNode(l.operand), l.op.value), more)
  {
    var ts := [l.op, l.operand] + more;
    assert ts[2..] == more;
    MultiplicativeAtom(left, ts);
  }

  /** Multiplicative operators associate to the left. */
  lemma {:induction false} MultiplicativeIsLeftAssociative(left: Node, links: seq<Link>, tail: seq<LexToken>)
    requires MultiplicativeLinks(links)
    requires tail != [] && tail[0].kind != Dot && tail[0].kind != OpenBracket && tail[0].kind != OpenParen
    requires !IsMultiplicative(tail[0].value)
    ensures MultiplicativeLoop(left, Chain(links, tail)) == Ok(Parsed(BinaryFold(left, links), tail))
    decreases |links|
  {
    if links == [] {
      MultiplicativeLoopStops(left, tail);
    } else {
      var l := links[0];
      ChainStart(links[1..], tail);
      if links[1..] != [] {
        assert links[1..][0] in links;
      }
      MultiplicativeLink(left, l, Chain(links[1..], tail));
      MultiplicativeIsLeftAssociative(BinaryExpr(left, AtomNode(l.operand), l.op.value), links[1..], tail);
    }
  }

  /** Bitwise operators (one `|`, `&` or `^` token each) before atoms. */
  predicate BitwiseLinks(links: seq<Link>) {
    forall l <- links :: IsLogicSymbol(l.op) && IsAtom(l.operand)
  }

  /** The tree a chain of bitwise operators should give. */
  function BitwiseFold(left: Node, links: seq<Link>): Node
    requires forall l <- links :: IsAtom(l.operand)
    decreases |links|
  {
    if links == [] then left
    else BitwiseFold(BitwiseExpr(left, AtomNode(links[0].operand), links[0].op.value), links[1..])
  }

  /** One bitwise operator and its atom. */
  lemma BitwiseLink(left: Node, l: Link, more: seq<LexToken>)
    requires IsLogicSymbol(l.op) && IsAtom(l.operand)
    requires more != [] && EndsFactor(more[0]) && !IsAdditive(more[0].value)
    ensures BitwiseLoop(left, [l.op, l.operand] + more) ==
      BitwiseLoop(BitwiseExpr(left, AtomNode(l.operand), l.op.value), more)
  {
    var ts := [l.op, l.operand] + more;
    assert ts[2..] == more;
    BitwiseAtom(left, ts);
  }

  /** Bitwise operators associate to the left. */
  lemma {:induction false} BitwiseIsLeftAssociative(left: Node, links: seq<Link>, tail: seq<LexToken>)
    requires BitwiseLinks(links)
    requires tail != [] && EndsFactor(tail[0]) && !IsAdditive(tail[0].value) && tail[0].kind != LogicToken
    ensures BitwiseLoop(left, Chain(links, tail)) == Ok(Parsed(BitwiseFold(left, links), tail))
    decreases |links|
  {
    if links == [] {
      BitwiseLoopStops(left, tail);
    } else {
      var l := links[0];
      ChainStart(links[1..], tail);
      if links[1..] != [] {
        assert links[1..][0] in links;
        LogicSymbolEnds(links[1..][0].op);
      }
      BitwiseLink(left, l, Chain(links[1..], tail));
      BitwiseIsLeftAssociative(BitwiseExpr(left, AtomNode(l.operand), l.op.value), links[1..], tail);
    }
  }

  /** A logical operator, two logic tokens such as `&` `&`, and the atom
      after it. */
  datatype LogicLink = LogicLink(first: LexToken, second: LexToken, operand: LexToken)

  /** Logical links written out, followed by `tail`. */
  function LogicChain(links: seq<LogicLink>, tail: seq<LexToken>): seq<LexToken>
    decreases |links|
  {
    if links == [] then tail
    else [links[0].first, links[0].second, links[0].operand] + LogicChain(links[1..], tail)
  }

  /** A logical chain with links starts with the first link's two
      operator tokens. */
  lemma LogicChainStart(links: seq<LogicLink>, tail: seq<LexToken>)
    requires links != []
    ensures |LogicChain(links, tail)| >= 2
    ensures LogicChain(links, tail)[0] == links[0].first && LogicChain(links, tail)[1] == links[0].second
  {
  }

  /** Each operand is an atom, and each operator two logic symbols. */
  predicate LogicalLinks(links: seq<LogicLink>) {
    forall l <- links :: IsLogicSymbol(l.first) && IsLogicSymbol(l.second) && IsAtom(l.operand)
  }

  /** The tree a chain of logical operators should give; each operator is
      its two tokens' text. */
  function LogicalFold(left: Node, links: seq<LogicLink>): Node
    requires forall l <- links :: IsAtom(l.operand)
    decreases |links|
  {
    if links == [] then left
    else
      var l := links[0];
      LogicalFold(LogicalExpr(left, AtomNode(l.operand), l.first.value + l.second.value), links[1..])
  }

  /** One logical operator and its atom. */
  lemma LogicalLink(left: Node, l: LogicLink, more: seq<LexToken>)
    requires l.first.kind == LogicToken && l.second.kind == LogicToken && IsAtom(l.operand)
    requires EndsComparand(more)
    ensures LogicalLoop(left, [l.first, l.second, l.operand] + more) ==
      LogicalLoop(LogicalExpr(left, AtomNode(l.operand), l.first.value + l.second.value), more)
  {
    var ts := [l.first, l.second, l.operand] + more;
    assert ts[3..] == more;
    LogicalAtom(left, ts);
  }

  /** Logical operators associate to the left. */
  lemma {:induction false} LogicalIsLeftAssociative(left: Node, links: seq<LogicLink>, tail: seq<LexToken>)
    requires LogicalLinks(links) && EndsExpr(tail)
    ensures LogicalLoop(left, LogicChain(links, tail)) == Ok(Parsed(LogicalFold(left, links), tail))
    decreases |links|
  {
    if links == [] {
      LogicalLoopStops(left, tail);
    } else {
      var l := links[0];
      var more := LogicChain(links[1..], tail);
      if links[1..] != [] {
        assert links[1..][0] in links;
        LogicChainStart(links[1..], tail);
        LogicPairEnds(more);
      }
      LogicalLink(left, l, more);
      LogicalIsLeftAssociative(LogicalExpr(left, AtomNode(l.operand), l.first.value + l.second.value), links[1..], tail);
    }
  }

  /** An additive operator with `=` after it is a compound assignment whose
      operator is the two texts together, such as `+=`. */
  lemma CompoundAssignment(ts: seq<LexToken>)
    requires |ts| >= 5 && IsAtom(ts[0]) && ts[1].kind == BinOpToken && IsAdditive(ts[1].value)
    requires ts[2] == Token(EquToken, "=") && IsAtom(ts[3]) && EndsFactor(ts[4]) && !IsAdditive(ts[4].value)
    ensures Additive(ts) == Ok(Parsed(BinOpAssignExpr(AtomNode(ts[0]), AtomNode(ts[3]), ts[1].value + "="), ts[4..]))
  {
    OperatorEndsFactor(ts[1]);
    AtomFactor(ts);
    Drop(ts, 1);
    assert ts[1..][2..] == ts[3..];
    Drop(ts, 3);
    AtomFactor(ts[3..]);
    var e := BinOpAssignExpr(AtomNode(ts[0]), AtomNode(ts[3]), ts[1].value + "=");
    assert AdditiveLoop(AtomNode(ts[0]), ts[1..]) == AdditiveLoop(e, ts[4..]);
  }

  /** A multiplicative operator with `=` after it, such as `*=`, is a
      compound assignment at the multiplicative level. */
  lemma MultiplicativeCompoundAssignment(left: Node, ts: seq<LexToken>)
    requires |ts| >= 4 && IsMultiplicative(ts[0].value) && ts[1] == Token(EquToken, "=") && IsAtom(ts[2])
    requires EndsFactor(ts[3])
    ensures MultiplicativeLoop(left, ts) == Ok(Parsed(BinOpAssignExpr(left, AtomNode(ts[2]), ts[0].value + "="), ts[3..]))
  {
    var r := ts[2..];
    assert r[1..] == ts[3..];
    PrimaryAtom(r);
    MemberOf(r, AtomNode(ts[2]), ts[3..]);
    CallMemberOf(r, AtomNode(ts[2]), ts[3..]);
  }

  /** A logic character with `=` after it, such as `|=`, is a compound
      assignment at the bitwise level. */
  lemma BitwiseCompoundAssignment(left: Node, ts: seq<LexToken>)
    requires |ts| >= 4 && ts[0].kind == LogicToken && ts[1] == Token(EquToken, "=") && IsAtom(ts[2])
    requires EndsFactor(ts[3]) && !IsAdditive(ts[3].value) && ts[3].kind != LogicToken
    ensures BitwiseLoop(left, ts) == Ok(Parsed(BinOpAssignExpr(left, AtomNode(ts[2]), ts[0].value + "="), ts[3..]))
  {
    var r := ts[2..];
    assert r[1..] == ts[3..];
    AtomFactor(r);
    AdditiveOf(r, AtomNode(ts[2]), ts[3..]);
  }

  // ---------------------------------------------------------------------
  // Members and parentheses

  /** `a . name` is a member that is not computed. */
  lemma DotMember(ts: seq<LexToken>)
    requires |ts| >= 4 && IsAtom(ts[0]) && ts[1].kind == Dot && ts[2].kind == IdentToken
    requires ts[3].kind != Dot && ts[3].kind != OpenBracket
    ensures Member(ts) == Ok(Parsed(MemberExpr(AtomNode(ts[0]), IdentLiteral(ts[2].value), false), ts[3..]))
  {
    PrimaryAtom(ts);
    Drop(ts, 1);
    Drop(ts, 2);
    PrimaryAtom(ts[2..]);
    var e := MemberExpr(AtomNode(ts[0]), IdentLiteral(ts[2].value), false);
    assert MemberLoop(e, ts[3..]) == Ok(Parsed(e, ts[3..]));
    assert MemberLoop(AtomNode(ts[0]), ts[1..]) == MemberLoop(e, ts[3..]);
  }

  /** Anything but a name after the dot is fatal. */
  lemma DotNeedsName(ts: seq<LexToken>)
    requires |ts| >= 3 && IsAtom(ts[0]) && ts[1].kind == Dot
    requires Primary(ts[2..]).Ok? && !Primary(ts[2..]).value.node.IdentLiteral?
    ensures Member(ts) == Err(Fatal(BadMember))
  {
    PrimaryAtom(ts);
    Drop(ts, 1);
  }

  /** `a [ e ]` is a computed member. */
  lemma IndexMember(ts: seq<LexToken>, i: Node, rest: seq<LexToken>)
    requires |ts| >= 2 && IsAtom(ts[0]) && ts[1].kind == OpenBracket
    requires Expr(ts[2..]) == Ok(Parsed(i, rest)) && |rest| >= 2 && rest[0].kind == CloseBracket
    requires rest[1].kind != Dot && rest[1].kind != OpenBracket
    ensures Member(ts) == Ok(Parsed(MemberExpr(AtomNode(ts[0]), i, true), rest[1..]))
  {
    PrimaryAtom(ts);
    Drop(ts, 1);
    var e := MemberExpr(AtomNode(ts[0]), i, true);
    assert Kind(rest[1..]) == Ok(rest[1].kind);
    assert MemberLoop(e, rest[1..]) == Ok(Parsed(e, rest[1..]));
    assert Kind(ts[1..]) == Ok(OpenBracket) && ts[1..][1..] == ts[2..];
    assert Expect(rest, CloseBracket, NoMemberClose) == Ok(Took(rest[0], rest[1..]));
    assert MemberLoop(AtomNode(ts[0]), ts[1..]) == MemberLoop(e, rest[1..]);
  }

  /** `( e )` is `e` itself, with no node of its own; without the `)` it is
      fatal. */
  lemma ParenthesesAddNoNode(ts: seq<LexToken>, e: Node, rest: seq<LexToken>)
    requires ts != [] && ts[0].kind == OpenParen && Expr(ts[1..]) == Ok(Parsed(e, rest)) && rest != []
    ensures rest[0].kind == CloseParen ==> Primary(ts) == Ok(Parsed(e, rest[1..]))
    ensures rest[0].kind != CloseParen ==> Primary(ts) == Err(Fatal(NoGroupClose))
  {
  }
}
