/** The parser of ast/parser.ts as the class it is: the token list is a
    field that each `parse_*` method shortens from the front, and every
    method is proved to leave the tokens, and to return the node, that the
    function of the same name in `ParserSpec` computes from the tokens it
    started with. */
module Parser {
  import opened Wrappers
  import opened Numerals
  import opened Tokens
  import opened VTypes
  import opened Ast
  import opened ParserSpec
  import Lexer

  /** A method's result together with the tokens it leaves, in the form
      the `ParserSpec` functions return. On an error the tokens do not
      matter: the source stops the process there. */
  function Outcome(r: Result<Node, ParseError>, rest: seq<LexToken>): Result<Parsed, ParseError> {
    match r
    case Ok(n) => Ok(Parsed(n, rest))
    case Err(e) => Err(e)
  }

  function OutcomeSeq(r: Result<seq<Node>, ParseError>, rest: seq<LexToken>): Result<ParsedSeq, ParseError> {
    match r
    case Ok(ns) => Ok(ParsedSeq(ns, rest))
    case Err(e) => Err(e)
  }

  function OutcomeTook(r: Result<LexToken, ParseError>, rest: seq<LexToken>): Result<Took, ParseError> {
    match r
    case Ok(t) => Ok(Took(t, rest))
    case Err(e) => Err(e)
  }

  /** Why `parse` gives no program: the lexer failed, or the parser did. */
  datatype Failure = LexFailure(lex: Lexer.LexError) | ParseFailure(parse: ParseError)

  /** The lexer's tokens, EOF included, are the tokens the parser reads. */
  lemma LexedWellFormed(source: string)
    ensures Lexer.WithEof(Lexer.Lex(source)).Ok? ==> AllWellFormed(Lexer.WithEof(Lexer.Lex(source)).value)
  {
    Lexer.LexTokens(source);
  }

  /** `parse(source)`: tokenize, then read statements until EOF. */
  function ParseSource(source: string): Result<Node, Failure> {
    var lexed := Lexer.WithEof(Lexer.Lex(source));
    if lexed.Err? then Err(LexFailure(lexed.error))
    else
      LexedWellFormed(source);
      var ts: seq<LexToken> := lexed.value;
      match ParseTokens(ts)
      case Ok(p) => Ok(p)
      case Err(e) => Err(ParseFailure(e))
  }

  class Parser {
    /** The tokens not yet read. */
    var tokens: seq<LexToken>

    constructor()
      ensures tokens == []
    {
      tokens := [];
    }

    /** `eat()` where the token is used. */
    method Eat() returns (t: LexToken)
      requires tokens != []
      modifies this
      ensures t == old(tokens)[0] && tokens == old(tokens)[1..]
    {
      t := tokens[0];
      tokens := tokens[1..];
    }

    /** `eat()` where the token is thrown away. */
    method Skip()
      modifies this
      ensures old(tokens) == [] ==> tokens == []
      ensures old(tokens) != [] ==> tokens == old(tokens)[1..]
    {
      if tokens != [] {
        tokens := tokens[1..];
      }
    }

    /** `expect(type, errMsg)` */
    method Expect(kind: TokenType, message: Message) returns (r: Result<LexToken, ParseError>)
      modifies this
      ensures OutcomeTook(r, tokens) == ParserSpec.Expect(old(tokens), kind, message)
    {
      if tokens == [] {
        return Err(Crash);
      }
      var t := Eat();
      if t.kind != kind {
        return Err(Fatal(message));
      }
      return Ok(t);
    }

    /** `parse`: the tokens of `source`, then statements until EOF. */
    method Parse(source: string) returns (r: Result<Node, Failure>)
      modifies this
      ensures r == ParseSource(source)
    {
      var lexed := Lexer.Tokenize(source);
      if lexed.Err? {
        return Err(LexFailure(lexed.error));
      }
      tokens := lexed.value;
      var program := ParseProgram();
      LexedWellFormed(source);
      match program
      case Ok(p) => r := Ok(p);
      case Err(e) => r := Err(ParseFailure(e));
    }

    /** The loop of `parse`. */
    method ParseProgram() returns (r: Result<Node, ParseError>)
      modifies this
      ensures r == ParseTokens(old(tokens))
    {
      var body: seq<Node> := [];
      while true
        invariant TopLevel([], old(tokens)) == TopLevel(body, tokens)
        decreases |tokens|
      {
        var eof :- Eof(tokens);
        if eof {
          return Ok(Program(body));
        }
        var s :- ParseStatement();
        body := body + [s];
      }
    }

    /** The loop every braced body repeats: statements until `}` or EOF,
        and then that token is eaten. */
    method ParseBody() returns (r: Result<seq<Node>, ParseError>)
      modifies this
      decreases |tokens|, 20
      ensures OutcomeSeq(r, tokens) == Block([], old(tokens))
    {
      var body: seq<Node> := [];
      while true
        invariant Block([], old(tokens)) == Block(body, tokens)
        invariant |tokens| <= |old(tokens)|
        decreases |tokens|
      {
        var eof :- Eof(tokens);
        if eof || tokens[0].kind == CloseBrace {
          Skip();
          return Ok(body);
        }
        var s :- ParseStatement();
        body := body + [s];
      }
    }

    /** `parse_statement` */
    method ParseStatement() returns (r: Result<Node, ParseError>)
      modifies this
      decreases |tokens|, 19
      ensures Outcome(r, tokens) == Statement(old(tokens))
    {
      var k :- Kind(tokens);
      if IsTypeKeyword(k) {
        r := ParseVarDecl();
      } else if k == FunctionToken {
        r := ParseFunDecl();
      } else if k == ReturnToken {
        r := ParseReturn();
      } else if k == DeleteToken {
        r := ParseDelete();
      } else if k == ASMToken {
        r := ParseAsm();
      } else if k == ForToken {
        r := ParseFor();
      } else if k == WhileToken {
        r := ParseWhile();
      } else if k == IfToken {
        r := ParseIf();
      } else if k == ImportToken {
        r := ParseImport();
      } else {
        r := ParseExpr();
      }
    }

    /** `parse_var_decl` */
    method ParseVarDecl() returns (r: Result<Node, ParseError>)
      requires tokens != [] && IsTypeKeyword(tokens[0].kind)
      modifies this
      decreases |tokens|, 18
      ensures Outcome(r, tokens) == VarDeclStmt(old(tokens))
    {
      var keyword := Eat();
      var vtype := DeclType(keyword.value).value;
      var name :- Expect(IdentToken, NoVariableName);
      var k :- Kind(tokens);
      if k == Semicolon {
        return Err(Fatal(NoValue));
      }
      Skip();
      var value :- ParseExpr();
      var semi :- Expect(Semicolon, NoDeclSemicolon);
      return Ok(VarDecl(name.value, value, vtype));
    }

    /** `parse_fun_decl`, with its loop over the parameters. */
    method ParseFunDecl() returns (r: Result<Node, ParseError>)
      requires tokens != []
      modifies this
      decreases |tokens|, 18
      ensures Outcome(r, tokens) == FunDeclStmt(old(tokens))
    {
      Skip();
      var name :- Expect(IdentToken, NoFunctionName);
      var open :- Expect(OpenParen, NoFunctionParen);
      ghost var start := tokens;
      var params: seq<(string, VType)> := [];
      while true
        invariant Params([], start) == Params(params, tokens)
        invariant |tokens| <= |start|
        decreases |tokens|
      {
        var eof :- Eof(tokens);
        if eof || tokens[0].kind == CloseParen {
          break;
        }
        var typeRaw := Eat();
        var vtype := ParamType(typeRaw.kind);
        if vtype.None? {
          return Err(Fatal(BadParamType));
        }
        var pname :- Expect(IdentToken, NoParamName);
        params := params + [(pname.value, vtype.value)];
        var k :- Kind(tokens);
        if k == Comma {
          Skip();
        }
      }
      Skip();
      var brace :- Expect(OpenBrace, NoFunctionBody);
      var body :- ParseBody();
      return Ok(FunDecl(name.value, params, body));
    }

    /** `parse_ret_statement` */
    method ParseReturn() returns (r: Result<Node, ParseError>)
      requires tokens != []
      modifies this
      decreases |tokens|, 18
      ensures Outcome(r, tokens) == ReturnStmt(old(tokens))
    {
      Skip();
      var value :- ParseExpr();
      var semi :- Expect(Semicolon, NoReturnSemicolon);
      return Ok(ReturnStatement(value));
    }

    /** `parse_del_statement` */
    method ParseDelete() returns (r: Result<Node, ParseError>)
      requires tokens != []
      modifies this
      decreases |tokens|, 18
      ensures Outcome(r, tokens) == DelStmt(old(tokens))
    {
      Skip();
      var name :- Expect(IdentToken, NoDeleteName);
      var semi :- Expect(Semicolon, NoDeleteSemicolon);
      return Ok(DelStatement(name.value));
    }

    /** `parse_asm_statement` */
    method ParseAsm() returns (r: Result<Node, ParseError>)
      requires tokens != []
      modifies this
      decreases |tokens|, 18
      ensures Outcome(r, tokens) == AsmStmt(old(tokens))
    {
      Skip();
      var line :- Expect(StringToken, NoAsmLine);
      var semi :- Expect(Semicolon, NoAsmSemicolon);
      return Ok(ASMLine(line.value));
    }

    /** `parse_for_statement` */
    method ParseFor() returns (r: Result<Node, ParseError>)
      requires tokens != []
      modifies this
      decreases |tokens|, 18
      ensures Outcome(r, tokens) == ForStmt(old(tokens))
    {
      Skip();
      var open :- Expect(OpenParen, NoForParen);
      var condition :- ParseForClause(NoConditionSemicolon);
      var action :- ParseForClause(NoActionSemicolon);
      var close :- Expect(CloseParen, NoForClose);
      var brace :- Expect(OpenBrace, NoForBody);
      var body :- ParseBody();
      return Ok(ForStatement(condition, action, body));
    }

    /** What `parse_for_statement` does for its condition and again for
        its action. */
    method ParseForClause(message: Message) returns (r: Result<Node, ParseError>)
      modifies this
      decreases |tokens|, 14
      ensures Outcome(r, tokens) == ForClause(old(tokens), message)
    {
      var k :- Kind(tokens);
      if k == Semicolon {
        Skip();
        return Ok(NullLiteral);
      }
      var e :- ParseExpr();
      if e == NullLiteral {
        return Ok(e);
      }
      var semi :- Expect(Semicolon, message);
      return Ok(e);
    }

    /** `parse_while_statement` */
    method ParseWhile() returns (r: Result<Node, ParseError>)
      requires tokens != []
      modifies this
      decreases |tokens|, 18
      ensures Outcome(r, tokens) == WhileStmt(old(tokens))
    {
      Skip();
      var open :- Expect(OpenParen, NoWhileParen);
      var condition :- ParseExpr();
      var close :- Expect(CloseParen, NoWhileClose);
      var brace :- Expect(OpenBrace, NoWhileBody);
      var body :- ParseBody();
      return Ok(WhileStatement(condition, body));
    }

    /** `parse_if_statement` */
    method ParseIf() returns (r: Result<Node, ParseError>)
      requires tokens != []
      modifies this
      decreases |tokens|, 18
      ensures Outcome(r, tokens) == IfStmt(old(tokens))
    {
      Skip();
      var open :- Expect(OpenParen, NoIfParen);
      var condition :- ParseExpr();
      var close :- Expect(CloseParen, NoIfClose);
      var brace :- Expect(OpenBrace, NoIfBody);
      var ifbody :- ParseBody();
      var elsebody :- ParseElse();
      if |elsebody| > 0 {
        return Ok(IfStatement(condition, ifbody, Some(elsebody)));
      }
      return Ok(IfStatement(condition, ifbody, None));
    }

    /** The `else` part of `parse_if_statement`. */
    method ParseElse() returns (r: Result<seq<Node>, ParseError>)
      modifies this
      decreases |tokens|, 18
      ensures OutcomeSeq(r, tokens) == ElseClause(old(tokens))
    {
      var k :- Kind(tokens);
      if k != ElseToken {
        return Ok([]);
      }
      Skip();
      var brace :- Expect(OpenBrace, NoElseBody);
      r := ParseBody();
    }

    /** `parse_import_statement` */
    method ParseImport() returns (r: Result<Node, ParseError>)
      requires tokens != []
      modifies this
      decreases |tokens|, 18
      ensures Outcome(r, tokens) == ImportStmt(old(tokens))
    {
      Skip();
      if tokens == [] {
        return Err(Crash);
      }
      var v := Eat();
      var semi :- Expect(Semicolon, NoImportSemicolon);
      if v.kind == StringToken {
        return Ok(ImportStatement(v.value, false));
      } else if v.kind == IdentToken {
        return Ok(ImportStatement(v.value, true));
      }
      return Err(Fatal(BadImport));
    }

    /** `parse_expr` */
    method ParseExpr() returns (r: Result<Node, ParseError>)
      modifies this
      decreases |tokens|, 13
      ensures Outcome(r, tokens) == Expr(old(tokens))
    {
      r := ParseLogical();
    }

    /** `parse_logical_expr` */
    method ParseLogical() returns (r: Result<Node, ParseError>)
      modifies this
      decreases |tokens|, 12
      ensures Outcome(r, tokens) == Logical(old(tokens))
    {
      var left :- ParseNegComparison();
      while true
        invariant Logical(old(tokens)) == LogicalLoop(left, tokens)
        invariant |tokens| < |old(tokens)|
        decreases |tokens|
      {
        var eof :- Eof(tokens);
        if eof || tokens[0].kind != LogicToken {
          return Ok(left);
        }
        var next :- NextKind(tokens);
        if next != LogicToken {
          return Ok(left);
        }
        var first := Eat();
        var second := Eat();
        var right :- ParseNegComparison();
        left := LogicalExpr(left, right, first.value + second.value);
      }
    }

    /** `parse_neg_comparison_expr` */
    method ParseNegComparison() returns (r: Result<Node, ParseError>)
      modifies this
      decreases |tokens|, 11
      ensures Outcome(r, tokens) == NegComparison(old(tokens))
    {
      var k :- Kind(tokens);
      if k == NotToken {
        Skip();
        var value :- ParseComparison();
        return Ok(NotExpr(value));
      }
      var left :- ParseComparison();
      var k2 :- Kind(tokens);
      if k2 != NotToken {
        return Ok(left);
      }
      var bang := Eat();
      var op := bang.value + "=";
      var eq :- Expect(EquToken, NoNotEquals);
      var right :- ParseComparison();
      return Ok(ComparisonExpr(left, right, op));
    }

    /** `parse_comparison_expr` */
    method ParseComparison() returns (r: Result<Node, ParseError>)
      modifies this
      decreases |tokens|, 10
      ensures Outcome(r, tokens) == Comparison(old(tokens))
    {
      var left :- ParseAssign();
      var k :- Kind(tokens);
      if k != CompareToken {
        return Ok(left);
      }
      var compare := Eat();
      var op := compare.value;
      var k2 :- Kind(tokens);
      if k2 == EquToken {
        op := op + "=";
        Skip();
      }
      var right :- ParseAssign();
      return Ok(ComparisonExpr(left, right, op));
    }

    /** `parse_assign_expr` */
    method ParseAssign() returns (r: Result<Node, ParseError>)
      modifies this
      decreases |tokens|, 9
      ensures Outcome(r, tokens) == Assign(old(tokens))
    {
      var left :- ParseArray();
      var k :- Kind(tokens);
      if k != EquToken {
        return Ok(left);
      }
      Skip();
      var k2 :- Kind(tokens);
      if k2 == EquToken {
        Skip();
        var right :- ParseArray();
        return Ok(ComparisonExpr(left, right, "=="));
      }
      var right :- ParseArray();
      return Ok(AssignExpr(left, right));
    }

    /** `parse_array_expr`, with its loop over the values. */
    method ParseArray() returns (r: Result<Node, ParseError>)
      modifies this
      decreases |tokens|, 8
      ensures Outcome(r, tokens) == ArrayExpr(old(tokens))
    {
      var k :- Kind(tokens);
      if k != OpenBracket {
        r := ParseBitwise();
        return;
      }
      Skip();
      var values: seq<Node> := [];
      while true
        invariant ArrayExpr(old(tokens)) == ArrayValues(values, tokens)
        invariant |tokens| < |old(tokens)|
        decreases |tokens|
      {
        var eof :- Eof(tokens);
        if eof || tokens[0].kind == CloseBracket {
          Skip();
          return Ok(ArrayLiteral(values));
        }
        var value :- ParseExpr();
        values := values + [value];
        var k2 :- Kind(tokens);
        if k2 != CloseBracket {
          var comma :- Expect(Comma, NoArrayComma);
        }
      }
    }

    /** `parse_bitwise_expr` */
    method ParseBitwise() returns (r: Result<Node, ParseError>)
      modifies this
      decreases |tokens|, 7
      ensures Outcome(r, tokens) == Bitwise(old(tokens))
    {
      var left :- ParseAdditive();
      while true
        invariant Bitwise(old(tokens)) == BitwiseLoop(left, tokens)
        invariant |tokens| < |old(tokens)|
        decreases |tokens|
      {
        var eof :- Eof(tokens);
        if eof || tokens[0].kind != LogicToken {
          return Ok(left);
        }
        var next :- NextKind(tokens);
        if next == LogicToken {
          return Ok(left);
        }
        if next == EquToken {
          var first := Eat();
          var second := Eat();
          var right :- ParseAdditive();
          left := BinOpAssignExpr(left, right, first.value + second.value);
        } else {
          var op := Eat();
          var right :- ParseAdditive();
          left := BitwiseExpr(left, right, op.value);
        }
      }
    }

    /** `parse_additive_expr` */
    method ParseAdditive() returns (r: Result<Node, ParseError>)
      modifies this
      decreases |tokens|, 6
      ensures Outcome(r, tokens) == Additive(old(tokens))
    {
      var left :- ParseMultiplicative();
      while true
        invariant Additive(old(tokens)) == AdditiveLoop(left, tokens)
        invariant |tokens| < |old(tokens)|
        decreases |tokens|
      {
        if tokens == [] {
          return Err(Crash);
        }
        if !IsAdditive(tokens[0].value) {
          return Ok(left);
        }
        var next :- NextKind(tokens);
        if next == EquToken {
          var first := Eat();
          var second := Eat();
          var right :- ParseMultiplicative();
          left := BinOpAssignExpr(left, right, first.value + second.value);
        } else {
          var op := Eat();
          var right :- ParseMultiplicative();
          left := BinaryExpr(left, right, op.value);
        }
      }
    }

    /** `parse_multiplicative_expr` */
    method ParseMultiplicative() returns (r: Result<Node, ParseError>)
      modifies this
      decreases |tokens|, 5
      ensures Outcome(r, tokens) == Multiplicative(old(tokens))
    {
      var left :- ParseCallMember();
      while true
        invariant Multiplicative(old(tokens)) == MultiplicativeLoop(left, tokens)
        invariant |tokens| < |old(tokens)|
        decreases |tokens|
      {
        if tokens == [] {
          return Err(Crash);
        }
        if !IsMultiplicative(tokens[0].value) {
          return Ok(left);
        }
        var next :- NextKind(tokens);
        if next == EquToken {
          var first := Eat();
          var second := Eat();
          var right :- ParseCallMember();
          left := BinOpAssignExpr(left, right, first.value + second.value);
        } else {
          var op := Eat();
          var right :- ParseCallMember();
          left := BinaryExpr(left, right, op.value);
        }
      }
    }

    /** `parse_call_member_expr` */
    method ParseCallMember() returns (r: Result<Node, ParseError>)
      modifies this
      decreases |tokens|, 4
      ensures Outcome(r, tokens) == CallMember(old(tokens))
    {
      var member :- ParseMember();
      var k :- Kind(tokens);
      if k == OpenParen {
        r := ParseCall(member);
        return;
      }
      return Ok(member);
    }

    /** `parse_member_expr` */
    method ParseMember() returns (r: Result<Node, ParseError>)
      modifies this
      decreases |tokens|, 3
      ensures Outcome(r, tokens) == Member(old(tokens))
    {
      var obj :- ParsePrimary();
      while true
        invariant Member(old(tokens)) == MemberLoop(obj, tokens)
        invariant |tokens| < |old(tokens)|
        decreases |tokens|
      {
        var k :- Kind(tokens);
        if k == Dot {
          Skip();
          var property :- ParsePrimary();
          if !property.IdentLiteral? {
            return Err(Fatal(BadMember));
          }
          obj := MemberExpr(obj, property, false);
        } else if k == OpenBracket {
          Skip();
          var property :- ParseExpr();
          var close :- Expect(CloseBracket, NoMemberClose);
          obj := MemberExpr(obj, property, true);
        } else {
          return Ok(obj);
        }
      }
    }

    /** `parse_call_expr` */
    method ParseCall(caller: Node) returns (r: Result<Node, ParseError>)
      modifies this
      decreases |tokens|, 2
      ensures Outcome(r, tokens) == Call(caller, old(tokens))
    {
      var args :- ParseArgs();
      var call := CallExpr(caller, args);
      var k :- Kind(tokens);
      if k == OpenParen {
        r := ParseCall(call);
        return;
      }
      return Ok(call);
    }

    /** `parse_args` */
    method ParseArgs() returns (r: Result<seq<Node>, ParseError>)
      modifies this
      decreases |tokens|, 1
      ensures OutcomeSeq(r, tokens) == Args(old(tokens))
    {
      var open :- Expect(OpenParen, NoCallParen);
      var k :- Kind(tokens);
      var args: seq<Node> := [];
      if k != CloseParen {
        args :- ParseArgumentList();
      }
      var close :- Expect(CloseParen, NoCallClose);
      return Ok(args);
    }

    /** `parse_argument_list` */
    method ParseArgumentList() returns (r: Result<seq<Node>, ParseError>)
      modifies this
      decreases |tokens|, 14
      ensures OutcomeSeq(r, tokens) == ArgumentList(old(tokens))
    {
      var first :- ParseExpr();
      var args := [first];
      while true
        invariant ArgumentList(old(tokens)) == ArgumentLoop(args, tokens)
        invariant |tokens| < |old(tokens)|
        decreases |tokens|
      {
        var eof :- Eof(tokens);
        if eof || tokens[0].kind != Comma {
          return Ok(args);
        }
        Skip();
        var arg :- ParseExpr();
        args := args + [arg];
      }
    }

    /** `parse_primary`; the warning printed for an unknown token is not
        modelled. */
    method ParsePrimary() returns (r: Result<Node, ParseError>)
      modifies this
      decreases |tokens|, 2
      ensures Outcome(r, tokens) == Primary(old(tokens))
    {
      var k :- Kind(tokens);
      var t := Eat();
      if k == IdentToken {
        return Ok(IdentLiteral(t.value));
      } else if k == NumToken {
        return Ok(NumericLiteral(DecimalValue(t.value)));
      } else if k == StringToken {
        return Ok(StringLiteral(t.value));
      } else if k == CharToken {
        return Ok(CharLiteral(t.value[0]));
      } else if k == Semicolon {
        return Ok(SemicolonNode);
      } else if k == OpenParen {
        var value :- ParseExpr();
        var close :- Expect(CloseParen, NoGroupClose);
        return Ok(value);
      }
      return Ok(NullLiteral);
    }
  }
}
