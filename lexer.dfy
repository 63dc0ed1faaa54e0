/** The tokenizer of text/lexer.ts.

    `Lex` is the specification: it reads one token (or one skipped character)
    at a time with `Scan`. `Tokenize` is the source's loop, which consumes a
    character buffer from the front and pushes tokens, proved equal to `Lex`
    followed by the end-of-file token. */
module Lexer {
  import opened Wrappers
  import opened Numerals
  import opened Tokens
  import TextUtil

  /** The characters of `skippable`: space, newline, carriage return, tab. */
  predicate IsSkippable(c: char) {
    c == ' ' || c == '\n' || c == '\r' || c == '\t'
  }

  /** The characters of `nonstandard`: the skippable ones, the operator and
      punctuation characters and both quotes. */
  predicate IsNonstandard(c: char) {
    IsSkippable(c) || c == '<' || c == '>' || c == '+' || c == '-' || c == '/' ||
    c == '*' || c == '%' || c == '=' || c == ',' || c == '.' || c == ':' || c == ';' ||
    c == '(' || c == ')' || c == '{' || c == '}' || c == '[' || c == ']' ||
    c == '\'' || c == '"'
  }

  predicate IsArithmetic(c: char) {
    c == '+' || c == '-' || c == '/' || c == '*' || c == '%'
  }

  /** The only fatal condition of the lexer: a char literal whose second
      character after the opening quote is not a closing quote. */
  datatype LexError = ExpectedClosingQuote

  /** The `keywords` table. Words outside it (including the names of
      `Object.prototype` members, which are not numbers) are identifiers. */
  function Keyword(word: string): Option<TokenType>
  {
    if word == "word" || word == "int16" then Some(WordToken)
    else if word == "ptr" then Some(PtrToken)
    else if word == "str" then Some(StrToken)
    else if word == "fn" then Some(FunctionToken)
    else if word == "ret" then Some(ReturnToken)
    else if word == "asm" then Some(ASMToken)
    else if word == "for" then Some(ForToken)
    else if word == "del" then Some(DeleteToken)
    else if word == "while" then Some(WhileToken)
    else if word == "if" then Some(IfToken)
    else if word == "else" then Some(ElseToken)
    else None
  }

  function WordKind(word: string): TokenType {
    if Keyword(word).Some? then Keyword(word).value else IdentToken
  }

  /** The token kind of a character that is a token on its own. */
  function SymbolKind(c: char): Option<TokenType>
  {
    if IsArithmetic(c) then Some(BinOpToken)
    else if c == '=' then Some(EquToken)
    else if c == ',' then Some(Comma)
    else if c == '.' then Some(Dot)
    else if c == ':' then Some(Colon)
    else if c == ';' then Some(Semicolon)
    else if c == '(' then Some(OpenParen)
    else if c == ')' then Some(CloseParen)
    else if c == '{' then Some(OpenBrace)
    else if c == '}' then Some(CloseBrace)
    else if c == '[' then Some(OpenBracket)
    else if c == ']' then Some(CloseBracket)
    else if c == '!' then Some(NotToken)
    else if c == '<' || c == '>' then Some(CompareToken)
    else if c == '|' || c == '&' || c == '^' then Some(LogicToken)
    else None
  }

  /** The keywords table holds exactly twelve words; only `word` and
      `int16` give `WordToken`, and no keyword is an identifier. */
  lemma KeywordTable(word: string)
    ensures Keyword(word).Some? <==> word in ["word", "int16", "ptr", "str", "fn", "ret", "asm", "for", "del", "while", "if", "else"]
    ensures Keyword(word) == Some(WordToken) <==> word == "word" || word == "int16"
    ensures Keyword(word) != Some(IdentToken)
  {
  }

  /** The characters that are tokens on their own, and their kinds. */
  lemma SymbolTable(c: char)
    ensures SymbolKind(c).Some? <==> c in "+-/*%=,.:;(){}[]!<>|&^"
    ensures SymbolKind(c) == Some(BinOpToken) <==> IsArithmetic(c)
    ensures SymbolKind(c) != Some(IdentToken)
  {
  }

  /** The three inner loops: the body of a string literal, a number and a word. */
  datatype RunKind = Quoted | Digits | Word

  predicate InRun(k: RunKind, c: char) {
    match k
    case Quoted => c != '"'
    case Digits => IsDigit(c)
    case Word => !IsNonstandard(c)
  }

  /** The longest prefix of `s` whose characters all belong to the run. */
  function Run(k: RunKind, s: string): (r: string)
    ensures |r| <= |s| && r == s[..|r|]
  {
    if s != [] && InRun(k, s[0]) then [s[0]] + Run(k, s[1..]) else []
  }

  /** `Run` is the longest such prefix: every character in it belongs to
      the run and the one after it, if any, does not. */
  lemma {:induction false} RunIsMaximal(k: RunKind, s: string)
    ensures forall i :: 0 <= i < |Run(k, s)| ==> InRun(k, Run(k, s)[i])
    ensures |Run(k, s)| < |s| ==> !InRun(k, s[|Run(k, s)|])
    decreases |s|
  {
    if s != [] && InRun(k, s[0]) {
      RunIsMaximal(k, s[1..]);
      assert Run(k, s) == [s[0]] + Run(k, s[1..]);
    }
  }

  /** One step of the outer loop: the token read at the front of `src`, if
      any, and what is left. */
  datatype Step = Step(token: Option<Token>, rest: string)

  function Scan(src: string): (r: Result<Step, LexError>)
    requires src != []
    ensures r.Ok? ==> |r.value.rest| < |src|
  {
    var c := src[0];
    if IsSkippable(c) then Ok(Step(None, src[1..]))
    else if SymbolKind(c).Some? then Ok(Step(Some(Token(SymbolKind(c).value, [c])), src[1..]))
    else if c == '"' then
      var body := Run(Quoted, src[1..]);
      var after := src[1 + |body|..];
      // the closing quote is dropped; at the end of the input there is none
      Ok(Step(Some(Token(StringToken, body)), if after == [] then [] else after[1..]))
    else if c == '\'' then
      if |src| >= 3 && src[2] == '\'' then Ok(Step(Some(Token(CharToken, [src[1]])), src[3..]))
      else Err(ExpectedClosingQuote)
    else if IsDigit(c) then
      var digits := Run(Digits, src);
      Ok(Step(Some(Token(NumToken, digits)), src[|digits|..]))
    else
      var word := Run(Word, src);
      Ok(Step(Some(Token(WordKind(word), word)), src[|word|..]))
  }

  /** The tokens of `src`, without the final end-of-file token. */
  function Lex(src: string): (r: Result<seq<Token>, LexError>)
    ensures r.Ok? ==> |r.value| <= |src|
    decreases |src|
  {
    if src == [] then Ok([])
    else
      match Scan(src)
      case Err(e) => Err(e)
      case Ok(step) => Prepend(Emitted(step), Lex(step.rest))
  }

  function Emitted(step: Step): seq<Token> {
    if step.token.Some? then [step.token.value] else []
  }

  function Prepend(ts: seq<Token>, r: Result<seq<Token>, LexError>): Result<seq<Token>, LexError> {
    if r.Ok? then Ok(ts + r.value) else r
  }

  function WithEof(r: Result<seq<Token>, LexError>): Result<seq<Token>, LexError> {
    if r.Ok? then Ok(r.value + [Token(EOF, "EOF")]) else r
  }

  lemma RunStep(k: RunKind, s: string)
    requires s != [] && InRun(k, s[0])
    ensures Run(k, s) == [s[0]] + Run(k, s[1..])
  {
  }

  lemma RunStop(k: RunKind, s: string)
    requires s == [] || !InRun(k, s[0])
    ensures Run(k, s) == []
  {
  }

  /** The loop that reads the body of a string literal. */
  method ReadQuoted(src: string) returns (value: string, rest: string)
    ensures value == Run(Quoted, src) && rest == src[|value|..]
  {
    rest, value := src, "";
    while |rest| > 0 && rest[0] != '"'
      invariant src == value + rest
      invariant Run(Quoted, src) == value + Run(Quoted, rest)
    {
      value, rest := value + [rest[0]], rest[1..];
    }
  }

  /** The loop that reads a number. */
  method ReadNumber(src: string) returns (num: string, rest: string)
    ensures num == Run(Digits, src) && rest == src[|num|..]
  {
    rest, num := src, "";
    while |rest| > 0 && !IsSkippable(rest[0]) && TextUtil.IsNumber([rest[0]])
      invariant src == num + rest
      invariant Run(Digits, src) == num + Run(Digits, rest)
    {
      TextUtil.IsNumberOnOneChar(rest[0]);
      num, rest := num + [rest[0]], rest[1..];
    }
    if |rest| > 0 {
      TextUtil.IsNumberOnOneChar(rest[0]);
    }
  }

  /** The loop that reads a word. */
  method ReadWord(src: string) returns (val: string, rest: string)
    ensures val == Run(Word, src) && rest == src[|val|..]
  {
    rest, val := src, "";
    while |rest| > 0 && !IsNonstandard(rest[0])
      invariant src == val + rest
      invariant Run(Word, src) == val + Run(Word, rest)
    {
      RunStep(Word, rest);
      val, rest := val + [rest[0]], rest[1..];
    }
    RunStop(Word, rest);
  }

  /** `tokenize`. The chain of one-character branches is the lookup
      `SymbolKind`; the characters it tests are pairwise distinct, so the
      order of the tests does not matter. */
  method Tokenize(source: string) returns (r: Result<seq<Token>, LexError>)
    ensures r == WithEof(Lex(source))
    ensures r.Ok? ==> |r.value| <= |source| + 1 && r.value[|r.value| - 1] == Token(EOF, "EOF")
    ensures r.Ok? ==> forall i :: 0 <= i < |r.value| - 1 ==> r.value[i].kind != EOF
    ensures r.Ok? ==> AllWellFormed(r.value)
  {
    var src := source;
    var output: seq<Token> := [];
    if Lex(source).Ok? {
      assert [] + Lex(source).value == Lex(source).value;
    }
    while |src| > 0
      invariant Lex(source) == Prepend(output, Lex(src))
      decreases |src|
    {
      ghost var before, emitted := src, output;
      var step := NextToken(src);
      if step.Err? {
        return Err(step.error);
      }
      if step.value.token.Some? {
        output := output + [step.value.token.value];
      }
      src := step.value.rest;
      assert output == emitted + Emitted(Scan(before).value);
      PrependTwice(emitted, Emitted(Scan(before).value), Lex(src));
    }
    assert output + [] == output;
    r := Ok(output + [Token(EOF, "EOF")]);
    LexTokens(source);
    assert r.value[..|r.value| - 1] == output;
    assert forall i :: 0 <= i < |output| ==> r.value[i] == output[i];
  }

  /** One turn of `tokenize`'s loop: the branch the first character
      selects, as a step of `Scan`. */
  method NextToken(src: string) returns (r: Result<Step, LexError>)
    requires src != []
    ensures r == Scan(src)
  {
    var c := src[0];
    TextUtil.IsNumberOnOneChar(c);
    var rest := src;
    if IsSkippable(c) {
      return Ok(Step(None, src[1..]));
    } else if SymbolKind(c).Some? {
      return Ok(Step(Some(Token(SymbolKind(c).value, [c])), src[1..]));
    } else if c == '"' {
      rest := src[1..];
      var value;
      value, rest := ReadQuoted(rest);
      if |rest| > 0 {
        rest := rest[1..];
      }
      return Ok(Step(Some(Token(StringToken, value)), rest));
    } else if c == '\'' {
      rest := src[1..];
      if |rest| < 2 || rest[1] != '\'' {
        return Err(ExpectedClosingQuote);
      }
      var value := rest[0];
      return Ok(Step(Some(Token(CharToken, [value])), rest[2..]));
    } else if TextUtil.IsNumber([c]) {
      var num;
      num, rest := ReadNumber(src);
      return Ok(Step(Some(Token(NumToken, num)), rest));
    } else {
      var val;
      val, rest := ReadWord(src);
      var reserved := Keyword(val);
      if reserved.None? {
        return Ok(Step(Some(Token(IdentToken, val)), rest));
      } else {
        return Ok(Step(Some(Token(reserved.value, val)), rest));
      }
    }
  }

  lemma PrependTwice(a: seq<Token>, b: seq<Token>, r: Result<seq<Token>, LexError>)
    ensures Prepend(a, Prepend(b, r)) == Prepend(a + b, r)
  {
    if r.Ok? {
      assert a + (b + r.value) == (a + b) + r.value;
    }
  }

  /** Every token `Lex` produces is well formed and none is end-of-file. */
  lemma {:induction false} LexTokens(src: string)
    ensures Lex(src).Ok? ==> AllWellFormed(Lex(src).value)
    ensures Lex(src).Ok? ==> forall i :: 0 <= i < |Lex(src).value| ==> Lex(src).value[i].kind != EOF
    decreases |src|
  {
    if src != [] && Scan(src).Ok? {
      var step := Scan(src).value;
      LexTokens(step.rest);
      if step.token.Some? && Lex(step.rest).Ok? {
        var t := step.token.value;
        var tail := Lex(step.rest).value;
        ScanToken(src);
        assert Lex(src) == Ok([t] + tail);
        assert ([t] + tail)[0] == t;
        assert ([t] + tail)[1..] == tail;
      } else if Lex(step.rest).Ok? {
        assert Lex(src) == Ok([] + Lex(step.rest).value);
        assert [] + Lex(step.rest).value == Lex(step.rest).value;
      }
    }
  }

  lemma ScanToken(src: string)
    requires src != [] && Scan(src).Ok? && Scan(src).value.token.Some?
    ensures WellFormed(Scan(src).value.token.value) && Scan(src).value.token.value.kind != EOF
  {
    var c := src[0];
    if !IsSkippable(c) && SymbolKind(c).None? && c != '"' && c != '\'' && IsDigit(c) {
      var digits := Run(Digits, src);
      RunIsMaximal(Digits, src);
      assert IsDigits(digits);
    }
  }

  /** Space, newline, carriage return and tab produce no token. */
  lemma LexSkips(c: char, s: string)
    requires IsSkippable(c)
    ensures Lex([c] + s) == Lex(s)
  {
    assert ([c] + s)[1..] == s;
    assert Scan([c] + s) == Ok(Step(None, s));
    if Lex(s).Ok? {
      assert [] + Lex(s).value == Lex(s).value;
    }
  }

  /** A one-character symbol becomes a token of its kind whose text is the
      character. */
  lemma LexSymbol(c: char, s: string)
    requires SymbolKind(c).Some?
    ensures Lex([c] + s) == Prepend([Token(SymbolKind(c).value, [c])], Lex(s))
  {
    assert ([c] + s)[1..] == s;
    assert Scan([c] + s) == Ok(Step(Some(Token(SymbolKind(c).value, [c])), s));
  }

  /** Prefixes made of run characters are read whole, up to the first
      character outside the run. */
  lemma {:induction false} RunOfPrefix(k: RunKind, w: string, s: string)
    requires forall i :: 0 <= i < |w| ==> InRun(k, w[i])
    requires s == [] || !InRun(k, s[0])
    ensures Run(k, w + s) == w
    decreases |w|
  {
    if w != [] {
      RunOfPrefix(k, w[1..], s);
      assert (w + s)[1..] == w[1..] + s;
    }
  }

  /** A string literal's token holds exactly the characters between the quotes. */
  lemma LexString(body: string, s: string)
    requires '"' !in body
    ensures Lex(['"'] + body + ['"'] + s) == Prepend([Token(StringToken, body)], Lex(s))
  {
    var src := ['"'] + body + ['"'] + s;
    assert src[1..] == body + (['"'] + s);
    RunOfPrefix(Quoted, body, ['"'] + s);
    assert src[1 + |body|..] == ['"'] + s;
    assert Scan(src) == Ok(Step(Some(Token(StringToken, body)), s));
  }

  /** An unterminated string literal takes the rest of the input. */
  lemma LexUnterminatedString(body: string)
    requires '"' !in body
    ensures Lex(['"'] + body) == Ok([Token(StringToken, body)])
  {
    var src := ['"'] + body;
    assert src[1..] == body + [];
    RunOfPrefix(Quoted, body, []);
    assert src[1 + |body|..] == [];
    assert Scan(src) == Ok(Step(Some(Token(StringToken, body)), []));
    assert [Token(StringToken, body)] + [] == [Token(StringToken, body)];
  }

  /** A char literal is one character between single quotes. */
  lemma LexChar(c: char, s: string)
    ensures Lex(['\'', c, '\''] + s) == Prepend([Token(CharToken, [c])], Lex(s))
  {
    var src := ['\'', c, '\''] + s;
    assert src[0] == '\'' && src[1] == c && src[2] == '\'';
    assert src[3..] == s;
    assert Scan(src) == Ok(Step(Some(Token(CharToken, [c])), s));
  }

  /** Anything else after an opening single quote is fatal. */
  lemma LexBadChar(src: string)
    requires src != [] && src[0] == '\''
    requires |src| < 3 || src[2] != '\''
    ensures Lex(src).Err?
  {
    assert Scan(src).Err?;
  }

  /** A number token is the longest run of decimal digits. */
  lemma LexNumber(digits: string, s: string)
    requires digits != [] && IsDigits(digits)
    requires s == [] || !IsDigit(s[0])
    ensures Lex(digits + s) == Prepend([Token(NumToken, digits)], Lex(s))
  {
    ScanNumber(digits, s);
    LexStep(digits + s);
  }

  lemma ScanNumber(digits: string, s: string)
    requires digits != [] && IsDigits(digits)
    requires s == [] || !IsDigit(s[0])
    ensures Scan(digits + s) == Ok(Step(Some(Token(NumToken, digits)), s))
  {
    var src := digits + s;
    RunOfPrefix(Digits, digits, s);
    var c := src[0];
    assert c == digits[0] && IsDigit(c);
    assert !IsSkippable(c) && SymbolKind(c).None? && c != '"' && c != '\'';
    assert src[|digits|..] == s;
  }

  /** One turn of the outer loop. */
  lemma LexStep(src: string)
    requires src != [] && Scan(src).Ok?
    ensures Lex(src) == Prepend(Emitted(Scan(src).value), Lex(Scan(src).value.rest))
  {
  }

  /** Any other word is the longest run of characters outside `IsNonstandard`
      (so `!`, `|`, `&` and `^` continue it once it has begun), and its kind
      comes from the keyword table. */
  lemma LexWord(w: string, s: string)
    requires w != [] && !IsDigit(w[0]) && SymbolKind(w[0]).None?
    requires forall i :: 0 <= i < |w| ==> !IsNonstandard(w[i])
    requires s == [] || IsNonstandard(s[0])
    ensures Lex(w + s) == Prepend([Token(WordKind(w), w)], Lex(s))
  {
    var src := w + s;
    RunOfPrefix(Word, w, s);
    assert src[0] == w[0];
    assert src[|w|..] == s;
    assert Scan(src) == Ok(Step(Some(Token(WordKind(w), w)), s));
  }
}
