# A Dafny model of a toy compiler's front end and code generator

The modelled system compiles a small C-like language to assembly text. Its core
has five parts:
- a **lexer**: characters to tokens, ending in an `EOF` token;
- a recursive-descent **parser**: tokens to an AST whose root is a `Program`;
- two **environments**: chains of variable scopes, each variable holding a type
  and a memory address;
- the **compiler** itself: walks the AST and appends to a code section and a
  data section, using a pool of general registers `R1..Rn`;
- the small value types `CompilerValue`, `VType` and `Token`.

Each module below follows one source file.

| module | file | what it holds |
|---|---|---|
| `Wrappers`, `Numerals`, `Scopes` | (helpers) | `Option`/`Result`; decimal text of naturals; a JavaScript `Map` as an insertion-ordered list of pairs |
| `Tokens` | text/tokens.ts | token kinds and tokens |
| `VTypes` | runtime/vtype.ts | variable types and variables |
| `Ast` | ast/ast.ts | AST nodes |
| `CValues` | compiler/cvalues.ts | compiler values and their text |
| `TextUtil` | text/textutil.ts | `isNumber` |
| `Lexer` | text/lexer.ts | the lexer: the spec function `Lex`, and the method `Tokenize` written with the source's loops |
| `ParserSpec`, `ParserSteps`, `ParserProperties` | ast/parser.ts | one function per parse routine, each taking tokens and returning the node and the tokens left; step lemmas; the grammar's properties |
| `Parser` | ast/parser.ts | the `Parser` class: a `tokens` field that `eat` shortens, with one method per parse routine, each proved equal to its `ParserSpec` function |
| `Env` | runtime/environment.ts | the environment the compiler uses (see Findings) |
| `DynEnv` | runtime/dyn_environment.ts | the alternative environment with `lastAddr` addressing |
| `Codegen` | compiler/compiler.ts | `Gen`, the code generator as a function of node, machine state and environment; its properties |
| `Compiler` | compiler/compiler.ts | the `Compiler` class: fields `freeRegs`, `code`, `dataCode`, `strings` and `arrays`, updated in place by `Compile` and its per-node methods, each proved to agree with `Gen` |

**Errors.** A `console.error` followed by `Deno.exit(1)` becomes an `Err` result
that carries the reason. Three codes are the model's own:
- `Crash`: reading a token beyond the end of the token list. JavaScript would
  throw a `TypeError` there.
- `UnsupportedNode`: the `default` case of `compile`.
- `LexFailure` / `ParseFailure`: which stage of `parse` failed.

**Environment chains.** An environment's parents are held as a snapshot
(`parents: seq<Scope>`, innermost first). The compiler never changes a parent
while a child scope is alive, so the snapshot loses nothing.

## Model

| member | source | states |
|---|---|---|
| CValues.ToString | compiler/cvalues.ts:31-45 | numbers render as their decimal digits, pointers as `M` then the address, registers as `R` then the register number, each of them reading back to the value; a label renders as its text |
| CValues.RenderingDistinguishes | compiler/cvalues.ts:31-45 | two values that are not labels and render to the same text are equal: the rendering is injective on numbers, pointers and registers |
| Numerals.NatToString | compiler/cvalues.ts:33-43 | the decimal text of a natural is non-empty, all digits, and has no leading zero except for 0 itself |
| Numerals.DecimalRoundTrip | compiler/cvalues.ts:33-43 | reading the decimal text of n back gives n |
| Numerals.NatToStringInjective | compiler/cvalues.ts:33-43 | different numbers have different decimal texts |
| Numerals.DecimalValueBound | ast/parser.ts:421-423 | the value of k decimal digits, as `parseInt` reads a number token, is below 10^k |
| TextUtil.TrimStart | text/textutil.ts:16-18 | the text left after `parseInt` skips white space is no longer than the input and does not start with white space |
| TextUtil.IsNumber | text/textutil.ts:1-22 | the empty text is not a number, and one character is a number exactly when it is a decimal digit |
| TextUtil.IsNumberOnOneChar | text/textutil.ts:1-21 | on a single character, which is how the lexer calls it, `isNumber` holds exactly for the digits `0`-`9` |
| TextUtil.IsNumberOnDigitFirst | text/textutil.ts:16-18 | a text longer than one character that starts with a digit and has no `0x`, `0X` or `0b` prefix is a number, whatever follows the digit |
| TextUtil.IsNumberPrefixed | text/textutil.ts:3-15 | after `0x` every character must be a hex digit in either case, and after `0b` a binary digit; the bare prefix is accepted (`0x`, `0xFf` and `0b101` are accepted; `0x1g` and `0b12` are rejected) |
| TextUtil.IsNumberUpperHexPrefix | text/textutil.ts:3-18 | `0X` is not the hexadecimal branch: it goes to `parseInt`, which still wants a hex digit after it (`0X1` is accepted, `0Xg` is rejected) |
| Lexer.KeywordTable | text/lexer.ts:4-17 | the table has exactly the twelve keywords `word`, `int16`, `ptr`, `str`, `fn`, `ret`, `asm`, `for`, `del`, `while`, `if` and `else`; `word` and `int16` alone give `WordToken`, and no keyword gives `IdentToken` |
| Lexer.Run | text/lexer.ts:48-74 | a run of string, number or word characters is a prefix of the input |
| Lexer.RunIsMaximal | text/lexer.ts:48-74 | every character of the run belongs to its class, and the character after the run does not |
| Lexer.Scan | text/lexer.ts:28-79 | each step of the lexer that succeeds consumes at least one character |
| Lexer.Lex | text/lexer.ts:25-82 | the lexer emits no more tokens than the source has characters |
| Lexer.ReadQuoted | text/lexer.ts:47-50 | the loop takes the longest run of characters other than `"`, and leaves the rest of the input |
| Lexer.ReadNumber | text/lexer.ts:65-68 | the loop takes the longest run of digits, and leaves the rest |
| Lexer.ReadWord | text/lexer.ts:71-74 | the loop takes the longest run of characters outside the delimiter set, and leaves the rest |
| Lexer.NextToken | text/lexer.ts:28-79 | one turn of the loop, the branch that the first character selects, is exactly one step of `Scan`: the same token or none, the same rest of the input, and the same error on a bad char literal |
| Lexer.Tokenize | text/lexer.ts:25-82 | `tokenize` equals `Lex` followed by the EOF token; the output has at most one token per character plus EOF, ends with `EOF` and has no other EOF token, and every token is well formed (numbers all digits, a char token of exactly one character, keywords carrying their keyword) |
| Lexer.LexTokens | text/lexer.ts:25-80 | every token the lexer emits is well formed, and none of them is EOF |
| Lexer.ScanToken | text/lexer.ts:28-79 | each single step emits a well-formed token other than EOF |
| Lexer.PrependTwice | text/lexer.ts:26 | emitting two groups of tokens one after the other is the same as emitting them together |
| Lexer.LexSkips | text/lexer.ts:18-29 | a space, newline, carriage return or tab emits nothing |
| Lexer.LexSymbol | text/lexer.ts:30-44 | each one-character symbol emits one token of its kind that holds the symbol |
| Lexer.SymbolTable | text/lexer.ts:30-44 | a character is a token on its own exactly when it is one of `+-/*%=,.:;(){}[]!<>&^` or the vertical bar, an arithmetic character giving `BinOpToken`, and never an identifier |
| Lexer.RunOfPrefix | text/lexer.ts:48-74 | a run over a word of the class followed by a character outside it is exactly that word |
| Lexer.LexString | text/lexer.ts:45-53 | a quoted string emits one string token that holds the text between the quotes |
| Lexer.LexUnterminatedString | text/lexer.ts:45-53 | a string with no closing quote runs to the end of the input and still emits its token |
| Lexer.LexChar | text/lexer.ts:54-62 | `'c'` emits one char token that holds `c` |
| Lexer.LexBadChar | text/lexer.ts:54-60 | a quote whose third character is not a quote is a fatal lexer error |
| Lexer.LexNumber | text/lexer.ts:64-69 | a maximal run of digits emits one number token that holds the digits |
| Lexer.LexWord | text/lexer.ts:70-78 | a maximal word gives one token: a keyword's own kind when the word is one of the twelve keywords, otherwise an identifier |
| Parser.LexedWellFormed | ast/parser.ts:447-448 | the tokens `parse` hands to the parser are well formed |
| Parser.Parser.constructor | ast/parser.ts:7 | a new parser has no tokens |
| Parser.Parser.Eat | ast/parser.ts:14-16 | `eat` returns the first token and removes it |
| Parser.Parser.Skip | ast/parser.ts:14-16 | an `eat` whose result is dropped removes the first token, if there is one |
| Parser.Parser.Expect | ast/parser.ts:17-24 | `expect` takes the next token whatever it is; it succeeds exactly when that token has the expected kind, and otherwise fails with the message given |
| Parser.Parser.Parse | ast/parser.ts:447-454 | `parse(source)` gives a lexer error, a parser error, or the program that the token grammar assigns to the lexed source |
| Parser.Parser.ParseProgram | ast/parser.ts:449-453 | the statement loop collects, in order, the statements the grammar reads up to EOF |
| Parser.Parser.ParseBody | ast/parser.ts:96-99 | a block loop collects statements up to `}` or EOF and then eats that token |
| Parser.Parser.ParseStatement | ast/parser.ts:201-225 | the statement a leading keyword selects, and an expression otherwise |
| Parser.Parser.ParseVarDecl | ast/parser.ts:29-60 | a declaration of a type keyword, a name, any single token, a value and `;` |
| Parser.Parser.ParseFunDecl | ast/parser.ts:62-102 | `fn`, a name, a parameter list whose loop reads typed parameters up to `)` with optional commas, then a body |
| Parser.Parser.ParseReturn | ast/parser.ts:104-109 | `ret`, a value, `;` |
| Parser.Parser.ParseDelete | ast/parser.ts:111-116 | `del`, a name, `;` |
| Parser.Parser.ParseAsm | ast/parser.ts:118-123 | `asm`, a string, `;` |
| Parser.Parser.ParseFor | ast/parser.ts:125-140 | `for (`, two clauses, `) {`, a body |
| Parser.Parser.ParseForClause | ast/parser.ts:128-131 | a clause is either `;`, giving a null node, or an expression that needs `;` after it unless it is itself null |
| Parser.Parser.ParseWhile | ast/parser.ts:142-158 | `while (`, a condition, `) {`, a body |
| Parser.Parser.ParseIf | ast/parser.ts:160-187 | `if (`, a condition, `) {`, a body, an optional `else`; the else part is kept only when it is not empty |
| Parser.Parser.ParseElse | ast/parser.ts:175-184 | `else {` and a body, or nothing |
| Parser.Parser.ParseImport | ast/parser.ts:188-200 | `import`, a string or a name, `;`; any other token is fatal, and only after the `;` has been checked |
| Parser.Parser.ParseExpr | ast/parser.ts:227-229 | an expression is a logical expression |
| Parser.Parser.ParseLogical | ast/parser.ts:241-249 | the loop folds operators written as two logic characters (`&&`, `\|\|`) to the left |
| Parser.Parser.ParseNegComparison | ast/parser.ts:251-264 | `!` followed by `=` and a comparand is `!=`; `!` followed by anything else negates |
| Parser.Parser.ParseComparison | ast/parser.ts:266-278 | `<`, `>`, `<=`, `>=` and `==`, with `==` read as `=` followed by `=` |
| Parser.Parser.ParseAssign | ast/parser.ts:280-294 | `=` not followed by `=` assigns |
| Parser.Parser.ParseArray | ast/parser.ts:296-307 | `[` then comma-separated values then `]` |
| Parser.Parser.ParseBitwise | ast/parser.ts:309-324 | the loop folds single logic characters to the left |
| Parser.Parser.ParseAdditive | ast/parser.ts:326-342 | the loop folds `+` and `-` to the left; `+=` and `-=` give a compound assignment |
| Parser.Parser.ParseMultiplicative | ast/parser.ts:345-359 | the loop folds `*`, `/` and `%` to the left |
| Parser.Parser.ParseCallMember | ast/parser.ts:361-367 | a member access, then a call if `(` follows |
| Parser.Parser.ParseMember | ast/parser.ts:369-390 | the loop reads `.name` and `[expr]` accesses; a dot must be followed by a name |
| Parser.Parser.ParseCall | ast/parser.ts:392-398 | a call, and the calls chained after it |
| Parser.Parser.ParseArgs | ast/parser.ts:400-405 | `(`, an argument list, `)` |
| Parser.Parser.ParseArgumentList | ast/parser.ts:407-413 | comma-separated assignments |
| Parser.Parser.ParsePrimary | ast/parser.ts:415-446 | the literal or group at the head; an unknown token is eaten and gives a null node |
| ParserSpec.Kind | ast/parser.ts:8-10 | `at().type` is the first token's kind, and a crash when no token is left |
| ParserSpec.NextKind | ast/parser.ts:11-13 | `next().type` is the second token's kind, and a crash when there is none |
| ParserSpec.Eof | ast/parser.ts:25-27 | `eof()` holds exactly when the first token is EOF |
| ParserSpec.Expect | ast/parser.ts:17-24 | succeeds exactly when the first token has the expected kind; otherwise fails with the message given, or crashes when no token is left |
| ParserSpec.DeclType | ast/parser.ts:31-48 | `word`, `int16`, `str` and `ptr` are the declaration keywords that name a type |
| ParserSpec.ParamType | ast/parser.ts:70-87 | only a `WordToken` (the keyword `word` or `int16`), a `PtrToken` or a `StrToken` may type a parameter, as number, pointer and string |
| ParserSpec.TopLevel | ast/parser.ts:450-452 | the program loop stops at an EOF token, which it leaves in place |
| ParserSpec.ParseTokens | ast/parser.ts:447-454 | the root of every parse is a `Program` |
| ParserSpec.IfStmt | ast/parser.ts:160-187 | the result is an `if` node whose else part, when present, is never empty |
| ParserSpec.Statement | ast/parser.ts:201-225 | a statement that parses takes at least one token, so the loops over statements terminate |
| ParserSpec.Expr | ast/parser.ts:227-229 | an expression that parses takes at least one token |
| ParserProperties.TopLevelAppends | ast/parser.ts:449-453 | the program loop appends what it reads to what it has already: running it from a list of statements gives that list followed by what a fresh run gives |
| ParserProperties.EmptyProgram | ast/parser.ts:447-454 | tokens that start with EOF give the empty program |
| ParserProperties.ProgramIsStatements | ast/parser.ts:449-453 | a program is its first statement followed by the program of the tokens that statement leaves, and a failing first statement fails the program with its error |
| ParserProperties.DeclTypes | ast/parser.ts:31-48 | the keyword of a `word`, `str` or `ptr` token names the number, string or pointer type |
| ParserProperties.VarDeclOf | ast/parser.ts:29-60 | a declaration gives the name, value and type read, or fails for want of the closing `;` |
| ParserProperties.VarDeclNeedsValue | ast/parser.ts:50-54 | a declaration with `;` straight after the name is an error |
| ParserProperties.TypeToken | ast/parser.ts:70-87 | every type has a parameter keyword that names it |
| ParserProperties.ParamTokens | ast/parser.ts:66-91 | the tokens of a parameter list, three per parameter less the last comma |
| ParserProperties.ParamStep | ast/parser.ts:67-90 | one turn of the parameter loop adds the typed name it reads and eats an optional comma |
| ParserProperties.ParamsEnd | ast/parser.ts:67 | the parameter loop stops at `)` |
| ParserProperties.ParamThen | ast/parser.ts:67-90 | one parameter followed by a comma, or followed by `)`, goes to the end of the list |
| ParserProperties.ParamsRoundTrip | ast/parser.ts:66-93 | writing any list of typed parameters as tokens and parsing them back gives the same list and stops before the `)` |
| ParserProperties.ParamBadType | ast/parser.ts:83-86 | a parameter that does not start with a type keyword is fatal |
| ParserProperties.FunDeclOf | ast/parser.ts:62-102 | a function declaration is the name, parameters and body read |
| ParserProperties.ForClauseEmpty | ast/parser.ts:128-130 | a clause written as `;` alone is the null node |
| ParserProperties.ForClauseOfExpr | ast/parser.ts:128-131 | a clause written as an expression must end in `;` |
| ParserProperties.ForOf | ast/parser.ts:125-140 | a `for` statement is its two clauses and its body |
| ParserProperties.ForWithEmptyHeader | ast/parser.ts:125-140 | `for(;;){...}` has two null clauses |
| ParserProperties.IfOf | ast/parser.ts:160-187 | an `if` statement is its condition, its body and an else part, dropped when empty |
| ParserProperties.NoElse | ast/parser.ts:177 | with no `else` token, no else part is read and nothing is eaten |
| ParserProperties.ElseBlock | ast/parser.ts:177-184 | `else {` is followed by a block |
| ParserProperties.EmptyElse | ast/parser.ts:175-186 | `else {}` reads an empty else part, which the `if` then drops |
| ParserProperties.DoubleEqualsCompares | ast/parser.ts:266-294 | `a = = b`, which is how the lexer yields `==`, compares a and b |
| ParserProperties.SingleEqualsAssigns | ast/parser.ts:280-294 | `a = b` assigns b to a |
| ParserProperties.NotEqualsCompares | ast/parser.ts:251-264 | `a ! = b` is the `!=` comparison |
| ParserProperties.OrderingWithEquals | ast/parser.ts:266-278 | `a < = b` is `<=`, and `a > = b` is `>=` |
| ParserProperties.OrderingAlone | ast/parser.ts:266-278 | `a < b` and `a > b` are strict comparisons |
| ParserProperties.AdditiveIsLeftAssociative | ast/parser.ts:326-342 | any chain `a op b op c ...` of `+` and `-` folds to the left |
| ParserProperties.SubtractionGroupsLeft | ast/parser.ts:326-342 | `a - b - c` is `(a - b) - c` |
| ParserProperties.MultiplicativeIsLeftAssociative | ast/parser.ts:345-359 | any chain of `*`, `/` and `%` folds to the left |
| ParserProperties.BitwiseIsLeftAssociative | ast/parser.ts:309-324 | any chain of single logic characters folds to the left |
| ParserProperties.LogicalIsLeftAssociative | ast/parser.ts:241-249 | any chain of two-character logic operators folds to the left |
| ParserProperties.CompoundAssignment | ast/parser.ts:326-342 | `a + = b` is the compound assignment `+=`, and likewise `-=` |
| ParserProperties.MultiplicativeCompoundAssignment | ast/parser.ts:346-351 | `*`, `/` or `%` followed by `=` and an operand gives the compound assignment `*=`, `/=` or `%=` of the left side and that operand |
| ParserProperties.BitwiseCompoundAssignment | ast/parser.ts:309-315 | a logic character followed by `=` and an operand gives the compound assignment `\|=`, `&=` or `^=` of the left side and that operand |
| ParserProperties.DotMember | ast/parser.ts:369-390 | `a.b` is a member access that is not computed, with the name `b` as its property |
| ParserProperties.DotNeedsName | ast/parser.ts:369-390 | a dot followed by anything but a name is fatal |
| ParserProperties.IndexMember | ast/parser.ts:369-390 | `a[e]` is a computed member access with property `e` |
| ParserProperties.ParenthesesAddNoNode | ast/parser.ts:434-438 | `(e)` is `e` itself; a missing `)` is fatal |
| Scopes.Find | runtime/environment.ts:61-67 | `Map.get`: finds a name exactly when some entry holds it, and returns that entry's variable |
| Scopes.Put | runtime/environment.ts:59 | `Map.set` of a new name: that name now maps to the variable, all other names are unchanged, and names stay unique |
| Scopes.Delete | runtime/environment.ts:68-71 | `Map.delete`: the name is gone, all other names are unchanged, and no entry is added |
| Scopes.Addrs | runtime/environment.ts:38 | a map's addresses, in insertion order |
| Scopes.ChainHas | runtime/environment.ts:27-34 | some scope of the chain holds the name |
| Scopes.ChainAddrs | runtime/environment.ts:36-41 | an address is listed exactly when some scope of the chain holds it |
| Scopes.ChainSize | runtime/environment.ts:50-52 | the chain's variable count equals the length of its address list |
| Scopes.Max | runtime/dyn_environment.ts:27 | `Math.max` bounds every element and is one of them |
| Env.MissingNumbers | runtime/environment.ts:3-19 | the loop of `missingNumbers` computes `Missing`, which walks values from the first element up to the last |
| Env.MissingOfIncreasing | runtime/environment.ts:3-19 | on a strictly increasing list, the missing numbers are exactly the values between its first and last element that it lacks, listed in increasing order |
| Env.MissingFromOfIncreasing | runtime/environment.ts:6-16 | the same for the loop from any point on |
| Env.FirstGap | runtime/environment.ts:43-49 | `findFree` returns 0 for no addresses, and otherwise either the number of addresses or a value between the first and the last address in list order |
| Env.FirstGapCollides | runtime/environment.ts:43-49 | see Findings: for [1] and for [0, 2, 1], `findFree` as written returns an address already in the list |
| Env.LowestFree | runtime/environment.ts:43-49 | the intended `findFree`: the least address not in use |
| Env.LowestFreeFrom | runtime/environment.ts:43-49 | the least unused address at or above a bound |
| Env.LowestFreeUnique | runtime/environment.ts:43-49 | any unused address below which all addresses are in use is the least free address |
| Env.FirstGapOfIncreasing | runtime/environment.ts:43-49 | when the addresses are in increasing order from 0, `findFree` as written does return the least free address |
| Env.IndexIsValue | runtime/environment.ts:46 | an increasing list from 0 with no gap holds its own index at each position, so its length is free |
| Env.ExistsIn | runtime/environment.ts:27-34 | `exists` holds exactly when some scope of the chain holds the name |
| Env.ReadIn | runtime/environment.ts:61-67 | `read` searches the local map only: it succeeds exactly when the name is there and returns its variable, and fails with `does not exist` otherwise |
| Env.DeclareIn | runtime/environment.ts:54-60 | `declare` fails exactly when the name is already local; otherwise it adds one entry that reads back with the given type, leaves every other name as it was, and keeps names unique. The address is the corrected choice, the least free address of the chain, not `findFree`'s (see Findings) |
| Env.DeclareAgreesWithFindFree | runtime/environment.ts:54-60 | when the chain's addresses are increasing from 0, the address `declare` gives equals what `findFree` as written returns |
| Env.RemoveIn | runtime/environment.ts:68-71 | `remove` makes the name absent, leaves every other name as it was, and changes nothing when the name was absent |
| Env.DeclareIsFresh | runtime/environment.ts:54-60 | with the corrected address choice, a new variable's address differs from every address in use anywhere in the chain |
| Env.ShadowingIsAllowed | runtime/environment.ts:54-60 | a child scope may declare a name its parent holds; with the corrected address choice it gets a different address |
| Env.ShadowingAsWrittenCollides | runtime/environment.ts:43-49 | with `findFree` as written, a child of a scope whose only variable has address 1 gets address 1 for a shadowing declaration |
| Env.Environment.constructor | runtime/environment.ts:23-26 | a new environment has an empty map, and its parent chain is the given environment followed by that environment's own parents |
| Env.Environment.Exists | runtime/environment.ts:27-34 | the name is local, or some parent holds it |
| Env.Environment.Addresses | runtime/environment.ts:36-41 | the local addresses in insertion order followed by the parents' addresses; exactly the chain's addresses, one per variable |
| Env.Environment.Variables | runtime/environment.ts:50-52 | the size of the local map plus the sizes of the parents' maps |
| Env.Environment.FindFree | runtime/environment.ts:43-49 | `findFree` as written: the first missing number, or the address count when none is missing |
| Env.Environment.Declare | runtime/environment.ts:54-60 | fails with `already exists`, leaving the map as it was, exactly when the name is local; otherwise the map becomes `DeclareIn`'s, with the new variable at the corrected address |
| Env.Environment.Read | runtime/environment.ts:61-67 | the local lookup of `ReadIn` |
| Env.Environment.Remove | runtime/environment.ts:68-71 | the map becomes `RemoveIn`'s |
| DynEnv.LastAddr | runtime/dyn_environment.ts:24-28 | `lastAddr` is 0 for an empty map, and otherwise one more than an address in use and above every address in use |
| DynEnv.VarDepth | runtime/dyn_environment.ts:30-37 | `getVarDepth` is the position of the nearest scope that holds the name, and fails with `does not exist` exactly when no scope does |
| DynEnv.ReadIn | runtime/dyn_environment.ts:50-62 | `read` looks in the local map and then in the immediate parent only, failing otherwise |
| DynEnv.DeclareIn | runtime/dyn_environment.ts:39-48 | fails exactly when the name is local; otherwise adds the name at `lastAddr`, an address no local variable has, and returns the new variable |
| DynEnv.RemoveIn | runtime/dyn_environment.ts:64-71 | fails exactly when the name is not local; otherwise the name is gone, the map is shorter, and other names are unchanged |
| DynEnv.DeleteShrinks | runtime/dyn_environment.ts:70 | deleting a name that is present shortens the map |
| DynEnv.Environment.constructor | runtime/dyn_environment.ts:6-8 | an empty map under the given parent chain |
| DynEnv.Environment.Addresses | runtime/dyn_environment.ts:10-14 | the local addresses in insertion order |
| DynEnv.Environment.Exists | runtime/dyn_environment.ts:16-23 | the name is local, or some parent holds it |
| DynEnv.Environment.LastAddress | runtime/dyn_environment.ts:24-28 | `lastAddr` is not a local address in use |
| DynEnv.Environment.GetVarDepth | runtime/dyn_environment.ts:30-37 | succeeds exactly when the name exists in the chain; the depth is 0 exactly when the name is local, and otherwise names a parent that holds it |
| DynEnv.Environment.Read | runtime/dyn_environment.ts:50-62 | the lookup of `ReadIn` |
| DynEnv.Environment.Declare | runtime/dyn_environment.ts:39-48 | fails, leaving the map as it was, exactly when the name is local; otherwise returns and stores `DeclareIn`'s variable |
| DynEnv.Environment.Remove | runtime/dyn_environment.ts:64-71 | fails, leaving the map as it was, exactly when the name is not local; otherwise the map becomes `RemoveIn`'s |
| DynEnv.LastAddrAfterDeclare | runtime/dyn_environment.ts:24-48 | each declaration raises `lastAddr` by exactly one, so variables declared without deletions get addresses 0, 1, 2, ... |
| DynEnv.ReadStopsAtParent | runtime/dyn_environment.ts:30-62 | `getVarDepth` finds a name two scopes up, but `read` does not |
| Codegen.IndexOf | compiler/compiler.ts:17 | `indexOf` gives the first position holding the value, or -1 exactly when the value is absent |
| Codegen.AllocIn | compiler/compiler.ts:16-20 | `allocateReg` takes the lowest free register, numbering from 1, and marks it busy; with no register free it returns 0 and leaves the pool as it was |
| Codegen.FreeIn | compiler/compiler.ts:21-23 | `freeReg(r)` frees register r only; freeing a register beyond the pool grows the pool, and freeing R0 changes nothing |
| Codegen.FreeAllPool | compiler/compiler.ts:24-26 | `freeAll` frees every register and keeps the pool's size |
| Codegen.AllocThenFree | compiler/compiler.ts:16-23 | freeing the register just allocated restores the pool |
| Codegen.AllocTwiceDiffers | compiler/compiler.ts:16-20 | two allocations in a row give different registers |
| Codegen.EmitToReg | compiler/compiler.ts:67-68 | writing to a fresh register only appends, and keeps the pool's size and register values inside the pool |
| Codegen.ArithOp | compiler/compiler.ts:66 | the instruction is NOP exactly when the operator is none of `+ - * / %`, and is one of ADD, SUB, MLT, DIV, MOD, NOP |
| Codegen.CompareOp | compiler/compiler.ts:125-153 | a set instruction exists exactly for `> >= < <= == !=`, and is one of SSETG, SSETGE, SSETL, SSETLE, SETE, SETNE |
| Codegen.ParamLinesText | compiler/compiler.ts:181-183 | parameter i of n is copied by `LLOD R<reg> SP <n-i>` then `STR M<addr> R<reg>`, each on its own line, so the first parameter is read from the deepest stack slot |
| Codegen.Gen | compiler/compiler.ts:27-221 | compiling any node only appends to the code and data sections, never lowers a label counter, and keeps variable names unique in the local scope; for a pool of at least one register it also keeps the pool's size and returns only registers of the pool (with no register, a call still returns R1) |
| Codegen.GenIdent | compiler/compiler.ts:40-49 | the same invariant for identifiers |
| Codegen.GenBinary | compiler/compiler.ts:62-70 | the same invariant for binary expressions |
| Codegen.GenMember | compiler/compiler.ts:71-82 | the same invariant for member access |
| Codegen.GenAssign | compiler/compiler.ts:83-102 | the same invariant for assignments |
| Codegen.GenCall | compiler/compiler.ts:103-118 | the same invariant for calls, and a call's value is always R1, whatever the arguments and the callee |
| Codegen.GenComparison | compiler/compiler.ts:119-156 | the same invariant for comparisons |
| Codegen.GenFunDecl | compiler/compiler.ts:173-190 | the same invariant for function declarations, whose body compiles in a new child scope |
| Codegen.GenVarDecl | compiler/compiler.ts:191-201 | the same invariant for declarations |
| Codegen.GenArray | compiler/compiler.ts:54-57 | the same invariant for the element loop |
| Codegen.GenArgs | compiler/compiler.ts:105-108 | the argument loop keeps the invariant and yields no value of its own |
| Codegen.GenProgram | compiler/compiler.ts:167-170 | the statement loop keeps the invariant, and a program's value is R0 |
| Codegen.GenBody | compiler/compiler.ts:186-188 | the body loop keeps the invariant |
| Codegen.GenParams | compiler/compiler.ts:177-185 | the parameter loop keeps the invariant |
| Codegen.ProgramFreesRegisters | compiler/compiler.ts:165-172 | a program of any length is its first statement, compiled with every register free, followed by the rest of the program from where that statement left off; a failing statement fails the program with its error, a program's value is R0, and the empty program writes nothing |
| Codegen.ProgramShift | compiler/compiler.ts:167-170 | the statement loop over `[s] + rest` from index i + 1 is the loop over `rest` from index i |
| Codegen.VarDeclStores | compiler/compiler.ts:191-201 | `T x = n;` declares x at the corrected address (the least free address of the chain), writes `STR M<addr> n`, and later reads of x give that variable |
| Codegen.VarDeclFromIdent | compiler/compiler.ts:191-201 | `T x = y;` with y local writes `LOD Rr M<y>` into the lowest free register r, then `STR M<x> Rr`, and frees r, so the pool is exactly as before |
| Codegen.VarDeclDuplicate | compiler/compiler.ts:191-193 | a declaration fails exactly when the name is already local, with `already exists` |
| Codegen.IdentReadIsLocal | compiler/compiler.ts:40-49 | an identifier that does not exist anywhere fails as undeclared; one held only by a parent passes the existence check and then fails the local read |
| Codegen.IdentLoads | compiler/compiler.ts:40-49 | a local identifier takes the lowest free register r and writes `LOD Rr M<addr>` |
| Codegen.ArrayNumberStep | compiler/compiler.ts:54-57 | one turn of the element loop for a number writes `LSTR .array_k i n` and one `DW 0` |
| Codegen.ArrayDropsElementCode | compiler/compiler.ts:55 | in `[x]` the `LOD` that fills the element's register is lost; only the `LSTR` of that register remains, and the register stays busy |
| Codegen.Literals | compiler/compiler.ts:30-39 | a number or char is its own value and writes nothing; a string takes the next string number and writes its label and text to the data section |
| Codegen.FilledCellsAre | compiler/compiler.ts:54-57 | the element loop over numbers appends one store line per element to the code, and one data word per element |
| Codegen.ArrayCellsFrom | compiler/compiler.ts:54-59 | the element loop over numbers from any index fills the cells and returns the label |
| Codegen.ArrayOfNumberLiterals | compiler/compiler.ts:50-60 | an array of m numbers takes the next array number k; it writes `.array_k` and m data words, and `LSTR .array_k i n_i` for each element in order; its value is the label followed by a newline |
| Codegen.BinaryOfNumbers | compiler/compiler.ts:62-70 | `a op b` on numbers writes the operator's instruction (ADD, SUB, MLT, DIV, MOD, or NOP for any other operator) into the lowest free register, left operand first |
| Codegen.ComparisonOfNumbers | compiler/compiler.ts:119-156 | a comparison writes its set instruction into a fresh register, and any operator other than the six it knows is fatal |
| Codegen.PushedArgsAre | compiler/compiler.ts:105-108 | the argument loop over numbers appends one `PSH` per argument in order |
| Codegen.ArgsFrom | compiler/compiler.ts:105-108 | the argument loop from any index pushes the remaining arguments |
| Codegen.CallOfNumbers | compiler/compiler.ts:103-112 | a call of a named function with number arguments writes one `PSH n` per argument, left to right, then `CAL .name`; its value is R1 |
| Codegen.DotMemberIsFatal | compiler/compiler.ts:73-76 | a member access that is not computed is refused |
| Codegen.AssignTargetIsFatal | compiler/compiler.ts:83-100 | an assignment to any node that is neither a name nor a member fails with the right side's error if that fails, and otherwise is refused |
| Codegen.UnsupportedNodes | compiler/compiler.ts:216-219 | `if` (with or without `else`), `while`, `for`, and logical, bitwise and compound-assignment nodes with any operator reach the fatal default |
| Codegen.StringLabelsDiffer | compiler/compiler.ts:37-38 | different string numbers give different labels |
| Codegen.StringsNumberedInOrder | compiler/compiler.ts:36-65 | in `"a" + "b"` the left string is written first, as `.string_(k+1)`, and the right one next, as `.string_(k+2)` |
| Compiler.Compiler.constructor | compiler/compiler.ts:8-15 | n free registers, empty sections, both counters 0 |
| Compiler.Compiler.AllocateReg | compiler/compiler.ts:16-20 | the register and pool that `AllocIn` gives; nothing else changes |
| Compiler.Compiler.FreeReg | compiler/compiler.ts:21-23 | the pool that `FreeIn` gives; nothing else changes |
| Compiler.Compiler.FreeAll | compiler/compiler.ts:24-26 | the loop frees every register; nothing else changes |
| Compiler.Compiler.EmitReg | compiler/compiler.ts:67-68 | allocates a register and appends one instruction line into it |
| Compiler.Compiler.Compile | compiler/compiler.ts:27-221 | `compile` returns the value or error that `Gen` gives, and leaves the fields and the local map as `Gen` leaves them |
| Compiler.Compiler.CompileString | compiler/compiler.ts:36-39 | agrees with `Gen` on string literals |
| Compiler.Compiler.CompileNot | compiler/compiler.ts:157-163 | agrees with `Gen` on `!` |
| Compiler.Compiler.CompileAsm | compiler/compiler.ts:202-205 | agrees with `Gen` on asm lines |
| Compiler.Compiler.CompileDelete | compiler/compiler.ts:206-209 | agrees with `Gen` on `del` |
| Compiler.Compiler.CompileReturn | compiler/compiler.ts:210-215 | agrees with `Gen` on `ret` |
| Compiler.Compiler.CompileIdent | compiler/compiler.ts:40-49 | agrees with `Gen` on identifiers |
| Compiler.Compiler.CompileBinary | compiler/compiler.ts:62-70 | agrees with `Gen` on binary expressions |
| Compiler.Compiler.CompileMember | compiler/compiler.ts:71-82 | agrees with `Gen` on member access |
| Compiler.Compiler.CompileComparison | compiler/compiler.ts:119-156 | agrees with `Gen` on comparisons |
| Compiler.Compiler.CompileArray | compiler/compiler.ts:50-60 | the element loop agrees with `Gen` on arrays |
| Compiler.Compiler.CompileCell | compiler/compiler.ts:54-57 | one turn of the element loop agrees with one step of `GenArray`: a failing element fails the array, otherwise the loop goes on from the next index in the new state |
| Compiler.Compiler.CompileAssign | compiler/compiler.ts:83-102 | agrees with `Gen` on assignments |
| Compiler.Compiler.CompileCall | compiler/compiler.ts:103-118 | the argument loop agrees with `Gen` on calls |
| Compiler.Compiler.CompileProgram | compiler/compiler.ts:165-172 | the statement loop agrees with `Gen` on programs |
| Compiler.Compiler.CompileFunDecl | compiler/compiler.ts:173-190 | agrees with `Gen` on function declarations, including the new child environment |
| Compiler.Compiler.CompileBody | compiler/compiler.ts:186-188 | the body loop agrees with `GenBody` in the function's own environment |
| Compiler.Compiler.CompileParams | compiler/compiler.ts:177-185 | the parameter loop agrees with `GenParams` |
| Compiler.Compiler.CompileVarDecl | compiler/compiler.ts:191-201 | agrees with `Gen` on declarations |

## Left out

- Output: `console.error`, `console.warn` and `console.log` are not modelled. A fatal error is an `Err` result and the process exit is not modelled. The warning for an unknown token in `parse_primary` is dropped; the null node it returns is kept.
- Error texts: messages are codes of a `Message` datatype, not the source's strings.
- The demonstration script at compiler/compiler.ts:224-231 and the entry point main.ts are not part of this model. Its array literal `[5, 4, 3, 2, 1]` is an instance of `Codegen.ArrayOfNumberLiterals`.
- TextUtil.IsNumber: `parseInt` is modelled only as far as `isNumber` needs it, that is, whether the text starts with a number. Characters are code points, where JavaScript strings are UTF-16, so `charCodeAt(0)` on a char literal is the code point. The lexer's `split("")` gives UTF-16 code units, so `'😀'`, two code units, is fatal in the source (the second unit is not a closing quote) but one char token in the model (`Lexer.LexChar`).
- The `import` statement: the lexer has no `import` keyword, so `ParseImport` cannot be reached from lexed source. It is modelled for token lists that hold an `ImportToken`.
- ast/ast.ts: the `IfStatement` node has the shape the parser builds (`ifbody`, with an optional `elsebody`). The declared interface is not followed.
- A `;` where a statement starts reaches `parse_primary` and becomes a `Semicolon` node, as in the source.
- Crash: reading a token after the list is exhausted is a `Crash` error. JavaScript would throw there or read `undefined`.
- ParserSpec.Block: this and the other `ParserSpec` functions without a row state in their own contracts only that they take at least one token, or take none when they may stop at once. What each one parses is stated by the `Parser` method proved equal to it and by the `ParserProperties` lemmas.
- Codegen.ArrayOfNumberLiterals: the general array lemma covers elements that are numbers only. For other elements, `Codegen.ArrayDropsElementCode` shows how the source's `this.code += ...compile(elem)` loses the element's own code. That is modelled as written, not corrected.
- Codegen.AllocIn: an exhausted register pool is not an error in the source. `indexOf` gives -1 and register 0 is returned. This is modelled exactly, with no precondition.
- Codegen.UnsupportedNodes: `if`, `while`, `for`, logical, bitwise and compound-assignment nodes have no case in `compile`. They are modelled as the fatal default, as written.
- Env.DeclareIn: a new variable gets the corrected address, the least one free in the chain, not `findFree`'s. After `word a = 0; word b = 0; del a; word c = 5;` the source gives c address 1, b's, and writes `STR M1 5`; the model gives 0 and writes `STR M0 5`. The two agree when the chain's addresses are increasing from 0 (`Env.DeclareAgreesWithFindFree`). The same difference reaches every member that compiles a declaration; each has its own line below.
- Env.Environment.Declare: stores `DeclareIn`'s corrected address and does not call `FindFree` as the source does; the input above shows the difference.
- Env.DeclareIsFresh: freshness is proved of the corrected address only; as written, the input above gives c the address b holds.
- Env.ShadowingIsAllowed: the different address holds for the corrected choice only; as written, a shadowing variable can get its parent's address (`Env.ShadowingAsWrittenCollides`).
- Codegen.GenVarDecl: declares through the corrected `DeclareIn`, so after a `del` its `STR` can name a different cell than the source's, as in the input above.
- Codegen.GenParams: parameters are declared through the corrected `DeclareIn`, with the same difference after a `del` in an enclosing scope.
- Codegen.VarDeclStores: the address stated is the corrected one; the source's can differ after a `del`, as above.
- Codegen.VarDeclFromIdent: the address of x is the corrected one, as for `Codegen.VarDeclStores`.
- Compiler.Compiler.CompileVarDecl: calls the corrected `Env.Environment.Declare`, so its `STR` address can differ from the source's after a `del`.
- Compiler.Compiler.CompileParams: calls the corrected `Env.Environment.Declare` for each parameter, with the same difference.
- Codegen.GenFunDecl: declarations in the body go through the corrected `Env.DeclareIn`. In `word a = 0; word b = 0; del a; fn f() { word c = 5; }` the child chain holds only b's address 1, so `findFree` gives 1 and the source writes `STR M1 5` over b, while the model writes `STR M0 5`.
- Codegen.GenBody: compiles each body statement with the corrected `Env.DeclareIn`, so it differs from the source in the same way, as the input on the `Codegen.GenFunDecl` line shows.
- Codegen.Gen: every declaration it compiles, at top level or in a function body, takes the corrected address, so the inputs on the `Env.DeclareIn` and `Codegen.GenFunDecl` lines compile differently from the source.
- Codegen.GenProgram: compiles each statement through `Codegen.Gen`, so the `Env.DeclareIn` input gives `STR M0 5` where the source gives `STR M1 5`.
- Compiler.Compiler.Compile: agrees with `Codegen.Gen` and so inherits its corrected addresses, as on the `Codegen.Gen` line.
- Compiler.Compiler.CompileProgram: agrees with `Codegen.GenProgram`, with the same difference on the `Env.DeclareIn` input.
- Compiler.Compiler.CompileFunDecl: agrees with `Codegen.GenFunDecl`, so `word a = 0; word b = 0; del a; fn f() { word c = 5; }` gives `STR M0 5` where the source gives `STR M1 5`.
- Compiler.Compiler.CompileBody: agrees with `Codegen.GenBody`, with the same difference on the `Codegen.GenFunDecl` input.
- CValues.ToString: a number renders as the exact decimal text of a natural. The source's `toString` on a double rounds above 2^53 and switches to exponent form from 10^21 (`1e+21`), which the model does not.
- Parser.Parser.ParsePrimary: a number token becomes an exact natural. The source's `parseInt` gives a double, which rounds above 2^53, and `toString` writes exponent form from 10^21. So `word x = 9007199254740993;` compiles to `STR M0 9007199254740992` in the source and to `STR M0 9007199254740993` here, and `1000000000000000000000` is written `1e+21` by the source and in full here. The same holds for `ParserSpec.Primary`, `Numerals.DecimalValue` and `CValues.ToString`.
- Codegen.CallOfNumbers: the exact `PSH` text is stated for number arguments and a named callee. For other arguments the text is `GenArgs`'s, and `Codegen.GenCall` states the R1 value for every call.
- Memory: JavaScript objects are shared by reference between the AST and the environments. The model passes nodes by value and keeps an environment's parents as a snapshot, which loses nothing because a parent does not change while its child is in use.

## Findings

| source | as written | input that shows it | evidently intended | confidence | as-written member | corrected member |
|---|---|---|---|---|---|---|
| runtime/environment.ts:43-49 | `findFree` returns the first value that `missingNumbers` reports between the first and the last address in list order, or else the number of addresses | `word a = 0; word b = 0; del a;` leaves addresses [1]: nothing is missing, so `findFree` gives 1, which `b` holds; also `word a = 0; word b = 0; word c = 0; del b; word d = 0;` leaves [0, 2, 1] in one scope, and `findFree` gives 1, which d holds | the least address that no variable of the chain uses | not executed | Env.FirstGapCollides | Env.LowestFree |

`Env.Environment.FindFree` models `findFree` as written; `Env.FirstGapCollides`
shows both collisions, and `Env.FirstGapOfIncreasing` shows the two agree when
addresses are in increasing order from 0. `Env.DeclareIn`, and through it
`Env.Environment.Declare` and the compiler, uses the corrected `Env.LowestFree`,
and `Env.DeclareIsFresh` proves that a new variable's address is unused in the
whole chain. `Env.DeclareAgreesWithFindFree` shows where the corrected
`declare` matches the source's; `Env.ShadowingAsWrittenCollides` shows a
shadowing declaration reusing its parent's cell as written. Each member whose
behaviour differs from the source through this choice has its own line under
"Left out".
