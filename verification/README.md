# A C-subset compiler, modelled in Dafny

This project models the front, middle and back end of a small compiler, written in
Rust, for a subset of C, together with the Python script that drives it. The stages
are:

- the two tokenisers, `Lexer` (src/lexer.rs) and its predecessor `Scanner`
  (src/scanner.rs). Each is a cursor over the source text that yields one token per
  call of `next`;
- the parser (src/parser.rs). It accepts exactly `int NAME(void) { return CONSTANT; }`;
- the code generator for that program shape (src/codegen.rs);
- variable resolution (src/semantic_analysis.rs). Each declared variable gets a
  unique name `x.resolved.k`, and undeclared or duplicate variables are errors;
- lowering to TACKY three-address code (src/tacky.rs). Every operator gets a fresh
  temporary `prefix.k`, and `&&` and `||` become short-circuit jumps;
- the assembly printer (src/emit.rs), which turns assembly instructions into AT&T
  syntax lines;
- the driver compile.py. It derives the `.i` and `.S` names from the source path,
  runs the preprocessor and the compiler, stops on a compiler failure or `-S`, and
  otherwise links.

Every Rust `panic!` is an `Err` (with the panic's text where that is fixed) of the
`Result` type in wrappers.dfy. Where the source changes state, the model is
imperative:

- `Lexer.Lexer`, `Scanner.Scanner` and `Parser.Parser` are cursors (a position or an
  index field);
- `SemanticAnalysis.ResolveState` and `Tacky.TackifyState` hold the environment and
  the `u8` counter;
- `Tacky.Instructions` is the `&mut Vec<Instr>` that lowering appends to;
- `Emit.Writer` is the output file.

Each method is proved against a pure specification function: `NextToken`,
`ResolveProgram`, `LowerExpr`, `LowerProgram`, `InstrLines` or `EmitOutput`. The
properties are lemmas about those functions.

Every module, with its file:

- Wrappers (wrappers.dfy);
- Chars (chars.dfy): the character classes both tokenisers share;
- Decimal (decimal.dfy): decimal text for `format!`, `str::parse::<i32>` and the last
  `.` of a name;
- Lexer (lexer.dfy);
- Scanner (scanner.dfy);
- Parser (parser.dfy);
- Codegen (codegen.dfy);
- Syntax (syntax.dfy): the richer syntax tree that resolution and lowering work on;
- SemanticAnalysis (semantic_analysis.dfy);
- Tacky (tacky.dfy);
- Emit (emit.dfy);
- Driver (driver.dfy).

## Model

| member | source | states |
|---|---|---|
| Chars.ClassesDisjoint | src/lexer.rs:107-117 | digits, letters-or-underscore and whitespace (space, tab, newline) are pairwise disjoint, so the order of the guards in `next` does not matter |
| Chars.DigitRunEnd | src/lexer.rs:61-69 | the digit loop of `constant` stops at the end of the text or at the first non-digit, and passes only digits |
| Chars.DigitRunEndIs | src/lexer.rs:61-69 | that stopping point is unique: any position meeting both conditions is it |
| Chars.SkipWhitespace | src/lexer.rs:140-146 | the `continue` arm of `next` skips exactly the spaces, tabs and newlines before the first other character |
| Decimal.FromInt | src/emit.rs:114 | the text `format!` gives an integer is never empty and starts with `-` exactly for a negative number; `Decimal.FromIntInjective` proves distinct integers give distinct text |
| Decimal.ParseI32 | src/parser.rs:67-70 | `str::parse::<i32>`, with `None` for the `Err` the source unwraps into a panic; its partners `Decimal.ParseI32OfDigits`, `Decimal.ParseI32OfFromInt` and `Decimal.ParseI32OutOfRange` state what it accepts and to which value |
| Decimal.ValueOfFromNat | src/parser.rs:67-70 | the decimal text of a natural number denotes that number |
| Decimal.FromIntInjective | src/emit.rs:114 | distinct integers print as distinct decimal text, so `$n` never confuses two immediates |
| Decimal.ParseI32OfFromInt | src/parser.rs:67-70 | `parse::<i32>` of a printed `i32` gives the integer back |
| Decimal.ParseI32OfDigits | src/parser.rs:67-70 | a run of digits parses exactly when its value is at most 2147483647, and then to that value |
| Decimal.ParseI32OutOfRange | src/parser.rs:67-70 | a number outside the `i32` range, printed in decimal, does not parse |
| Lexer.WordEnd | src/lexer.rs:71-78 | the loop of `identifier` passes letters, digits and `_` and stops at the end or at the first other character |
| Lexer.Keyword | src/lexer.rs:82-87 | a word is `Id` exactly when it is not `return`, `int` or `void`, and then it carries the word's text |
| Lexer.Punctuator | src/lexer.rs:159-229 | an operator arm takes at most two characters after the first |
| Lexer.TokenAt | src/lexer.rs:147-230 | every non-whitespace arm of `next` moves the cursor forward |
| Lexer.NextToken | src/lexer.rs:139-233 | a yielded token always moves the cursor forward, and the cursor never passes the end |
| Lexer.NextTokenExhausted | src/lexer.rs:139-146 | `next` returns `None` exactly when only whitespace is left, and then the cursor is at the end |
| Lexer.Tokenize | src/lexer.rs:136-234 | `collect()` over the lexer: every token up to the end, or the first panic; `Lexer.RenderRoundTrip` and `Lexer.TokenizeShift` are its partners |
| Lexer.WhitespaceOnlyYieldsNothing | src/lexer.rs:241-245 | text made only of spaces, tabs and newlines lexes to no tokens |
| Lexer.DigitRunIsOneConstant | src/lexer.rs:247-251 | a run of digits followed by whitespace lexes to a single `Constant` with exactly that text |
| Lexer.DigitsThenLetterPanic | src/lexer.rs:147-155 | a digit run immediately followed by a letter or `_` panics with "Bad token" |
| Lexer.UnknownCharacterPanics | src/lexer.rs:230 | a character no arm recognises panics with "Bad token" followed by that character |
| Lexer.TokenizeShift | src/lexer.rs:139-233 | what the lexer yields from a position does not depend on the text before it |
| Lexer.WhitespaceSkipped | src/lexer.rs:140-146 | a whitespace character at the cursor changes nothing in what the lexer yields |
| Lexer.SpelledThenRest | src/lexer.rs:139-233 | a producible token written out and followed by a space lexes as itself, and the lexer then goes on, or panics, exactly as on the text after the space |
| Lexer.SpellingLexes | src/lexer.rs:139-233 | every token the lexer can produce, written out and followed by a space, lexes as itself in one call |
| Lexer.OperatorMunch | src/lexer.rs:159-229 | maximal munch: whatever follows an operator, the lexer takes at least all of its characters, and the token yielded is spelled by exactly the characters taken |
| Lexer.PunctuatorSpelled | src/lexer.rs:159-229 | every operator token yielded is spelled by exactly the characters its arm consumed |
| Lexer.RenderRoundTrip | src/lexer.rs:253-263 | any sequence of producible tokens, written out with a space after each, lexes back to exactly that sequence |
| Lexer.Lexer.constructor | src/lexer.rs:54-59 | a new lexer is at position 0 of its source |
| Lexer.Lexer.Peek | src/lexer.rs:90-96 | the character at the cursor, or `None` exactly at the end |
| Lexer.Lexer.NextChar | src/lexer.rs:98-105 | returns the character at the cursor and moves past it, or `None` at the end without moving |
| Lexer.Lexer.Constant | src/lexer.rs:61-69 | the cursor moves to the end of the digit run, and the token's text runs from the digit already taken to there |
| Lexer.Lexer.Identifier | src/lexer.rs:71-88 | the cursor moves to the end of the word, and the token is the keyword or `Id` for the text from the character already taken |
| Lexer.Lexer.CheckNextChar | src/lexer.rs:119-133 | the token returned and the new cursor are those of `CheckNext`: when the next character is the expected one, it is consumed and `present` returned; otherwise nothing moves and `absent` is returned |
| Lexer.Lexer.Operator | src/lexer.rs:159-229 | the operator arms move the cursor and yield as `Punctuator` specifies |
| Lexer.Lexer.Next | src/lexer.rs:139-233 | one call of `next` yields, ends or panics exactly as `NextToken` specifies, and leaves the cursor where it says |
| Scanner.AlphaRunEnd | src/scanner.rs:39-44 | the loop of `identifier` passes only letters and `_` (no digits) and stops at the end or at the first other character |
| Scanner.Keyword | src/scanner.rs:46-53 | a word is `Id` exactly when it is not `return`, `int` or `void`, and then it carries the word's text |
| Scanner.TokenAt | src/scanner.rs:94-107 | every non-whitespace arm of `next` moves the cursor forward |
| Scanner.NextToken | src/scanner.rs:91-110 | a token returned always moves the cursor forward |
| Scanner.NextTokenNone | src/scanner.rs:91-110 | `next` returns `None` exactly when only whitespace is left or the next non-blank character has no arm |
| Scanner.Punctuator | src/scanner.rs:102-107 | a character with an arm (a bracket, a brace or `;`) becomes the token spelled by exactly that character |
| Scanner.Tokenize | src/scanner.rs:88-111 | `collect()` over the scanner: every token up to the end or the first unknown character; `Scanner.RenderRoundTrip` and `Scanner.TokenizeShift` are its partners |
| Scanner.WhitespaceOnlyYieldsNothing | src/scanner.rs:118-122 | text made only of spaces, tabs and newlines scans to no tokens |
| Scanner.DigitRunIsOneConstant | src/scanner.rs:124-128 | a run of digits followed by whitespace scans to a single `Constant` with exactly that text |
| Scanner.DigitEndsIdentifier | src/scanner.rs:39-44 | identifiers hold no digits: a non-keyword word followed by digits is an `Id` and then a `Constant` |
| Scanner.UnknownCharacterEndsStream | src/scanner.rs:107 | an unknown character ends the stream, without an error, whatever follows it |
| Scanner.SpellingScans | src/scanner.rs:91-110 | every token the scanner can produce, written out and followed by a space, scans as itself in one call |
| Scanner.WhitespaceSkipped | src/scanner.rs:91-93 | a whitespace character at the cursor changes nothing in what the scanner yields |
| Scanner.SpelledThenRest | src/scanner.rs:91-110 | a producible token written out and followed by a space scans as itself, and the scan goes on exactly as on the text after the space |
| Scanner.RenderRoundTrip | src/scanner.rs:130-140 | any sequence of producible tokens, written out with a space after each, scans back to exactly that sequence |
| Scanner.RenderUnknownRoundTrip | src/scanner.rs:91-110 | producible tokens written out with spaces, followed by any unknown character and anything after it, scan back to exactly those tokens |
| Scanner.Scanner.constructor | src/scanner.rs:22-27 | a new scanner is at position 0 of its source |
| Scanner.Scanner.Peek | src/scanner.rs:58-64 | the character at the cursor, or `None` exactly at the end |
| Scanner.Scanner.NextChar | src/scanner.rs:66-73 | returns the character at the cursor and moves past it, or `None` at the end without moving |
| Scanner.Scanner.Constant | src/scanner.rs:29-37 | the cursor moves to the end of the digit run, and the constant's text runs from the digit already taken to there |
| Scanner.Scanner.Identifier | src/scanner.rs:39-56 | the cursor moves to the end of the letter run, and the token is the keyword or `Id` for that text |
| Scanner.Scanner.Next | src/scanner.rs:91-110 | one call of `next` returns exactly what `NextToken` specifies, and leaves the cursor where it says |
| Parser.WellFormed | src/parser.rs:33-75 | the token sequences `parse` accepts: `int`, a name, `(void) {`, `return`, an `i32` constant, `;` and `}`, with nothing after; `Parser.ParseUnparse` shows every program is reached, `Parser.ExtraJunkRejected` and `Parser.OverflowRejected` what is not |
| Parser.ProgramOf | src/parser.rs:33-75 | the program an accepted sequence denotes; `Parser.ParseUnparse` and `Parser.ProgramOfDetermines` make it the inverse of writing the program out |
| Parser.FunctionAtSlice | src/parser.rs:33-58 | the tokens from any index on form a well-formed function exactly when the function's tokens are found at that index, and then they denote the function named there |
| Parser.FunctionTokensWellFormed | src/parser.rs:33-75 | the ten tokens of `int NAME(void) { return TEXT; }` are accepted exactly when TEXT parses as an `i32`, and then denote the function returning that value |
| Parser.ParseUnparse | src/parser.rs:33-75 | every program, written out as tokens, is accepted and denotes itself |
| Parser.ProgramOfDetermines | src/parser.rs:33-75 | two accepted token sequences that denote the same program agree on every token except possibly the constant's text |
| Parser.ExtraJunkRejected | src/parser.rs:52-55 | any token after the closing brace makes the input rejected |
| Parser.OverflowRejected | src/parser.rs:67-70 | a constant outside the `i32` range is rejected |
| Parser.ParseSourceRoundTrip | src/main.rs:21-22 | a program with an identifier name and a non-negative constant, written out with spaces, is lexed and parsed back to itself |
| Parser.Parser.constructor | src/parser.rs:29-31 | a new parser is at the first token |
| Parser.Parser.Peek | src/parser.rs:52 | the token at the cursor, or `None` exactly at the end |
| Parser.Parser.Next | src/parser.rs:35 | returns the token at the cursor and moves past it, or `None` at the end without moving |
| Parser.Parser.Consume | src/parser.rs:77-85 | succeeds exactly when the next token is the expected one, and then moves past exactly that token; otherwise it fails without moving |
| Parser.Parser.Statement | src/parser.rs:60-75 | succeeds exactly on `return CONSTANT ;` with an `i32` constant, moving three tokens, and returns its value |
| Parser.Parser.Parse | src/parser.rs:33-58 | succeeds exactly when the rest of the tokens is a well-formed function with nothing after it, and returns the program they denote |
| Codegen.AssembleInstructions | src/codegen.rs:34-43 | the statement becomes two instructions: the constant moved into `%eax`, then `ret` |
| Codegen.Assemble | src/codegen.rs:25-32 | the function keeps its name and gets the instructions of its statement |
| Codegen.Compile | src/main.rs:20-23 | lexing, parsing and code generation fail exactly when lexing and parsing do, and otherwise give two instructions, a move into `%eax` and `ret` |
| Codegen.DisassembleAssemble | src/codegen.rs:25-43 | nothing is lost: the program is recovered from its generated assembly |
| Codegen.AssembleDisassemble | src/codegen.rs:25-43 | only generated listings are recovered, and what is recovered assembles back to the same listing |
| Codegen.AssembleInjective | src/codegen.rs:25-43 | distinct programs get distinct assembly |
| Codegen.CompileReturnConstant | src/main.rs:20-23 | `int NAME(void) { return N; }`, written out, compiles to `NAME` moving `N` into `%eax` and returning |
| SemanticAnalysis.ResolvedNameInjective | src/semantic_analysis.rs:75-79 | a resolved name `x.resolved.k` determines both the original name and the counter |
| SemanticAnalysis.ResolveExpression | src/semantic_analysis.rs:32-73 | `expression`, with its three panics as `Err`; `SemanticAnalysis.ResolveExpressionCorrect` proves it succeeds exactly on in-scope, well-targeted expressions, and then renames them by the reference `Rename` |
| SemanticAnalysis.ResolveExpressionCorrect | src/semantic_analysis.rs:32-73 | resolving an expression succeeds exactly when every variable is in scope and every assignment target is a variable, and then it gives the reference renaming |
| SemanticAnalysis.RenameKeepsTargets | src/semantic_analysis.rs:32-73 | renaming preserves whether every assignment target is a variable |
| SemanticAnalysis.RenameVars | src/semantic_analysis.rs:44-50 | after renaming, the variables mentioned are exactly the images of the original ones |
| SemanticAnalysis.ResolveStatement | src/semantic_analysis.rs:24-30 | `statement`; `SemanticAnalysis.ResolveStatementKind` proves it keeps the kind and fails exactly when the expression does |
| SemanticAnalysis.ResolveStatementKind | src/semantic_analysis.rs:24-30 | a statement keeps its kind and fails exactly when its expression does |
| SemanticAnalysis.ResolveItemsKinds | src/semantic_analysis.rs:86-94 | a resolved block has the same length and the same item kinds as the input, in order |
| SemanticAnalysis.ResolveItemsEnv | src/semantic_analysis.rs:11-17 | after a block the environment knows exactly the declared names |
| SemanticAnalysis.ResolveItemsNames | src/semantic_analysis.rs:11-22 | the `k`-th declaration of a resolved block is the `k`-th declared name renamed with counter `k` |
| SemanticAnalysis.ResolveItem | src/semantic_analysis.rs:87-93 | one block item in the loop of `resolve_vars`; `SemanticAnalysis.ResolveItemStep` states what it appends and how the environment and the counter change |
| SemanticAnalysis.ResolveItemStep | src/semantic_analysis.rs:87-93 | one item appends one resolved item of the same kind; a declaration adds its name and one to the counter |
| SemanticAnalysis.ResolvedNamesDistinct | src/semantic_analysis.rs:11-22 | every declaration of a resolved block gets a name of its own |
| SemanticAnalysis.DuplicateRejected | src/semantic_analysis.rs:12-14 | a block that declares a name twice is rejected |
| SemanticAnalysis.OwnInitializerInScope | src/semantic_analysis.rs:15-17 | a variable is in scope in its own initializer, so `int x = x;` resolves |
| SemanticAnalysis.UndeclaredRejected | src/semantic_analysis.rs:44-49 | a variable used before any declaration is rejected |
| SemanticAnalysis.ResolveState.constructor | src/semantic_analysis.rs:82-85 | resolution starts with an empty environment and counter 0 |
| SemanticAnalysis.ResolveState.NewTemp | src/semantic_analysis.rs:75-79 | returns `name.resolved.count`, and increments the counter by exactly one |
| SemanticAnalysis.ResolveState.Declaration | src/semantic_analysis.rs:11-22 | rejects a name already in scope; otherwise it binds the name to a fresh resolved name first, then resolves the initializer |
| SemanticAnalysis.ResolveProgram | src/semantic_analysis.rs:81-97 | the resolved function keeps its name, the number of its items and the kind of each item |
| SemanticAnalysis.ResolveVars | src/semantic_analysis.rs:81-97 | the loop computes exactly `ResolveProgram`, the item-by-item specification |
| SemanticAnalysis.PrefixStep | src/semantic_analysis.rs:87-93 | resolving one more item of a block resolves that item in the state the items before it leave, and counts one more declaration exactly when it is one |
| SemanticAnalysis.ErrorPersists | src/semantic_analysis.rs:87-94 | the first item that fails decides the result of the whole block |
| Tacky.ConvertBinop | src/tacky.rs:289-309 | the conversion panics exactly for `&&` and `||` |
| Tacky.ConvertUnop | src/tacky.rs:281-287 | `convert_unop`; `Tacky.ConvertInjective` proves distinct operators convert to distinct TACKY operators |
| Tacky.ConvertCompoundOp | src/tacky.rs:311-324 | `convert_compound_op`; `Tacky.CompoundAgreesWithBinary` proves `op=` converts like `op` |
| Tacky.ConvertInjective | src/tacky.rs:281-309 | distinct operators convert to distinct TACKY operators |
| Tacky.CompoundAgreesWithBinary | src/tacky.rs:311-324 | `op=` converts to the same TACKY operator as `op` |
| Tacky.TempIndexOf | src/tacky.rs:275-279 | the counter can be read back from a temporary's name |
| Tacky.TempNamesDistinct | src/tacky.rs:275-279 | temporaries made with different counters differ, whatever their prefixes |
| Tacky.TempIsNotResolvedName | src/tacky.rs:275-279 | no temporary can collide with a resolved variable name |
| Tacky.LowerExpr | src/tacky.rs:126-273 | a successful lowering advances the counter by exactly the number of temporaries the expression needs |
| Tacky.ShortCircuitLowered | src/tacky.rs:142-208 | the `&&`/`||` result once both operands are lowered: the end label, the skip label and the result take the counters `count`, `count + 1` and `count + 2`; `Tacky.ShortCircuitLoweredLabelled` proves its labels fresh and its jumps internal, `Tacky.ShortCircuitLoweredNoReturn` that it adds no `Return` |
| Tacky.ShortCircuitLoweredLabelled | src/tacky.rs:142-208 | given labelled operands lowered after the three reserved names, the short-circuit code places each label at most once, only with counters from `count` up to the operands' end, and every jump in it goes to one of its labels |
| Tacky.BinaryLowered | src/tacky.rs:209-226 | the result for any other binary operator once both operands are lowered; `Tacky.BinarySteps` places it after the operands' own steps |
| Tacky.BinarySteps | src/tacky.rs:209-226 | a binary operator other than `&&` and `\|\|` lowers the left operand, then the right one from the counter after it, and on success adds one `Binary` into the temporary `tmp` numbered by the next counter; the first panic is the result |
| Tacky.ShortCircuitSteps | src/tacky.rs:142-208 | `&&` and `\|\|` reserve three labels and temporaries from the counter, lower both operands after them, and produce the short-circuit jumps around the right operand; the first panic is the result |
| Tacky.LowerExprOk | src/tacky.rs:227-271 | lowering fails exactly when some assignment or compound assignment target is not a variable |
| Tacky.ResolvedLowers | src/tacky.rs:230-235 | anything that variable resolution accepts lowers without a panic |
| Tacky.ExprCodeHasNoReturn | src/tacky.rs:126-273 | the code of an expression never contains a `Return` |
| Tacky.ReturnStatementReturnsOnce | src/tacky.rs:116-119 | a `return` statement's code is its expression's code then one `Return` of its value, with no other `Return` |
| Tacky.AssignmentEndsWithCopy | src/tacky.rs:227-271 | an assignment yields its variable and ends by copying into it; a compound assignment computes into a fresh temporary and copies that into the variable |
| Tacky.LowerStatement | src/tacky.rs:113-124 | a statement fails exactly when its expression does, and moves the counter on by the expression's temporaries (none for `;`) |
| Tacky.LowerDeclaration | src/tacky.rs:103-111 | a declaration without an initializer gives no code; with one it fails exactly when the initializer does, moves the counter on by its temporaries, and ends by copying into the variable |
| Tacky.LowerItem | src/tacky.rs:88-91 | an item moves the counter on by exactly the temporaries it asks for |
| Tacky.LowerItemsNext | src/tacky.rs:88-93 | after a block the counter equals the number of temporaries the block needs |
| Tacky.LowerProgram | src/tacky.rs:83-96 | the lowered function keeps its name and ends with `return 0` |
| Tacky.LowerExprLabelled | src/tacky.rs:142-208 | lowered code places each label at most once, only with counters of its own run, and every jump goes to one of its labels |
| Tacky.ProgramLabelled | src/tacky.rs:83-96 | in a lowered function no label is placed twice and every jump target is a label in it |
| Tacky.ItemsStep | src/tacky.rs:88-93 | lowering one more item of a block appends that item's code, lowered from the counter the items before it leave, or fails with its panic; the temporaries needed add up |
| Tacky.LowerItemsErrorPersists | src/tacky.rs:88-93 | the first item that fails decides the result of the whole block |
| Tacky.Instructions.Push | src/tacky.rs:94 | appends exactly one instruction |
| Tacky.Instructions.Extend | src/tacky.rs:154-172 | appends exactly the given instructions, in order |
| Tacky.TackifyState.constructor | src/tacky.rs:99-101 | the counter starts at 0 |
| Tacky.TackifyState.NewTemp | src/tacky.rs:275-279 | returns `prefix.count`, and increments the counter by exactly one |
| Tacky.TackifyState.TackifyExpr | src/tacky.rs:126-273 | appends exactly the code `LowerExpr` specifies, returns its value and leaves the counter where it says; on a panic it returns that error |
| Tacky.TackifyState.TackifyShortCircuit | src/tacky.rs:142-208 | the `&&` and `||` arms append the short-circuit pattern `LowerExpr` specifies |
| Tacky.TackifyState.TackifyBinary | src/tacky.rs:209-226 | the other binary arm appends both operands' code and one `Binary` into a fresh temporary, as `LowerExpr` specifies |
| Tacky.TackifyState.TackifyCompound | src/tacky.rs:227-254 | the compound-assignment arm follows `LowerExpr`, including the panic on a non-variable target |
| Tacky.TackifyState.TackifyItem | src/tacky.rs:103-124 | a declaration or statement appends exactly the code `LowerItem` specifies |
| Tacky.EmitTacky | src/tacky.rs:83-96 | the loop computes exactly `LowerProgram` |
| Emit.OperandText | src/emit.rs:111-118 | writing an operand panics exactly on a pseudo register |
| Emit.CondSuffix | src/emit.rs:77-87 | `write_cond_code`; `Emit.MnemonicsInjective` proves distinct condition codes print differently |
| Emit.UnaryMnemonic | src/emit.rs:89-95 | `write_unop`; `Emit.MnemonicsInjective` proves distinct operators print differently |
| Emit.BinaryMnemonic | src/emit.rs:97-109 | `write_binop`; `Emit.MnemonicsInjective` proves distinct operators print differently |
| Emit.RegisterName | src/emit.rs:120-154 | every register name starts with `%` and has at least three characters; `Emit.RegisterWidth` and `Emit.RegisterNameInjective` state how it depends on the width |
| Emit.MnemonicsInjective | src/emit.rs:77-109 | distinct condition codes, unary operators and binary operators print distinct mnemonics |
| Emit.RegisterWidth | src/emit.rs:120-154 | a register's name depends only on whether the width is 4; `CX` and `CL` ignore the width; the others print differently at 4 and not-4 |
| Emit.RegisterNameInjective | src/emit.rs:120-154 | at one width, distinct registers print distinct names |
| Emit.OperandTextInjective | src/emit.rs:111-118 | at one width, distinct printable operands print distinct text |
| Emit.InstrLines | src/emit.rs:20-75 | the lines `emit_instr` writes for one instruction, or the panic of its first pseudo operand; `Emit.InstrPanics` states when it panics and how many lines it writes |
| Emit.InstrPanics | src/emit.rs:20-75 | an instruction panics exactly when one of its operands is a pseudo register, with the first one's message; otherwise `Ret` writes three lines and every other instruction one |
| Emit.OperandWidths | src/emit.rs:27-71 | `SetCC` writes its register at one byte, while `Mov` and `IDiv` write theirs at four |
| Emit.LabelsMatchJumps | src/emit.rs:60-72 | a label line and the jumps to it spell the target the same way, and distinct labels print differently |
| Emit.EmitOutput | src/emit.rs:6-18 | the output starts with the four prologue lines for the function's name |
| Emit.CollectErrorPersists | src/emit.rs:14-16 | once a prefix of the printed instructions has panicked, the rest changes nothing |
| Emit.CollectStep | src/emit.rs:14-16 | one more instruction appends its lines, or records its panic with the lines before it kept |
| Emit.CollectConcat | src/emit.rs:14-16 | after a run without a panic, a second run appends its lines and its panic |
| Emit.CollectPanics | src/emit.rs:14-16 | the output panics exactly when some printed instruction does |
| Emit.CollectFirstPanic | src/emit.rs:14-16 | a panicking output carries the first panic, after the lines of the instructions before it |
| Emit.ListingErrorPersists | src/emit.rs:14-16 | after the first panic nothing more is written |
| Emit.ListingConcat | src/emit.rs:14-16 | printing two runs of instructions in turn writes their listings in turn |
| Emit.ListingPanics | src/emit.rs:14-16 | the listing panics exactly when some instruction does |
| Emit.ListingFirstPanic | src/emit.rs:14-16 | a panicking listing stops at the first panicking instruction, with its message, after the lines of the instructions before it |
| Emit.ListingLength | src/emit.rs:20-75 | without a panic, the listing has one line per instruction plus two more per `Ret` |
| Emit.EndsWithEpilogue | src/emit.rs:22-26 | a function body that ends in `Ret` ends its text with the three epilogue lines |
| Emit.ReturnTwo | src/emit.rs:6-26 | the exact text written for `main` returning 2 |
| Emit.Writer.WriteLine | src/emit.rs:10 | one write appends exactly one line to the file |
| Emit.EmitInstr | src/emit.rs:20-75 | writes exactly the lines `InstrLines` specifies; on a panic it writes nothing and returns the panic |
| Emit.EmitAssembly | src/emit.rs:6-18 | the file receives exactly the lines of `EmitOutput`; the result is an error exactly when that output panics, and then with its message |
| Driver.Stem | compile.py:9 | a path without a `.` gives the empty stem; `Driver.StemBeforeLastDot` proves the stem is the path before its last `.` |
| Driver.Preprocessed | compile.py:10 | the preprocessor's output name ends in `.i` |
| Driver.AssemblyName | compile.py:11 | the name the linker reads ends in `.S` |
| Driver.Drive | compile.py:8-21 | no tool runs exactly when the source argument is missing; the driver exits 0 exactly when there is a source argument and the compiler succeeded; at most three tools run |
| Driver.Split | compile.py:9 | `split('.')` gives at least one piece, and no piece contains a `.` |
| Driver.JoinSplit | compile.py:9 | joining the pieces with `.` gives back the path |
| Driver.StemBeforeLastDot | compile.py:9 | the output name is the path before its last `.`, and empty when there is none |
| Driver.StemExamples | compile.py:9 | `foo.bar` has stem `foo`, and `a.b.c` has stem `a.b` |
| Driver.NoDotEmptyStem | compile.py:9-10 | a path without a `.` gives the empty stem, and the preprocessor writes `.i` |
| Driver.ArtifactNamesDistinct | compile.py:9-11 | the preprocessed file, the assembly file and the executable have three different names |
| Driver.CompilerFollowsPreprocessor | compile.py:8-14 | the preprocessor runs first, writing `stem.i`, and the compiler then runs on that file |
| Driver.GeneratorFailureStops | compile.py:16-17 | a failing compiler's status becomes the driver's, and nothing is linked |
| Driver.LinksIff | compile.py:16-21 | the linker runs exactly when there is a source argument, the compiler succeeded and `-S` is absent; it then links `stem.S` into `stem` |
| Driver.ExitsZeroIff | compile.py:16-21 | with a source argument, the driver exits 0 exactly when the compiler does |
| Driver.DecidedByStatusAndFlag | compile.py:19-20 | only the compiler's status and the presence of `-S` anywhere in `argv` decide the outcome |

## Left out

- I/O:
  - Reading the source file, opening the `.s` file and `path.with_extension("S")` (src/main.rs) are not part of this model. Instead, `Compile` and `ParseSource` chain lexing, parsing and code generation on a string.
  - `Emit.Writer` stands for the file. `write_all` errors (the `?` in src/emit.rs) cannot happen in it. Lines are stored without their trailing newline.
  - The external tools run by compile.py (`gcc -E`, the compiler binary and `gcc` as linker) are not modelled. The compiler's exit status is a parameter of `Driver.Drive`. The preprocessor's and the linker's statuses are never read by the script, so they are absent.
  - The operating system's truncation of the exit status to 8 bits is not modelled.
  - `AssemblyName` is the name compile.py gives the linker, `stem.S`. The compiler itself derives its output with `with_extension("S")` in src/main.rs, which is not part of this model. The two names agree when the last path component of the stem is non-empty. When it is empty, the preprocessed file is a dot-file: `.i` for a path without a `.`, or `dir/.i` for `dir/.c`. A leading dot does not start an extension, so `with_extension` gives `.i.S` or `dir/.i.S`, not the `.S` or `dir/.S` the linker reads.
- Driver.Drive: a missing `argv[1]` is modelled as exit status 1 with no tool started. That is what an uncaught `IndexError` does, but its traceback is not modelled.
- Lexer/Parser interleaving:
  - `Parser.ParseSource` lexes the whole text before parsing. The Rust parser pulls tokens lazily from a `Peekable<Lexer>`, so when the input has both a lexical and a syntax error, the panic that wins can differ. Both are panics (`Err`) either way.
  - Panic messages keep only their fixed text, such as "Expected", "Extra junk at end", "Duplicate variable name" or "Undeclared variable". The names and `Debug` renderings the source appends to them are dropped. Two messages keep their variable part: the lexer's `Bad token c` keeps the character, and the printer's "Pseudo operand … not replaced" keeps the name.
- Characters: the text is a sequence of Unicode scalar values and only the ASCII classes matter. The byte-slicing of `&str` (which returns `None` inside a multi-byte character) is not modelled.
- Lexer.UnknownCharacterPanics is stated for ASCII characters only. Past ASCII, the one-byte slice of `peek` and `next_char` returns `None`, and `next` then ends the stream instead of panicking.
- The `u8` counters:
  - `ResolveState.count` and `TackifyState.count` overflow (a panic in debug builds) past 255. That is a precondition: `SemanticAnalysis.ResolveState.NewTemp`, `SemanticAnalysis.ResolveState.Declaration` and `SemanticAnalysis.ResolveVars` require at most 255 declarations.
  - Tacky.TackifyState.NewTemp, Tacky.TackifyState.TackifyExpr, Tacky.TackifyState.TackifyShortCircuit, Tacky.TackifyState.TackifyBinary, Tacky.TackifyState.TackifyCompound, Tacky.TackifyState.TackifyItem and Tacky.EmitTacky require at most 255 temporaries, instead of modelling the overflow panic.
- SemanticAnalysis: `expression` and `statement` take `&mut self` but only read the environment, so they are the functions `ResolveExpression` and `ResolveStatement` rather than methods.
- Tacky.LowerExpr: the left side of a compound assignment, already checked to be a variable, is lowered to itself with no code, which is what the recursive call in src/tacky.rs:237 produces for a variable.
- Tacky:
  - The `&&` and `||` arms are one method, `TackifyShortCircuit`, parameterised by the operator, and one specification, `ShortCircuit`.
  - The source's own `BinaryOperator::And`/`Or` panic arm of `convert_binop` is unreachable because those arms are taken first. It is kept as the `None` of `ConvertBinop`.
- Types not shown in the source:
  - The richer parser types that src/semantic_analysis.rs and src/tacky.rs import (`BlockItem`, `Declaration`, `CompoundOperator` and others) are rebuilt in Syntax from the way those two files use them. The parser that produces them is not part of this model.
  - The assembly types src/emit.rs imports (`CondCode`, `Register`, `Stack` and others) are rebuilt in Emit from their use there. The code generator that produces them is not part of this model.
- Emit:
  - `Imm` and `Stack` hold an `i32`. A negative stack offset prints as `--k(%rbp)`, exactly as the source's format string does.
  - The width is any `u8`.
