# A verified model of the teaching-language interpreter

This project models, in Dafny, the interpreter of the small teaching language in
`part3/3_5/compilers/Interpreter`. `MainClass.Run` drives one pass after another,
and every pass writes to the same `StringIO`:

- **Input buffer.** A fixed-size lookahead window slides over the program's bytes
  and keeps the line and column of its first slot.
- **Lexer.** It turns the characters into a queue of lexemes. Each lexical error
  is reported, the lexer skips to the end of the line, and it sets a sticky
  `errored` flag.
- **Parser.** A recursive-descent parser with one lexeme of lookahead. It builds
  the syntax tree, and after an error it recovers past the next `;`.
- **Semantic analysis** (optional). A visitor that type-checks the tree with
  placeholder values. It reports the error of each statement and carries on.
- **Interpreter.** A visitor that runs the tree with 32-bit arithmetic and
  `read`/`print` on the `StringIO`. It stops at the first error. A failed
  `assert` names its condition, which the **expression printer** renders back
  into tokens.

The project keeps the source's structure:

- Each pass that changes state in place is a Dafny `class` whose methods are
  proved against pure specification functions:
  - `Input.InputBuffer` over an `array<int>` window;
  - `Lexing.Lexer` against `LexSpec`;
  - `Parsing.Parser` against `ParseSpec`;
  - `Analyses.Analysis` against `AnalysisSpec`;
  - `Interpreters.Interpreter` against `InterpreterSpec`;
  - `StringIOs.StringIO` on its own.
- The syntax tree is a datatype (`Ast`).
- The shared visitor checks are functions (`Visiting`).
- `Programs.Run` is proved equal to the pure `Programs.Pipeline`. Properties of
  the whole pipeline are then lemmas about that function.

## How the model follows the program

- **Bytes and characters.**
  - Program text is a `seq<byte>`. The window holds `-1` past the end of the
    stream, and `0` in the slots a fresh window has not filled yet.
  - `Char.IsDigit`, `Char.IsLetter` and `Char.IsWhiteSpace` are written out
    exactly for the characters 0..255. Those are the only characters the lexer
    can see.
  - `Char.IsWhiteSpace` also covers .NET's full white-space list, for the
    `StringIO` input.
- **Integers.**
  - `int` arithmetic wraps around modulo 2^32 (`Int32.Wrap`), as C# does by
    default.
  - Division truncates toward zero (`Int32.Div`).
  - Dividing by zero, or dividing `int.MinValue` by `-1`, raises a host
    exception.
- **Outcomes.** Every visitor handler ends in an `Outcome`:
  - `Done(value)`;
  - `Thrown(VisitorException)`, which the visitors catch and report;
  - `Crashed(fault)`, a .NET exception or non-termination that escapes `Run`.
  The faults are:
  - a null dereference;
  - a node tag with no registered handler;
  - division by zero;
  - `int.MinValue / -1`;
  - `int.Parse` overflowing on an input token;
  - a `read` of a number at the end of the input, which retries forever;
  - a `for` loop to `int.MaxValue` whose counter is still wrapping round after
    `InterpreterSpec.WrapLaps` wraps, with no pass failing yet.
- **Variables.**
  - The binding table is a `map<string, Variable>`.
  - In the interpreter, `controlVariable.immutable = true` mutates an object
    that the first iteration's rebinding immediately replaces. Resetting it
    afterwards is therefore invisible. The model rebinds the table exactly as
    the handler does.
  - In the analysis, the same flag is flipped on the live entry, which the
    model writes as two table updates.

## Model

| member | source | states |
|---|---|---|
| Input.PositionLine | part3/3_5/compilers/Interpreter/sources/InputBuffer.cs:78-83 | after k bytes have left the window, the line is 1 plus the number of newlines among them |
| Input.PositionColumn | part3/3_5/compilers/Interpreter/sources/InputBuffer.cs:78-83 | after k bytes the column is 1 plus the number of bytes since the last newline (all k if there was none) |
| Input.ColonIndex | part3/3_5/compilers/Interpreter/sources/InputBuffer.cs:137-140 | the index of the first ':' in a string, or its length when there is none |
| Input.PositionRoundTrip | part3/3_5/compilers/Interpreter/sources/InputBuffer.cs:137-140 | a position renders as "line:column", and that text parses back to the same position |
| Input.InputBuffer.constructor | part3/3_5/compilers/Interpreter/sources/InputBuffer.cs:38-45 | the window holds the first bufferSize bytes of the stream, -1 for missing ones, and the position is 1:1 |
| Input.InputBuffer.ReadByte | part3/3_5/compilers/Interpreter/sources/InputBuffer.cs:76 | stream.ReadByte: the next byte of the stream, or -1 once it is exhausted |
| Input.InputBuffer.HasCharacter | part3/3_5/compilers/Interpreter/sources/InputBuffer.cs:51-54 | true exactly when slot 0 still holds a byte of the stream |
| Input.InputBuffer.HasNextCharacter | part3/3_5/compilers/Interpreter/sources/InputBuffer.cs:60-63 | true exactly when slot 1 still holds a byte of the stream |
| Input.InputBuffer.Next | part3/3_5/compilers/Interpreter/sources/InputBuffer.cs:71-85 | shifts every slot one place left and reads one byte into the last slot; the column goes up by 1, or the line goes up and the column resets to 1 after a newline; returns HasCharacter; past the end the column keeps growing |
| Input.InputBuffer.ShiftLeft | part3/3_5/compilers/Interpreter/sources/InputBuffer.cs:74-75 | the in-place shift: slot j takes the old slot j+1, and the last slot is untouched |
| Input.InputBuffer.PeekCharacter | part3/3_5/compilers/Interpreter/sources/InputBuffer.cs:93-98 | fails with IndexOutOfRange exactly for an index outside the window, and fails on the -1 sentinel; otherwise returns that byte of the stream as a char |
| Input.InputBuffer.PeekNext | part3/3_5/compilers/Interpreter/sources/InputBuffer.cs:103-106 | PeekCharacter(1): fails for a window of one slot, otherwise returns the byte after the current one when there is one |
| Input.InputBuffer.GetPosition | part3/3_5/compilers/Interpreter/sources/InputBuffer.cs:111-114 | the position (a value, so later Next calls cannot change it) of the character under the window |
| StringIOs.StringIO.constructor | part3/3_5/compilers/Interpreter/sources/IO.cs:51-52 | a new StringIO has the given input, empty output and the cursor at 0 |
| StringIOs.StringIO.Write | part3/3_5/compilers/Interpreter/sources/IO.cs:54-57 | appends the string to the output and changes nothing else |
| StringIOs.StringIO.WriteLine | part3/3_5/compilers/Interpreter/sources/IO.cs:13-17 | Write(s) followed by Write("\n") |
| StringIOs.StringIO.Read | part3/3_5/compilers/Interpreter/sources/IO.cs:59-65 | returns the next input character, advances and echoes it to the output; at the end returns -1 and changes nothing |
| Strings.NatToString | part3/3_5/compilers/Interpreter/sources/Interpreter.cs:109 | decimal digits without a leading zero |
| Strings.NatToStringValue | part3/3_5/compilers/Interpreter/sources/Interpreter.cs:109 | the digits denote the number they render |
| Strings.ParseInt32 | part3/3_5/compilers/Interpreter/sources/ASTNode.cs:88-92 | int.Parse on a token without white space, trailing '\0' characters ignored: a format failure exactly when there are no digits after the optional sign or a non-digit among them; the value of a digit run otherwise |
| Strings.TrimNuls | part3/3_5/compilers/Interpreter/sources/ASTNode.cs:91 | the longest prefix of the token not ending in '\0'; everything cut off is '\0' |
| Strings.NulSuffixIgnored | part3/3_5/compilers/Interpreter/sources/ASTNode.cs:91 | appending '\0' to a token never changes what int.Parse makes of it |
| Strings.ParseDigits | part3/3_5/compilers/Interpreter/sources/ASTNode.cs:88-92 | the text after an optional sign is a suffix of the token |
| Strings.IntToStringRoundTrip | part3/3_5/compilers/Interpreter/sources/Interpreter.cs:109 | int.Parse(v.ToString()) == v for every int |
| Strings.DigitRunParses | part3/3_5/compilers/Interpreter/sources/Lexer.cs:139-146 | a non-empty digit run parses exactly when its value is at most int.MaxValue, and otherwise overflows |
| Int32.Wrap | part3/3_5/compilers/Interpreter/sources/Interpreter.cs:56-61 | the 32-bit result of unchecked + - *: exact in range, always congruent modulo 2^32 |
| Int32.DivBound | part3/3_5/compilers/Interpreter/sources/Interpreter.cs:62-63 | truncated division of two ints, other than int.MinValue / -1, stays in range |
| Int32.DivTruncates | part3/3_5/compilers/Interpreter/sources/Interpreter.cs:62-63 | the remainder left by Div is smaller than the divisor and has the sign of the dividend (C# truncating division) |
| LexSpec.DigitRunEnd | part3/3_5/compilers/Interpreter/sources/Lexer.cs:132-138 | the end of the maximal run of digits from i |
| LexSpec.WordEnd | part3/3_5/compilers/Interpreter/sources/Lexer.cs:292-309 | the end of the maximal run of letters, digits and '_' from i |
| LexSpec.LineEnd | part3/3_5/compilers/Interpreter/sources/Lexer.cs:452-456 | the first '\n' at or after i, or the end of input |
| LexSpec.MatchFromSpec | part3/3_5/compilers/Interpreter/sources/Lexer.cs:101-117 | ExpectToken succeeds exactly when the token is spelled out at the window and then consumes it; otherwise it stops at the first mismatch or at the end of input |
| LexSpec.ScanNumberSpec | part3/3_5/compilers/Interpreter/sources/Lexer.cs:126-151 | a number lexeme is the maximal digit run, positioned at its first digit; a run above int.MaxValue fails with "too high constant value", an empty one with "number expected" |
| LexSpec.ScanComment | part3/3_5/compilers/Interpreter/sources/Lexer.cs:160-177 | a line comment consumes "//" and more, and gives a COMMENT lexeme |
| LexSpec.StringBody | part3/3_5/compilers/Interpreter/sources/Lexer.cs:196-226 | a closed string body gives a STRING lexeme at the opening quote and consumes the closing quote |
| LexSpec.ScanString | part3/3_5/compilers/Interpreter/sources/Lexer.cs:186-228 | a string literal consumes both quotes and is positioned at the opening one |
| LexSpec.StringBodyDecodes | part3/3_5/compilers/Interpreter/sources/Lexer.cs:196-226 | for any text without a backslash, its escaped spelling (\n, \t, \") followed by '"' lexes back to that text, without the quotes |
| LexSpec.BlockBody | part3/3_5/compilers/Interpreter/sources/Lexer.cs:248-281 | a closed block comment consumes its "*/" and gives a BLOCKCOMMENT lexeme |
| LexSpec.ScanBlockComment | part3/3_5/compilers/Interpreter/sources/Lexer.cs:239-283 | a block comment consumes at least "/*" and "*/" |
| LexSpec.BlockBodyPlain | part3/3_5/compilers/Interpreter/sources/Lexer.cs:248-281 | text with no delimiter is copied into the comment unchanged |
| LexSpec.BlockOpenStep | part3/3_5/compilers/Interpreter/sources/Lexer.cs:255-262 | an inner "/*" is kept in the text and raises the depth |
| LexSpec.BlockCloseStep | part3/3_5/compilers/Interpreter/sources/Lexer.cs:263-272 | an inner "*/" at depth > 0 is kept in the text and lowers the depth |
| LexSpec.BlockOpens | part3/3_5/compilers/Interpreter/sources/Lexer.cs:255-262 | "/*" in a comment raises the depth and stays in its text |
| LexSpec.BlockCloses | part3/3_5/compilers/Interpreter/sources/Lexer.cs:263-272 | "*/" ends the comment at depth 0, and otherwise lowers the depth and stays in its text |
| LexSpec.NestedBlockComment | part3/3_5/compilers/Interpreter/sources/Lexer.cs:239-283 | a comment a/*b*/c*/ closes only at the outer "*/", and its text keeps the inner delimiters |
| LexSpec.ScanWord | part3/3_5/compilers/Interpreter/sources/Lexer.cs:292-309 | a word starts with a letter and runs maximally over letters, digits and '_'; it is a KEYWORD exactly when it is one of the 11 keywords, and an IDENTIFIER otherwise |
| LexSpec.LexStep | part3/3_5/compilers/Interpreter/sources/Lexer.cs:327-340 | one pass of LexNext's dispatch: "//" and "/*" are tried before the operator '/'; every emitted lexeme sits at its first character, is spelled by the characters it consumed (strings aside), is never a comment, and a number is in range |
| LexSpec.SymbolStep | part3/3_5/compilers/Interpreter/sources/Lexer.cs:341-396 | ":=" and ".." are single separators, "( ) : ;" separators, "< = ! & + - / *" operators; white space emits nothing; any other character is consumed and fails as unrecognized |
| LexSpec.LexRun | part3/3_5/compilers/Interpreter/sources/Lexer.cs:316-409 | LexNext: skips comments and white space, reports each error and skips to the end of its line; produces nothing only at the end of input |
| LexSpec.LexAllRunSplit | part3/3_5/compilers/Interpreter/sources/Lexer.cs:415-422 | lexing everything is one LexNext followed by lexing the rest |
| LexSpec.LexNextKeepsRun | part3/3_5/compilers/Interpreter/sources/Lexer.cs:398-407 | after one LexNext, the lexemes queued plus those still to come, the sticky error flag and the diagnostics written plus those to come are unchanged |
| LexSpec.DiagnosticsAppend | part3/3_5/compilers/Interpreter/sources/Lexer.cs:398-407 | the diagnostics of two runs of errors are written one after the other |
| LexSpec.LexedAreQueueable | part3/3_5/compilers/Interpreter/sources/Lexer.cs:316-409 | every lexeme lexing produces is a keyword, identifier, separator, operator, in-range number or string |
| LexSpec.LexRunEmits | part3/3_5/compilers/Interpreter/sources/Lexer.cs:316-409 | the lexeme one LexNext produces is of a queueable kind |
| Lexing.Lexer.constructor | part3/3_5/compilers/Interpreter/sources/Lexer.cs:72-76 | a lexer over the buffer and IO with an empty queue and no error |
| Lexing.Lexer.ExpectToken | part3/3_5/compilers/Interpreter/sources/Lexer.cs:101-117 | returns and consumes what MatchToken describes; "" matches without consuming |
| Lexing.Lexer.ExpectNumber | part3/3_5/compilers/Interpreter/sources/Lexer.cs:126-151 | returns the lexeme or error ScanNumber gives and leaves the window after the digit run |
| Lexing.Lexer.ExpectComment | part3/3_5/compilers/Interpreter/sources/Lexer.cs:160-177 | agrees with ScanComment on result and window |
| Lexing.Lexer.ExpectString | part3/3_5/compilers/Interpreter/sources/Lexer.cs:186-228 | agrees with ScanString on result and window |
| Lexing.Lexer.StringBodyLoop | part3/3_5/compilers/Interpreter/sources/Lexer.cs:196-226 | the decoding loop agrees with StringBody |
| Lexing.Lexer.ExpectBlockComment | part3/3_5/compilers/Interpreter/sources/Lexer.cs:239-283 | agrees with ScanBlockComment on result and window |
| Lexing.Lexer.BlockBodyLoop | part3/3_5/compilers/Interpreter/sources/Lexer.cs:248-281 | the nesting loop agrees with BlockBody from depth 0 |
| Lexing.Lexer.BlockBodyStep | part3/3_5/compilers/Interpreter/sources/Lexer.cs:250-279 | one round of the nesting loop advances and either closes the comment or leaves a state from which BlockBody gives the same result |
| Lexing.Lexer.ExpectIdentifierOrKeyword | part3/3_5/compilers/Interpreter/sources/Lexer.cs:292-309 | agrees with ScanWord on result and window |
| Lexing.Lexer.LexToken | part3/3_5/compilers/Interpreter/sources/Lexer.cs:327-340 | one pass of the dispatch agrees with LexStep |
| Lexing.Lexer.LexSymbol | part3/3_5/compilers/Interpreter/sources/Lexer.cs:341-396 | the symbol, number, string and white-space branches agree with SymbolStep |
| Lexing.Lexer.LexNext | part3/3_5/compilers/Interpreter/sources/Lexer.cs:316-409 | appends LexRun's lexeme, if any, to the queue; sets errored if an error was reported and never clears it; writes one diagnostic per error; returns whether a lexeme was produced |
| Lexing.Lexer.Report | part3/3_5/compilers/Interpreter/sources/Lexer.cs:398-407 | sets errored and writes the error's diagnostic line |
| Lexing.Lexer.LexAll | part3/3_5/compilers/Interpreter/sources/Lexer.cs:415-422 | drains the input: the queue gains every lexeme LexAllRun gives, and the errors are reported in order |
| Lexing.Lexer.Refill | part3/3_5/compilers/Interpreter/sources/Lexer.cs:442 | one LexNext on an empty queue either queues one lexeme or reaches the end, and keeps the lexemes still to come unchanged |
| Lexing.Lexer.HasNext | part3/3_5/compilers/Interpreter/sources/Lexer.cs:428-431 | true when the queue is not empty, whose head is then the next lexeme to come |
| Lexing.Lexer.NextLexeme | part3/3_5/compilers/Interpreter/sources/Lexer.cs:440-447 | pops the lexemes in FIFO order, lexing more only when the queue is empty, and returns null when no lexeme is left |
| Lexing.Lexer.SkipToNextLine | part3/3_5/compilers/Interpreter/sources/Lexer.cs:452-456 | consumes up to, not including, the next '\n' |
| ParseSpec.ParseDiagnosticsAppend | part3/3_5/compilers/Interpreter/sources/Parser.cs:369-377 | the diagnostics of two runs of parse errors are written one after the other |
| ParseSpec.ConsumeType | part3/3_5/compilers/Interpreter/sources/Parser.cs:43-50 | succeeds exactly when the current lexeme exists and has type t; then returns it and advances one lexeme; otherwise throws at it and does not advance |
| ParseSpec.ConsumeToken | part3/3_5/compilers/Interpreter/sources/Parser.cs:58-65 | the same, also requiring the token text s |
| ParseSpec.Num | part3/3_5/compilers/Interpreter/sources/Parser.cs:97-103 | a NUMBER lexeme becomes a NumberNode holding the decimal parse of its text |
| ParseSpec.Str | part3/3_5/compilers/Interpreter/sources/Parser.cs:105-111 | a STRING lexeme becomes a StringNode of its text |
| ParseSpec.Ident | part3/3_5/compilers/Interpreter/sources/Parser.cs:113-119 | an IDENTIFIER lexeme becomes an IdentifierNode of its name |
| ParseSpec.TypeName | part3/3_5/compilers/Interpreter/sources/Parser.cs:121-127 | any KEYWORD becomes a TypeNameNode; whether it names a type is left to the visitors |
| ParseSpec.Unary | part3/3_5/compilers/Interpreter/sources/Parser.cs:129-136 | a unary operator applied to one operand |
| ParseSpec.Binop | part3/3_5/compilers/Interpreter/sources/Parser.cs:138-145 | a binary operator whose right side is one operand |
| ParseSpec.Opnd | part3/3_5/compilers/Interpreter/sources/Parser.cs:147-168 | an operand is a parenthesised expression, a number, a string or an identifier, and nothing else |
| ParseSpec.ExprTail | part3/3_5/compilers/Interpreter/sources/Parser.cs:170-175 | no binary operator, without consuming, exactly when the current lexeme is not an OPERATOR |
| ParseSpec.Expr | part3/3_5/compilers/Interpreter/sources/Parser.cs:177-186 | an expression is a unary operation, or an operand with at most one binary operator |
| ParseSpec.PrintStmt | part3/3_5/compilers/Interpreter/sources/Parser.cs:188-194 | "print" EXPR gives a print statement |
| ParseSpec.AssertStmt | part3/3_5/compilers/Interpreter/sources/Parser.cs:196-204 | "assert" "(" EXPR ")" gives an assert statement |
| ParseSpec.VarTail | part3/3_5/compilers/Interpreter/sources/Parser.cs:206-214 | a declaration has an initializer exactly when ":=" follows the type |
| ParseSpec.VarStmt | part3/3_5/compilers/Interpreter/sources/Parser.cs:216-225 | "var" IDENT ":" TYPE [":=" EXPR] gives a declaration |
| ParseSpec.AssignStmt | part3/3_5/compilers/Interpreter/sources/Parser.cs:227-234 | IDENT ":=" EXPR gives an assignment |
| ParseSpec.ReadStmt | part3/3_5/compilers/Interpreter/sources/Parser.cs:236-242 | "read" IDENT gives a read statement |
| ParseSpec.SkipPast | part3/3_5/compilers/Interpreter/sources/Parser.cs:382-387 | the position just past the first ";" separator at or after j, or the end |
| ParseSpec.LoopRange | part3/3_5/compilers/Interpreter/sources/Parser.cs:248-252 | "in" EXPR ".." EXPR gives both bounds |
| ParseSpec.LoopBody | part3/3_5/compilers/Interpreter/sources/Parser.cs:253-258 | "do" STMTS "end" "for"; a body with no statements fails with "no statements in for loop" |
| ParseSpec.LoopHead | part3/3_5/compilers/Interpreter/sources/Parser.cs:246-247 | "for" IDENT gives the control identifier |
| ParseSpec.ForLoop | part3/3_5/compilers/Interpreter/sources/Parser.cs:244-260 | a for statement of a control identifier, two bounds and a statement list |
| ParseSpec.SimpleStmt | part3/3_5/compilers/Interpreter/sources/Parser.cs:262-283 | the read, assert, print, var and assignment branches of STMT |
| ParseSpec.Stmt | part3/3_5/compilers/Interpreter/sources/Parser.cs:262-283 | returns null without consuming exactly when the current lexeme is neither a read, assert, print, var or for keyword nor an identifier |
| ParseSpec.StmtsTail | part3/3_5/compilers/Interpreter/sources/Parser.cs:285-294 | each parsed statement is followed by a consumed ";", and the statements form a right-nested list in source order |
| ParseSpec.Stmts | part3/3_5/compilers/Interpreter/sources/Parser.cs:296-313 | never throws: an error is reported, lexemes are skipped through the next ";" and parsing goes on; the result is a statement list or null |
| ParseSpec.Prog | part3/3_5/compilers/Interpreter/sources/Parser.cs:318-325 | succeeds exactly when the statements parse to a list that uses up every lexeme; otherwise fails with "statement expected" |
| ParseSpec.Program | part3/3_5/compilers/Interpreter/sources/Parser.cs:350-361 | Parse: a program reporting no error is a statement list that uses up every lexeme |
| ParseSpec.EmptyProgram | part3/3_5/compilers/Interpreter/sources/Parser.cs:318-325 | an empty program reports "statement expected" at end of file and gives no tree |
| Parsing.Parser.constructor | part3/3_5/compilers/Interpreter/sources/Parser.cs:24-28 | a parser over the lexer's remaining lexemes with no error and nothing current yet |
| Parsing.Parser.NextLexeme | part3/3_5/compilers/Interpreter/sources/Parser.cs:33-36 | makes the lexer's next lexeme current and moves one lexeme on, or stays at the end |
| Parsing.Parser.ConsumeType | part3/3_5/compilers/Interpreter/sources/Parser.cs:43-50 | agrees with ParseSpec.ConsumeType on result and cursor |
| Parsing.Parser.ConsumeToken | part3/3_5/compilers/Interpreter/sources/Parser.cs:58-65 | agrees with ParseSpec.ConsumeToken on result and cursor |
| Parsing.Parser.LexemeContains | part3/3_5/compilers/Interpreter/sources/Parser.cs:72-75 | true exactly when the current lexeme exists and has type t |
| Parsing.Parser.LexemeHasToken | part3/3_5/compilers/Interpreter/sources/Parser.cs:77-80 | true exactly when the current lexeme exists and has text s |
| Parsing.Parser.LexemeContainsToken | part3/3_5/compilers/Interpreter/sources/Parser.cs:82-85 | true exactly when the current lexeme has both text s and type t |
| Parsing.Parser.NUM | part3/3_5/compilers/Interpreter/sources/Parser.cs:97-103 | agrees with ParseSpec.Num |
| Parsing.Parser.STR | part3/3_5/compilers/Interpreter/sources/Parser.cs:105-111 | agrees with ParseSpec.Str |
| Parsing.Parser.IDENT | part3/3_5/compilers/Interpreter/sources/Parser.cs:113-119 | agrees with ParseSpec.Ident |
| Parsing.Parser.TYPE | part3/3_5/compilers/Interpreter/sources/Parser.cs:121-127 | agrees with ParseSpec.TypeName |
| Parsing.Parser.UNARY | part3/3_5/compilers/Interpreter/sources/Parser.cs:129-136 | agrees with ParseSpec.Unary |
| Parsing.Parser.BINOP | part3/3_5/compilers/Interpreter/sources/Parser.cs:138-145 | agrees with ParseSpec.Binop |
| Parsing.Parser.OPND | part3/3_5/compilers/Interpreter/sources/Parser.cs:147-168 | agrees with ParseSpec.Opnd |
| Parsing.Parser.EXPRTAIL | part3/3_5/compilers/Interpreter/sources/Parser.cs:170-175 | agrees with ParseSpec.ExprTail |
| Parsing.Parser.EXPR | part3/3_5/compilers/Interpreter/sources/Parser.cs:177-186 | agrees with ParseSpec.Expr |
| Parsing.Parser.PRINT | part3/3_5/compilers/Interpreter/sources/Parser.cs:188-194 | agrees with ParseSpec.PrintStmt |
| Parsing.Parser.ASSERT | part3/3_5/compilers/Interpreter/sources/Parser.cs:196-204 | agrees with ParseSpec.AssertStmt |
| Parsing.Parser.VARTAIL | part3/3_5/compilers/Interpreter/sources/Parser.cs:206-214 | agrees with ParseSpec.VarTail |
| Parsing.Parser.VAR | part3/3_5/compilers/Interpreter/sources/Parser.cs:216-225 | agrees with ParseSpec.VarStmt |
| Parsing.Parser.ASSIGN | part3/3_5/compilers/Interpreter/sources/Parser.cs:227-234 | agrees with ParseSpec.AssignStmt |
| Parsing.Parser.READ | part3/3_5/compilers/Interpreter/sources/Parser.cs:236-242 | agrees with ParseSpec.ReadStmt |
| Parsing.Parser.ParseLoopRange | part3/3_5/compilers/Interpreter/sources/Parser.cs:248-252 | agrees with ParseSpec.LoopRange |
| Parsing.Parser.ParseLoopBody | part3/3_5/compilers/Interpreter/sources/Parser.cs:253-258 | agrees with ParseSpec.LoopBody, including the errors its statements report |
| Parsing.Parser.ParseLoopHead | part3/3_5/compilers/Interpreter/sources/Parser.cs:246-247 | agrees with ParseSpec.LoopHead |
| Parsing.Parser.FORLOOP | part3/3_5/compilers/Interpreter/sources/Parser.cs:244-260 | agrees with ParseSpec.ForLoop, including reported errors |
| Parsing.Parser.ParseSimpleStatement | part3/3_5/compilers/Interpreter/sources/Parser.cs:264-281 | agrees with ParseSpec.SimpleStmt |
| Parsing.Parser.STMT | part3/3_5/compilers/Interpreter/sources/Parser.cs:262-283 | agrees with ParseSpec.Stmt, including reported errors |
| Parsing.Parser.STMTSTAIL | part3/3_5/compilers/Interpreter/sources/Parser.cs:285-294 | agrees with ParseSpec.StmtsTail, including reported errors |
| Parsing.Parser.STMTS | part3/3_5/compilers/Interpreter/sources/Parser.cs:296-313 | agrees with ParseSpec.Stmts; the output holds one diagnostic per reported error and errored is set once any was reported |
| Parsing.Parser.ERRORTAIL | part3/3_5/compilers/Interpreter/sources/Parser.cs:332-343 | resumes with STMTSTAIL and its own recovery, which is ParseSpec.Stmts again |
| Parsing.Parser.PROG | part3/3_5/compilers/Interpreter/sources/Parser.cs:318-325 | agrees with ParseSpec.Prog |
| Parsing.Parser.Parse | part3/3_5/compilers/Interpreter/sources/Parser.cs:350-361 | agrees with ParseSpec.Program: after a PROG error, reports it, skips through the next ";" and returns what ERRORTAIL builds |
| Parsing.Parser.Error | part3/3_5/compilers/Interpreter/sources/Parser.cs:369-377 | sets errored, writes the diagnostic naming the lexeme or end of file, and skips through the next ";" |
| Parsing.Parser.SkipToNextStatement | part3/3_5/compilers/Interpreter/sources/Parser.cs:382-387 | moves the cursor just past the next ";" separator, or to the end |
| Ast.Kind | part3/3_5/compilers/Interpreter/sources/ASTNode.cs:9-27 | each of the 15 node classes carries its own tag, each tag belongs to exactly one class, and no node carries VARIABLE |
| Ast.ValueOf | part3/3_5/compilers/Interpreter/sources/ASTNode.cs:47-57 | Value() of a number, string or boolean node is its stored int, string or bool |
| Ast.ValueNodeTags | part3/3_5/compilers/Interpreter/sources/ASTNode.cs:86-152 | exactly the NUMBER, STRING and BOOLEAN nodes are value nodes |
| Ast.NumberFromText | part3/3_5/compilers/Interpreter/sources/ASTNode.cs:100-105 | a NumberNode built from a digit text holds the decimal value of that text |
| Visiting.Blame | part3/3_5/compilers/Interpreter/sources/Visitor.cs:46 | errorNode ?? node |
| Visiting.As | part3/3_5/compilers/Interpreter/sources/Visitor.cs:41-47 | succeeds exactly when the node is of the class, returning it; otherwise throws "expected type X, got Y" at errorNode or the node; a null node is a host null dereference |
| Visiting.Expect | part3/3_5/compilers/Interpreter/sources/Visitor.cs:55-61 | succeeds exactly when As does and fails as As fails |
| Visiting.ExpectNull | part3/3_5/compilers/Interpreter/sources/Visitor.cs:69-74 | succeeds exactly on null, otherwise throws "return value expected to be null, got X" |
| Visiting.ExpectNotNull | part3/3_5/compilers/Interpreter/sources/Visitor.cs:82-87 | returns a non-null node and throws on null |
| Visiting.VisitedNull | part3/3_5/compilers/Interpreter/sources/Visitor.cs:69-74 | ExpectNull(Visit(x)) succeeds exactly when the visit returned null |
| Visiting.VisitedAs | part3/3_5/compilers/Interpreter/sources/Visitor.cs:41-47 | As(Visit(x)) succeeds exactly on a visited node of the class; a throw from the visit passes through |
| Visiting.VisitedNotNull | part3/3_5/compilers/Interpreter/sources/Visitor.cs:82-87 | ExpectNotNull(Visit(x)) returns the visited node when there is one |
| Visiting.GetVariable | part3/3_5/compilers/Interpreter/sources/Visitor.cs:106-111 | returns the binding exactly when the name is bound, and otherwise throws "using undefined identifier {name}" |
| Visiting.ExpectMutable | part3/3_5/compilers/Interpreter/sources/Visitor.cs:119-125 | behaves as GetVariable, and also throws "trying to change immutable variable {name}" when the binding is immutable |
| Visiting.TypeOfName | part3/3_5/compilers/Interpreter/sources/Interpreter.cs:192-205 | exactly int, string and bool name types: number, string and boolean |
| Visiting.Zero | part3/3_5/compilers/Interpreter/sources/Interpreter.cs:214-225 | the default value of a type is a value node of that type |
| Visiting.Assignable | part3/3_5/compilers/Interpreter/sources/Interpreter.cs:231-233 | a value is accepted exactly when it is a non-null value node of the variable's type, and null fails with "does not match value type null" |
| Visiting.BinaryResultKind | part3/3_5/compilers/Interpreter/sources/Analysis.cs:42-80 | numbers admit + - * / (number) and = < (boolean); strings admit + (string) and = < (boolean); booleans admit & = < (boolean); nothing else, and never mixed kinds |
| Visiting.Reports | part3/3_5/compilers/Interpreter/sources/Visitor.cs:132-164 | nothing is written when there is no error |
| Visiting.ReportsAppend | part3/3_5/compilers/Interpreter/sources/Visitor.cs:132-164 | each reported error appends its header line and its message line |
| Visiting.RebindEvolves | part3/3_5/compilers/Interpreter/sources/Interpreter.cs:279-282 | rebinding a mutable name to a value of the same kind keeps every name bound with its kind and every immutable binding intact |
| Visiting.WriteReport | part3/3_5/compilers/Interpreter/sources/Visitor.cs:132-164 | PrintError writes the header (visitor name, position and lexeme or "<runtime generated code>", node kind) and then the message |
| AnalysisSpec.CheckIdentifier | part3/3_5/compilers/Interpreter/sources/Analysis.cs:143-147 | an identifier checks to its bound value, and fails exactly when unbound |
| AnalysisSpec.CheckUnary | part3/3_5/compilers/Interpreter/sources/Analysis.cs:19-33 | only "!" on a boolean passes, and it gives the placeholder false |
| AnalysisSpec.BinaryPlaceholder | part3/3_5/compilers/Interpreter/sources/Analysis.cs:42-80 | an admitted operator gives the placeholder 0, "" or false of its result kind; anything else fails with the operator-and-kinds message |
| AnalysisSpec.CheckExpression | part3/3_5/compilers/Interpreter/sources/Analysis.cs:34-81 | a binary expression that passes gives a placeholder, never a computed value |
| AnalysisSpec.CheckPrint | part3/3_5/compilers/Interpreter/sources/Analysis.cs:82-87 | a print passes exactly when its value checks to a value node, and writes nothing |
| AnalysisSpec.Caught | part3/3_5/compilers/Interpreter/sources/Analysis.cs:97-100 | a caught error is added to the report log and the table is untouched |
| AnalysisSpec.CheckStatements | part3/3_5/compilers/Interpreter/sources/Analysis.cs:88-117 | a statement list never throws: each statement's error is reported and checking goes on |
| AnalysisSpec.CheckAssert | part3/3_5/compilers/Interpreter/sources/Analysis.cs:118-123 | an assert passes exactly when its condition checks to a boolean |
| AnalysisSpec.CheckRead | part3/3_5/compilers/Interpreter/sources/Analysis.cs:124-142 | a read passes exactly on a bound, mutable number or string, which it rebinds to its placeholder; otherwise the state is unchanged |
| AnalysisSpec.CheckDeclaration | part3/3_5/compilers/Interpreter/sources/Analysis.cs:148-200 | a declaration passes only for an unbound name and a type int, string or bool; it binds a mutable value of that type, the zero value when there is no initializer |
| AnalysisSpec.CheckAssignment | part3/3_5/compilers/Interpreter/sources/Analysis.cs:217-227 | an assignment passes only for a bound, mutable name, and keeps its kind and mutability |
| AnalysisSpec.Analyse | part3/3_5/compilers/Interpreter/sources/Visitor.cs:171-181 | a finished analysis returns null |
| AnalysisSpec.ExpressionsArePure | part3/3_5/compilers/Interpreter/sources/Analysis.cs:19-81 | checking an expression changes neither the table nor the log, never crashes, and gives a value node when it passes |
| AnalysisSpec.StatementsKeep | part3/3_5/compilers/Interpreter/sources/Analysis.cs:88-227 | a statement never crashes; it keeps every name bound with its kind, leaves immutable bindings alone and only adds to the log; a list always passes |
| AnalysisSpec.ListKeeps | part3/3_5/compilers/Interpreter/sources/Analysis.cs:88-117 | a statement list keeps the table invariant and always returns null |
| AnalysisSpec.ReadKeeps | part3/3_5/compilers/Interpreter/sources/Analysis.cs:124-142 | a read keeps the table invariant |
| AnalysisSpec.DeclarationKeeps | part3/3_5/compilers/Interpreter/sources/Analysis.cs:148-200 | a declaration keeps the table invariant |
| AnalysisSpec.AssignmentKeeps | part3/3_5/compilers/Interpreter/sources/Analysis.cs:217-227 | an assignment keeps the table invariant |
| AnalysisSpec.ForLoopRestores | part3/3_5/compilers/Interpreter/sources/Analysis.cs:201-216 | a for loop passes exactly when the control is a bound, mutable number and both bounds are numbers; the body's own errors never stop it, and afterwards the control binding is restored exactly |
| AnalysisSpec.StatementErrorReported | part3/3_5/compilers/Interpreter/sources/Analysis.cs:93-115 | a statement's error is logged, and the rest of the list is still checked from the state after it |
| AnalysisSpec.ParsedProgramsComplete | part3/3_5/compilers/Interpreter/sources/Analysis.cs:88-117 | analysis of any tree the parser builds finishes without a crash and without an uncaught error |
| Analyses.Analysis.constructor | part3/3_5/compilers/Interpreter/sources/Analysis.cs:13 | the "Semantic analysis" visitor with an empty table and no error |
| Analyses.Analysis.PrintError | part3/3_5/compilers/Interpreter/sources/Visitor.cs:132-164 | logs the error, sets errored and writes its report |
| Analyses.Analysis.VisitNode | part3/3_5/compilers/Interpreter/sources/Visitor.cs:28-33 | Visit(node) agrees with AnalysisSpec.Check on result, table and reports |
| Analyses.Analysis.VisitIdentifier | part3/3_5/compilers/Interpreter/sources/Analysis.cs:143-147 | agrees with CheckIdentifier |
| Analyses.Analysis.VisitUnary | part3/3_5/compilers/Interpreter/sources/Analysis.cs:19-33 | agrees with CheckUnary |
| Analyses.Analysis.VisitExpression | part3/3_5/compilers/Interpreter/sources/Analysis.cs:34-81 | agrees with CheckExpression |
| Analyses.Analysis.VisitPrint | part3/3_5/compilers/Interpreter/sources/Analysis.cs:82-87 | agrees with CheckPrint |
| Analyses.Analysis.VisitStatements | part3/3_5/compilers/Interpreter/sources/Analysis.cs:88-117 | agrees with CheckStatements, writing each caught error |
| Analyses.Analysis.VisitAssert | part3/3_5/compilers/Interpreter/sources/Analysis.cs:118-123 | agrees with CheckAssert |
| Analyses.Analysis.VisitRead | part3/3_5/compilers/Interpreter/sources/Analysis.cs:124-142 | agrees with CheckRead |
| Analyses.Analysis.VisitDeclaration | part3/3_5/compilers/Interpreter/sources/Analysis.cs:148-200 | agrees with CheckDeclaration |
| Analyses.Analysis.VisitForLoop | part3/3_5/compilers/Interpreter/sources/Analysis.cs:201-216 | agrees with CheckForLoop, flipping the control's flag in place around the body |
| Analyses.Analysis.VisitAssignment | part3/3_5/compilers/Interpreter/sources/Analysis.cs:217-227 | agrees with CheckAssignment |
| Analyses.Analysis.Visit | part3/3_5/compilers/Interpreter/sources/Visitor.cs:171-181 | the final table and reports are those of Analyse, and a host exception escapes |
| InterpreterSpec.ReadToken | part3/3_5/compilers/Interpreter/sources/Interpreter.cs:291-301 | ReadInput's token lies inside the input |
| InterpreterSpec.ReadTokenMaximal | part3/3_5/compilers/Interpreter/sources/Interpreter.cs:291-301 | the token is the maximal run without white space, and exactly one terminating character is consumed when there is one |
| InterpreterSpec.ReadNumber | part3/3_5/compilers/Interpreter/sources/Interpreter.cs:152-168 | the retry loop of a number read stays inside the input and never throws a visitor exception |
| InterpreterSpec.ReadNumberRound | part3/3_5/compilers/Interpreter/sources/Interpreter.cs:153-167 | one attempt: a token that parses is the value, an overflowing one escapes, a malformed one is skipped, and an empty one at the end of input retries forever |
| InterpreterSpec.ReadNumberSkips | part3/3_5/compilers/Interpreter/sources/Interpreter.cs:153-167 | a number read gives the first token that parses, after skipping only malformed tokens; it diverges only when every token up to the end is malformed |
| InterpreterSpec.Apply | part3/3_5/compilers/Interpreter/sources/Interpreter.cs:50-103 | an operator applies exactly when the analysis admits it, giving a value of the admitted kind; otherwise it throws the operator-and-kinds error; it crashes exactly on a division that C# refuses |
| InterpreterSpec.AssertFailure | part3/3_5/compilers/Interpreter/sources/Interpreter.cs:124-141 | a false assert always fails, at the assert node, naming the rendered condition unless the printer failed |
| InterpreterSpec.Exec | part3/3_5/compilers/Interpreter/sources/Visitor.cs:28-33 | Visit(node): the input cursor only moves forward and the output only grows |
| InterpreterSpec.ExecUnary | part3/3_5/compilers/Interpreter/sources/Interpreter.cs:23-38 | the unary handler only moves the cursor forward and only adds to the output |
| InterpreterSpec.ExecExpression | part3/3_5/compilers/Interpreter/sources/Interpreter.cs:39-104 | the expression handler only moves the cursor forward and only adds to the output |
| InterpreterSpec.ExecPrint | part3/3_5/compilers/Interpreter/sources/Interpreter.cs:105-111 | the print handler only adds to the output |
| InterpreterSpec.ExecStatements | part3/3_5/compilers/Interpreter/sources/Interpreter.cs:112-119 | the statements handler only moves the cursor forward and only adds to the output |
| InterpreterSpec.ExecAssert | part3/3_5/compilers/Interpreter/sources/Interpreter.cs:120-143 | the assert handler only moves the cursor forward and only adds to the output |
| InterpreterSpec.ExecRead | part3/3_5/compilers/Interpreter/sources/Interpreter.cs:144-177 | a read consumes input only forward and echoes it |
| InterpreterSpec.ExecDeclaration | part3/3_5/compilers/Interpreter/sources/Interpreter.cs:183-236 | the declaration handler only moves the cursor forward and only adds to the output |
| InterpreterSpec.ExecForLoop | part3/3_5/compilers/Interpreter/sources/Interpreter.cs:237-270 | the for handler only moves the cursor forward and only adds to the output; its loop follows the counter's wrap at int.MaxValue |
| InterpreterSpec.Iterate | part3/3_5/compilers/Interpreter/sources/Interpreter.cs:254-265 | the loop from i on only moves the cursor forward and only adds to the output; after the pass at int.MaxValue `++i` goes on at int.MinValue |
| InterpreterSpec.IterateNeverEnds | part3/3_5/compilers/Interpreter/sources/Interpreter.cs:255 | a loop whose end is int.MaxValue never finishes normally: it ends only through a pass that fails |
| InterpreterSpec.ExecAssignment | part3/3_5/compilers/Interpreter/sources/Interpreter.cs:271-284 | the assignment handler only moves the cursor forward and only adds to the output |
| InterpreterSpec.Interpret | part3/3_5/compilers/Interpreter/sources/Visitor.cs:171-181 | a run returns null, or ends with exactly one error report appended to what it wrote |
| InterpreterSpec.OrdinalLessIrreflexive | part3/3_5/compilers/Interpreter/sources/Interpreter.cs:83 | no string is less than itself |
| InterpreterSpec.OrdinalLessTransitive | part3/3_5/compilers/Interpreter/sources/Interpreter.cs:83 | the string order is transitive |
| InterpreterSpec.OrdinalLessTotal | part3/3_5/compilers/Interpreter/sources/Interpreter.cs:83 | of two different strings, one is less than the other |
| InterpreterSpec.EvaluationIsPure | part3/3_5/compilers/Interpreter/sources/Interpreter.cs:23-104 | evaluating an expression changes neither the table, the input nor the output, and gives a value node when it succeeds |
| InterpreterSpec.StatementsKeep | part3/3_5/compilers/Interpreter/sources/Interpreter.cs:105-284 | a statement keeps every name bound with the kind it was declared with, never touches an immutable binding, and returns null |
| InterpreterSpec.ListKeeps | part3/3_5/compilers/Interpreter/sources/Interpreter.cs:112-119 | a statement list keeps the table invariant |
| InterpreterSpec.ReadKeeps | part3/3_5/compilers/Interpreter/sources/Interpreter.cs:144-177 | a read rebinds a value of the same kind |
| InterpreterSpec.DeclarationKeeps | part3/3_5/compilers/Interpreter/sources/Interpreter.cs:183-236 | a declaration only adds a binding |
| InterpreterSpec.AssignmentKeeps | part3/3_5/compilers/Interpreter/sources/Interpreter.cs:271-284 | an assignment rebinds a value of the same kind |
| InterpreterSpec.Unlocked | part3/3_5/compilers/Interpreter/sources/Interpreter.cs:265 | the table with the control variable made mutable and nothing else changed |
| InterpreterSpec.ForLoopKeeps | part3/3_5/compilers/Interpreter/sources/Interpreter.cs:237-270 | a for loop rebinds its control only to numbers and keeps the table invariant |
| InterpreterSpec.IterateKeeps | part3/3_5/compilers/Interpreter/sources/Interpreter.cs:254-265 | every pass of the loop keeps the table invariant relative to the table with the control unlocked |
| InterpreterSpec.FinalBindKeeps | part3/3_5/compilers/Interpreter/sources/Interpreter.cs:265 | the final mutable rebinding of the control to a number keeps the invariant |
| InterpreterSpec.PassKeeps | part3/3_5/compilers/Interpreter/sources/Interpreter.cs:258-260 | a pass run with the control bound immutably keeps the invariant, both as it ends and once the control is unlocked again |
| InterpreterSpec.PassStepKeeps | part3/3_5/compilers/Interpreter/sources/Interpreter.cs:257-260 | a pass with the control bound immutably to Number(i) keeps the invariant and leaves the control a number |
| InterpreterSpec.IterateFinal | part3/3_5/compilers/Interpreter/sources/Interpreter.cs:263-265 | after a completed loop the control is a mutable Number(begin) if begin > end, and Number(end + 1) otherwise |
| InterpreterSpec.Statements | part3/3_5/compilers/Interpreter/sources/Interpreter.cs:112-119 | the statements of a list, first statement first |
| InterpreterSpec.RunInOrder | part3/3_5/compilers/Interpreter/sources/Interpreter.cs:112-119 | running statements one after another, up to the first that does not finish, stays inside the input |
| InterpreterSpec.StatementsRunInOrder | part3/3_5/compilers/Interpreter/sources/Interpreter.cs:112-119 | a statement list runs its statements in source order, and the first error stops everything after it |
| InterpreterSpec.PrintedNumberReadsBack | part3/3_5/compilers/Interpreter/sources/Interpreter.cs:105-111 | a number printed and then read back, followed by white space, is read as the same number |
| InterpreterSpec.NumberTextHasNoSpace | part3/3_5/compilers/Interpreter/sources/Interpreter.cs:109 | a printed number contains no white space |
| InterpreterSpec.PrintWritesValue | part3/3_5/compilers/Interpreter/sources/Interpreter.cs:105-111 | print appends exactly the text of its value (with no newline; True/False for booleans) and changes nothing else, or fails as its expression failed |
| InterpreterSpec.AssertNamesCondition | part3/3_5/compilers/Interpreter/sources/Interpreter.cs:120-143 | a false assert on a parsed condition fails with "assertion failed with condition {rendering}" |
| Interpreters.Interpreter.constructor | part3/3_5/compilers/Interpreter/sources/Interpreter.cs:17 | the "Interpreter" visitor with an empty table and no error |
| Interpreters.Interpreter.ReadInput | part3/3_5/compilers/Interpreter/sources/Interpreter.cs:291-301 | returns ReadToken's token, leaves the cursor after it and echoes what it read |
| Interpreters.Interpreter.ReadNumberInput | part3/3_5/compilers/Interpreter/sources/Interpreter.cs:153-167 | the retry loop agrees with ReadNumber and echoes everything it read |
| Interpreters.Interpreter.ReadRound | part3/3_5/compilers/Interpreter/sources/Interpreter.cs:156-166 | one attempt either settles the read as ReadNumber does, or skips a malformed token and leaves ReadNumber's result unchanged |
| Interpreters.Interpreter.VisitNode | part3/3_5/compilers/Interpreter/sources/Visitor.cs:28-33 | Visit(node) agrees with InterpreterSpec.Exec on result, table, cursor and output |
| Interpreters.Interpreter.VisitIdentifier | part3/3_5/compilers/Interpreter/sources/Interpreter.cs:178-182 | agrees with Exec on an identifier |
| Interpreters.Interpreter.VisitUnary | part3/3_5/compilers/Interpreter/sources/Interpreter.cs:23-38 | agrees with ExecUnary |
| Interpreters.Interpreter.VisitExpression | part3/3_5/compilers/Interpreter/sources/Interpreter.cs:39-104 | agrees with ExecExpression |
| Interpreters.Interpreter.VisitPrint | part3/3_5/compilers/Interpreter/sources/Interpreter.cs:105-111 | agrees with ExecPrint |
| Interpreters.Interpreter.VisitStatements | part3/3_5/compilers/Interpreter/sources/Interpreter.cs:112-119 | agrees with ExecStatements |
| Interpreters.Interpreter.VisitAssert | part3/3_5/compilers/Interpreter/sources/Interpreter.cs:120-143 | agrees with ExecAssert |
| Interpreters.Interpreter.VisitRead | part3/3_5/compilers/Interpreter/sources/Interpreter.cs:144-177 | agrees with ExecRead |
| Interpreters.Interpreter.VisitDeclaration | part3/3_5/compilers/Interpreter/sources/Interpreter.cs:183-236 | agrees with ExecDeclaration |
| Interpreters.Interpreter.VisitForLoop | part3/3_5/compilers/Interpreter/sources/Interpreter.cs:237-270 | agrees with ExecForLoop |
| Interpreters.Interpreter.Loop | part3/3_5/compilers/Interpreter/sources/Interpreter.cs:254-265 | the counting loop agrees with Iterate, wrapping the counter from int.MaxValue to int.MinValue |
| Interpreters.Interpreter.VisitAssignment | part3/3_5/compilers/Interpreter/sources/Interpreter.cs:271-284 | agrees with ExecAssignment |
| Interpreters.Interpreter.Visit | part3/3_5/compilers/Interpreter/sources/Visitor.cs:171-181 | the run ends in the state Interpret gives, errored exactly when an error was reported, and a host exception escapes |
| Printing.TokenText | part3/3_5/compilers/Interpreter/sources/ExpressionPrinter.cs:13-18 | a node prints its lexeme's token, or nothing without a lexeme |
| Printing.ParsedRenders | part3/3_5/compilers/Interpreter/sources/ExpressionPrinter.cs:25-49 | every expression the parser builds renders without an error |
| Printing.UnaryOperandUnvisited | part3/3_5/compilers/Interpreter/sources/ExpressionPrinter.cs:28-34 | a unary node prints only its operand's own token, so operands with the same lexeme render the same whatever their subtree |
| Printing.BinaryParenthesised | part3/3_5/compilers/Interpreter/sources/ExpressionPrinter.cs:40-47 | a binary expression renders as "(" left, operator token, right ")" |
| Printing.ExpressionPrinter.constructor | part3/3_5/compilers/Interpreter/sources/ExpressionPrinter.cs:23 | the "Printer" visitor with no error |
| Printing.ExpressionPrinter.Visit | part3/3_5/compilers/Interpreter/sources/Visitor.cs:171-181 | appends the rendering, then the error report when the rendering threw |
| Programs.Execute | part3/3_5/compilers/Interpreter/Program.cs:36-40 | running the interpreter only consumes input forward and only adds output |
| Programs.Frontend | part3/3_5/compilers/Interpreter/Program.cs:17-25 | lexing and parsing only add diagnostics, and a tree passes the gate only as a statement list |
| Programs.FrontendOf | part3/3_5/compilers/Interpreter/Program.cs:17-25 | the whole source is lexed before parsing; the output gains the lexer's diagnostics, then the parser's; a tree passes exactly when neither reported an error |
| Programs.Backend | part3/3_5/compilers/Interpreter/Program.cs:27-40 | analysis and interpretation only consume input forward and only add output |
| Programs.Pipeline | part3/3_5/compilers/Interpreter/Program.cs:15-41 | the whole run only consumes input forward and only adds output |
| Programs.OnlyCleanProgramsRun | part3/3_5/compilers/Interpreter/Program.cs:22-37 | the program reads input only if the lexer, the parser and (when requested) the analysis all reported nothing |
| Programs.CheckIsTransparent | part3/3_5/compilers/Interpreter/Program.cs:27-37 | on a program the analysis accepts, running with analysis equals running without it; a checked run that crashes either has read input or equals the unchecked run, so analysis adds no crash of its own |
| Programs.Run | part3/3_5/compilers/Interpreter/Program.cs:15-41 | the output, input cursor and escaping exception are those of Pipeline |
| Programs.LexAndParse | part3/3_5/compilers/Interpreter/Program.cs:18-25 | the lexer and parser stages agree with Frontend |
| Programs.CheckAndRun | part3/3_5/compilers/Interpreter/Program.cs:27-40 | the analysis gate and the interpreter agree with Backend |
| Programs.Execution | part3/3_5/compilers/Interpreter/Program.cs:36-40 | the interpreter and the line "Interpreter terminated with errors" after an error agree with Execute |

## Left out

- `ConsoleIO` (`sources/IO.cs:33-44`) and the `string.Format` overloads of `Write`/`WriteLine` (`sources/IO.cs:18-26`). These wrap the console and .NET formatting. Every call is modelled with the string already formatted.
- `Program.Main` and the `Run(io, bool, params string[])` overload (`Program.cs:43-86`), and `InputBuffer.ToStream`/`ToInputBuffer` (`sources/InputBuffer.cs:15-32`). These are file, argument and `MemoryStream` plumbing. The source is a `seq<byte>`.
- `string.Compare` (`sources/Interpreter.cs:83`) is culture-sensitive. It is modelled as the ordinal order of Unicode scalar values (Dafny `char`), which is proved a strict total order. This differs from .NET's ordinal UTF-16 order when a character above U+FFFF is compared with one in U+E000..U+FFFF.
- `StringIOs.StringIO.Read`: `StringIO` input is a sequence of Unicode scalar values, so lone surrogates are not represented, and a character above U+FFFF is returned as one value where .NET returns two UTF-16 code units. Token boundaries and the echo are the same, because no surrogate is white space.
- `InterpreterSpec.Text`: `print` of a number (`sources/Interpreter.cs:109`) formats with the current culture's `NegativeSign`; the model always writes '-', the invariant culture's sign, matching the parsing side under `InterpreterSpec.ReadNumber`.
- `Char.IsLetter` and `Char.IsDigit` are written out for the characters 0..255 only. The lexer cannot see any other character.
- Host exceptions and non-termination escape `Run` as a `Crashed` fault instead of being modelled as the .NET exception object. A `read` of a number at the end of the input never ends, and the model cuts it short at the point where it would repeat forever.
- InterpreterSpec.Iterate: a `for` loop whose end is `int.MaxValue` wraps its counter to `int.MinValue` and keeps running passes until one fails. The model follows `InterpreterSpec.WrapLaps` such wraps (2^32 passes each) and then reports `CounterWraps`. The source would go on, so a pass that fails only after that many wraps is not reached.
- InterpreterSpec.ExecForLoop: inherits the wrap limit of `InterpreterSpec.Iterate`.
- Interpreters.Interpreter.VisitForLoop: inherits the wrap limit of `InterpreterSpec.Iterate`.
- Interpreters.Interpreter.Loop: stops after `InterpreterSpec.WrapLaps` wraps, as `InterpreterSpec.Iterate` does.
- Input.InputBuffer.Next: the line and column counters are unbounded integers. In the source they are 32-bit `int`s, and `++` wraps them to `int.MinValue` after `int.MaxValue`; that needs a line or a source of more than 2^31 bytes, which the model does not follow.
- Input.PositionLine: counts newlines without the 32-bit wrap of `Position.line`, for the same reason as `Input.InputBuffer.Next`.
- Input.PositionColumn: counts bytes without the 32-bit wrap of `Position.column`, for the same reason as `Input.InputBuffer.Next`.
- `ExpressionPrinter` normally writes to a `StringIO` as it goes. It is modelled as a pure rendering followed by one append. The result is the same, because nothing else writes to that IO while the printer runs.
- The lexer's internal `LexerException` is modelled as an error value returned by each `Expect*` routine, not as an exception.
- `Visit` dispatches through a dictionary of delegates. The model uses a `match` on the node's tag, and a tag with no handler is a `MissingHandler` fault.
- InterpreterSpec.ReadNumber: reads tokens with the invariant culture's `int.Parse`. Only '-' and '+' are signs, and trailing '\0' characters are ignored. A culture with other sign strings is not modelled.
- `Ast.NumberFromText`: states the decimal value only for digit-only text, which is the only text the parser passes it. `int.Parse`'s leading white space and culture-specific signs are not modelled.
- `InterpreterSpec.Exec`: its own contract states only that the cursor moves forward and the output grows. Its meaning is its definition, and the lemmas and the `Interpreters.Interpreter` handlers state the rest.
- `Programs.Pipeline`: its own contract states only that input moves forward and output grows. What the gates do is stated by `Programs.FrontendOf`, `Programs.OnlyCleanProgramsRun` and `Programs.CheckIsTransparent`.
