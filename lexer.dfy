// The lexer: reads characters through an InputBuffer, appends lexemes to a
// queue and reports lexical errors on the program's IO. Every routine is
// proved to do what the function of the same name in LexSpec describes.
module Lexing {
  import opened Wrappers
  import opened Strings
  import opened Input
  import opened StringIOs
  import opened LexSpec

  class Lexer {
    const input: InputBuffer
    const io: StringIO
    /** Lexemes read from the input and not yet handed out. */
    var lexemes: seq<Lexeme>
    var errored: bool

    ghost predicate Valid()
      reads this, input, input.buffer
    {
      input.Ready() && input.buffer.Length >= 2 && input.Offset() <= |input.source|
    }

    /** The index of the character under the window. */
    ghost function At(): nat
      reads this, input, input.buffer
      requires Valid()
    {
      input.Offset()
    }

    /** A lexer over a constructed buffer with room for a character and its successor. */
    constructor (input: InputBuffer, io: StringIO)
      requires input.Ready() && input.buffer.Length >= 2 && input.Offset() <= |input.source|
      ensures Valid() && this.input == input && this.io == io
      ensures lexemes == [] && !errored
    {
      this.input := input;
      this.io := io;
      lexemes := [];
      errored := false;
    }

    /** The character under the window; the caller has checked there is one. */
    method Current() returns (c: char)
      requires Valid() && At() < |input.source|
      ensures c == Ch(input.source, At())
    {
      c := input.PeekCharacter(0).value;
    }

    /** Next on the buffer, when there is a character under the window. */
    method Consume() returns (more: bool)
      requires Valid() && At() < |input.source|
      modifies input, input.buffer
      ensures Valid() && At() == old(At()) + 1 && (more <==> At() < |input.source|)
    {
      more := input.Next();
    }

    /** Consumes the characters of token as long as they match. */
    method ExpectToken(token: string) returns (ok: bool)
      requires Valid() && (token != [] ==> At() < |input.source|)
      modifies input, input.buffer
      ensures Valid()
      ensures (ok, At()) == MatchToken(input.source, old(At()), token)
    {
      if |token| == 0 {
        return true;
      }
      ghost var src, i0 := input.source, At();
      var i := 0;
      while i < |token|
        invariant 0 <= i <= |token| && Valid() && At() == i0 + i && At() < |src|
        invariant MatchToken(src, i0, token) == if i < |token| then MatchFrom(src, At(), token, i) else (true, At())
        decreases |token| - i
      {
        var c := Current();
        if token[i] != c {
          return false;
        }
        i := i + 1;
        var more := Consume();
        if !more {
          return i >= |token|;
        }
      }
      return true;
    }

    method ExpectNumber() returns (r: Result<Lexeme, LexError>)
      requires Valid()
      modifies input, input.buffer
      ensures Valid()
      ensures (r, At()) == ScanNumber(input.source, old(At()))
    {
      ghost var src, i0 := input.source, At();
      var pos := input.GetPosition();
      var s := "";
      if input.HasCharacter() {
        var more := true;
        while more
          invariant Valid() && i0 <= At() && (more <==> At() < |src|)
          invariant DigitRunEnd(src, At()) == DigitRunEnd(src, i0) && s == Text(src, i0, At())
          decreases |src| - At()
        {
          var c := Current();
          if !IsDigit(c) {
            break;
          }
          TextSnoc(src, i0, At());
          s := s + [c];
          more := Consume();
        }
        if |s| > 0 {
          if !ParseInt32(s).Parsed? {
            return Err(LexError(TooHighConstant, pos));
          }
          return Ok(Lexeme(NUMBER, pos, s));
        }
      }
      return Err(LexError(NumberExpected, pos));
    }

    method ExpectComment() returns (r: Result<Lexeme, LexError>)
      requires Valid() && At() < |input.source|
      modifies input, input.buffer
      ensures Valid()
      ensures (r, At()) == ScanComment(input.source, old(At()))
    {
      ghost var src := input.source;
      var pos := input.GetPosition();
      var ok := ExpectToken("//");
      if !ok {
        return Err(LexError(CommentExpected, pos));
      }
      ghost var j := At();
      var s := "";
      if input.HasCharacter() {
        var more := true;
        while more
          invariant Valid() && j <= At() && (more <==> At() < |src|)
          invariant LineEnd(src, At()) == LineEnd(src, j) && s == Text(src, j, At())
          decreases |src| - At()
        {
          var c := Current();
          if c == '\n' {
            break;
          }
          TextSnoc(src, j, At());
          s := s + [c];
          more := Consume();
        }
      }
      return Ok(Lexeme(COMMENT, pos, s));
    }

    method ExpectString() returns (r: Result<Lexeme, LexError>)
      requires Valid() && At() < |input.source|
      modifies input, input.buffer
      ensures Valid()
      ensures (r, At()) == ScanString(input.source, old(At()))
    {
      var pos := input.GetPosition();
      var ok := ExpectToken("\"");
      if !ok {
        return Err(LexError(StringExpected, pos));
      }
      r := StringBodyLoop(pos);
    }

    /** The loop of ExpectString, after the opening quote. */
    method StringBodyLoop(pos: Position) returns (r: Result<Lexeme, LexError>)
      requires Valid()
      modifies input, input.buffer
      ensures Valid()
      ensures (r, At()) == StringBody(input.source, old(At()), "", pos)
    {
      ghost var src, i0 := input.source, At();
      var s := "";
      var more := input.HasCharacter();
      while more
        invariant Valid() && (more <==> At() < |src|)
        invariant StringBody(src, i0, "", pos) == StringBody(src, At(), s, pos)
        decreases |src| - At()
      {
        var c := Current();
        if c == '\n' {
          break;
        }
        if c == '\\' {
          more := Consume();
          if !more {
            break;
          }
          var e := Current();
          if e == 'n' {
            s := s + "\n";
          } else if e == 't' {
            s := s + "\t";
          } else if e == '"' {
            s := s + "\"";
          } else {
            return Err(LexError(UnrecognizedEscape(e), input.GetPosition()));
          }
        } else if c == '"' {
          var _ := Consume();
          return Ok(Lexeme(STRING, pos, s));
        } else {
          s := s + [c];
        }
        more := Consume();
      }
      return Err(LexError(UnterminatedString(pos), input.GetPosition()));
    }

    method ExpectBlockComment() returns (r: Result<Lexeme, LexError>)
      requires Valid() && At() < |input.source|
      modifies input, input.buffer
      ensures Valid()
      ensures (r, At()) == ScanBlockComment(input.source, old(At()))
    {
      var pos := input.GetPosition();
      var ok := ExpectToken("/*");
      if !ok {
        return Err(LexError(BlockCommentExpected, pos));
      }
      r := BlockBodyLoop(pos);
    }

    /** The loop of ExpectBlockComment, after the opening delimiter. */
    method BlockBodyLoop(pos: Position) returns (r: Result<Lexeme, LexError>)
      requires Valid()
      modifies input, input.buffer
      ensures Valid()
      ensures (r, At()) == BlockBody(input.source, old(At()), 0, "", pos)
    {
      ghost var src, i0 := input.source, At();
      var s := "";
      var nested: nat := 0;
      var more := input.HasCharacter();
      while more
        invariant Valid() && (more <==> At() < |src|)
        invariant BlockBody(src, i0, 0, "", pos) == BlockBody(src, At(), nested, s, pos)
        decreases |src| - At()
      {
        var closed;
        s, nested, closed, more := BlockBodyStep(s, nested, pos);
        if closed {
          return Ok(Lexeme(BLOCKCOMMENT, pos, s));
        }
      }
      return Err(LexError(UnterminatedBlockComment(pos), input.GetPosition()));
    }

    /** One turn of ExpectBlockComment's loop: copies a nested delimiter or one
      * character and moves past it, or consumes the closing delimiter. */
    method BlockBodyStep(s: string, nested: nat, pos: Position) returns (t: string, depth: nat, closed: bool, more: bool)
      requires Valid() && At() < |input.source|
      modifies input, input.buffer
      ensures Valid() && old(At()) < At()
      ensures closed ==> t == s && BlockBody(input.source, old(At()), nested, s, pos) == (Ok(Lexeme(BLOCKCOMMENT, pos, s)), At())
      ensures !closed ==> (more <==> At() < |input.source|)
                          && BlockBody(input.source, old(At()), nested, s, pos) == BlockBody(input.source, At(), depth, t, pos)
    {
      t, depth, closed := s, nested, false;
      var c := Current();
      if input.HasNextCharacter() && c == '/' && input.PeekNext().value == '*' {
        BlockOpenStep(input.source, At(), nested, s, pos);
        t := CopyPair(s);
        depth := nested + 1;
      } else if input.HasNextCharacter() && c == '*' && input.PeekNext().value == '/' {
        if nested <= 0 {
          var _ := Consume();
          var _ := Consume();
          return s, nested, true, false;
        }
        BlockCloseStep(input.source, At(), nested, s, pos);
        t := CopyPair(s);
        depth := nested - 1;
      } else {
        t := s + [c];
      }
      more := Consume();
    }

    /** Appends a nested delimiter's two characters to s; the window stops on the second. */
    method CopyPair(s: string) returns (t: string)
      requires Valid() && At() + 1 < |input.source|
      modifies input, input.buffer
      ensures Valid() && At() == old(At()) + 1
      ensures t == s + [Ch(input.source, old(At())), Ch(input.source, old(At()) + 1)]
    {
      var c := Current();
      t := s + [c];
      var has := Consume();
      if has {
        var d := Current();
        t := t + [d];
      }
    }

    method ExpectIdentifierOrKeyword() returns (r: Result<Lexeme, LexError>)
      requires Valid()
      modifies input, input.buffer
      ensures Valid()
      ensures (r, At()) == ScanWord(input.source, old(At()))
    {
      ghost var src, i0 := input.source, At();
      var pos := input.GetPosition();
      if !input.HasCharacter() {
        return Err(LexError(IdentifierExpected, pos));
      }
      var first := Current();
      if !IsLetter(first) {
        return Err(LexError(IdentifierMustStartWithLetter, pos));
      }
      var s := "";
      var more := true;
      while more
        invariant Valid() && i0 <= At() && (more <==> At() < |src|)
        invariant WordEnd(src, At()) == WordEnd(src, i0) && s == Text(src, i0, At())
        decreases |src| - At()
      {
        var c := Current();
        if !(IsLetterOrDigit(c) || c == '_') {
          break;
        }
        TextSnoc(src, i0, At());
        s := s + [c];
        more := Consume();
      }
      return Ok(Lexeme(if s in Keywords then KEYWORD else IDENTIFIER, pos, s));
    }

    /** The body of LexNext's try block at the character under the window:
      * a lexeme, a skipped comment or white space, or a lexical error. */
    method LexToken() returns (step: Scanned)
      requires Valid() && At() < |input.source|
      modifies input, input.buffer
      ensures Valid()
      ensures var s := LexStep(input.source, old(At()));
              step == Outcome(s) && At() == s.next
    {
      var current := Current();
      var next := if input.HasNextCharacter() then input.PeekNext().value else ' ';
      if current == '/' && next == '/' {
        var r := ExpectComment();
        step := if r.Ok? then Skipped else Raised(r.error);
      } else if current == '/' && next == '*' {
        var r := ExpectBlockComment();
        step := if r.Ok? then Skipped else Raised(r.error);
      } else if IsLetter(current) {
        var r := ExpectIdentifierOrKeyword();
        step := Appended(r.value);
      } else {
        step := LexSymbol();
      }
    }

    /** The branches of LexNext after comments and words. */
    method LexSymbol() returns (step: Scanned)
      requires Valid() && At() < |input.source|
      modifies input, input.buffer
      ensures Valid()
      ensures var s := SymbolStep(input.source, old(At()));
              step == Outcome(s) && At() == s.next
    {
      var current := Current();
      var next := if input.HasNextCharacter() then input.PeekNext().value else ' ';
      if current == ':' && next == '=' {
        step := Appended(Lexeme(SEPARATOR, input.GetPosition(), [current, next]));
        var _ := Consume();
        var _ := Consume();
      } else if current == '.' && next == '.' {
        step := Appended(Lexeme(SEPARATOR, input.GetPosition(), [current, next]));
        var _ := Consume();
        var _ := Consume();
      } else if IsSeparatorChar(current) {
        step := Appended(Lexeme(SEPARATOR, input.GetPosition(), [current]));
        var _ := Consume();
      } else if IsOperatorChar(current) {
        step := Appended(Lexeme(OPERATOR, input.GetPosition(), [current]));
        var _ := Consume();
      } else if IsDigit(current) {
        var r := ExpectNumber();
        step := if r.Ok? then Appended(r.value) else Raised(r.error);
      } else if current == '"' {
        var r := ExpectString();
        step := if r.Ok? then Appended(r.value) else Raised(r.error);
      } else if IsWhiteSpace(current) {
        var _ := Consume();
        step := Skipped;
      } else {
        var pos := input.GetPosition();
        var _ := Consume();
        step := Raised(LexError(UnrecognizedToken(current, next), pos));
      }
    }

    /** Reads until a lexeme is appended or the input ends; an error is
      * reported, and lexing resumes on the next line. */
    method LexNext() returns (produced: bool)
      requires Valid()
      modifies this, input, input.buffer, io`output
      ensures Valid()
      ensures var r := LexRun(input.source, old(At()));
              At() == r.next && produced == r.produced.Some?
              && lexemes == old(lexemes) + r.produced.ToSeq()
              && errored == (old(errored) || r.errors != [])
              && io.output == old(io.output) + Diagnostics(r.errors)
      decreases |input.source| - At()
    {
      if !input.HasCharacter() {
        return false;
      }
      ghost var src, i := input.source, At();
      var step := LexToken();
      match step {
        case Appended(l) =>
          lexemes := lexemes + [l];
          return true;
        case Skipped =>
          produced := LexNext();
        case Raised(e) =>
          Report(e);
          SkipToNextLine();
          ghost var out1 := io.output;
          produced := LexNext();
          ghost var rest := LexRun(src, LineEnd(src, LexStep(src, i).next)).errors;
          DiagnosticsCons(e, rest);
          calc {
            io.output;
            out1 + Diagnostics(rest);
            old(io.output) + Line(e) + Diagnostics(rest);
            { Associate(old(io.output), Line(e), Diagnostics(rest)); }
            old(io.output) + Diagnostics([e] + rest);
          }
      }
    }

    /** The catch block of LexNext: the error is recorded and written out. */
    method Report(e: LexError)
      modifies this`errored, io`output
      ensures errored && io.output == old(io.output) + Line(e)
    {
      errored := true;
      io.WriteLine(Diagnostic(e));
      Associate(old(io.output), Diagnostic(e), "\n");
    }

    /** Reads through the end of the input. */
    method LexAll()
      requires Valid()
      modifies this, input, input.buffer, io`output
      ensures Valid() && At() == |input.source|
      ensures var (ls, es) := LexAllRun(input.source, old(At()));
              lexemes == old(lexemes) + ls
              && errored == (old(errored) || es != [])
              && io.output == old(io.output) + Diagnostics(es)
    {
      while input.HasCharacter()
        invariant Valid()
        invariant Upcoming() == old(Upcoming())
        invariant (errored || Unreported() != []) == old(errored || Unreported() != [])
        invariant io.output + Diagnostics(Unreported()) == old(io.output + Diagnostics(Unreported()))
        decreases |input.source| - At()
      {
        var got := Refill();
        if !got {
          break;
        }
      }
      assert LexAllRun(input.source, At()) == ([], []);
      assert lexemes + [] == lexemes;
    }

    /** One LexNext, seen from the whole run: what is still to come, and what
      * is still to be written, does not change. */
    method Refill() returns (got: bool)
      requires Valid()
      modifies this, input, input.buffer, io`output
      ensures Valid()
      ensures got ==> old(At()) < At() && |lexemes| == |old(lexemes)| + 1
      ensures !got ==> At() == |input.source| && lexemes == old(lexemes)
      ensures Upcoming() == old(Upcoming())
      ensures (errored || Unreported() != []) == old(errored || Unreported() != [])
      ensures io.output + Diagnostics(Unreported()) == old(io.output + Diagnostics(Unreported()))
      ensures old(Unreported()) == [] ==> Unreported() == [] && io.output == old(io.output) && errored == old(errored)
    {
      ghost var src, i := input.source, At();
      got := LexNext();
      LexNextKeepsRun(src, i, old(lexemes), old(errored), old(io.output), lexemes, errored, io.output);
    }

    /** The lexemes this lexer has read and will read, in the order it hands them out. */
    ghost function Upcoming(): seq<Lexeme>
      reads this, input, input.buffer
      requires Valid()
    {
      lexemes + LexAllRun(input.source, At()).0
    }

    /** The errors the rest of the input will report. */
    ghost function Unreported(): seq<LexError>
      reads this, input, input.buffer
      requires Valid()
    {
      LexAllRun(input.source, At()).1
    }

    /** A lexeme already read is the next one handed out. */
    function HasNext(): (b: bool)
      reads this, input, input.buffer
      ensures Valid() && b ==> |lexemes| > 0 && Upcoming()[0] == lexemes[0]
    {
      |lexemes| > 0
    }

    /** Hands out lexemes in order, reading more input only when none is waiting;
      * None once the input is exhausted. */
    method NextLexeme() returns (r: Option<Lexeme>)
      requires Valid()
      modifies this, input, input.buffer, io`output
      ensures Valid()
      ensures old(Upcoming()) == [] ==> r == None && Upcoming() == []
      ensures old(Upcoming()) != [] ==> r == Some(old(Upcoming())[0]) && Upcoming() == old(Upcoming())[1..]
      ensures io.output + Diagnostics(Unreported()) == old(io.output + Diagnostics(Unreported()))
      ensures (errored || Unreported() != []) == old(errored || Unreported() != [])
      ensures old(Unreported()) == [] ==> Unreported() == [] && io.output == old(io.output) && errored == old(errored)
    {
      if !HasNext() {
        var got := Refill();
        if !got {
          return None;
        }
      }
      Dequeue(lexemes, LexAllRun(input.source, At()).0);
      r := Some(lexemes[0]);
      lexemes := lexemes[1..];
    }

    /** Consumes input up to the next newline or the end of the input. */
    method SkipToNextLine()
      requires Valid()
      modifies input, input.buffer
      ensures Valid() && At() == LineEnd(input.source, old(At()))
    {
      ghost var src, i0 := input.source, At();
      while input.HasCharacter() && input.PeekCharacter(0).value != '\n'
        invariant Valid() && LineEnd(src, At()) == LineEnd(src, i0)
        decreases |src| - At()
      {
        var _ := Consume();
      }
    }
  }
}
