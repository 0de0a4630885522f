// The single-pass compiler front end (src/compiler.c). In this version it
// parses no expression yet: it pulls the first token, insists that it is the
// end of the input, and emits the closing return instruction.
module Compiler {
  import opened Scanner
  import opened Chunks

  /** The message consume is given in compile. */
  const ExpectedEnd: string := "Expected end of expression"

  /** The zero-initialised token in the global parser before any compile:
      the first token kind, a null lexeme of length zero, line 0. */
  const ZeroToken: Token := Token(LeftParen, Span(0, 0), 0)

  // ---------------------------------------------------------------------
  // Decimal formatting of the line number (printf's `%d`)

  function DigitChar(d: nat): (c: char)
    requires d < 10
    ensures '0' <= c <= '9'
  {
    ('0' as int + d) as char
  }

  /** The decimal digits of `n`, most significant first, without leading
      zeros. */
  function NatToString(n: nat): (s: string)
    ensures |s| > 0
    ensures forall i :: 0 <= i < |s| ==> '0' <= s[i] <= '9'
  {
    if n < 10 then [DigitChar(n)] else NatToString(n / 10) + [DigitChar(n % 10)]
  }

  /** The value of a string of decimal digits. */
  function DecimalValue(s: string): nat
    requires forall i :: 0 <= i < |s| ==> '0' <= s[i] <= '9'
  {
    if s == [] then 0 else 10 * DecimalValue(s[..|s| - 1]) + (s[|s| - 1] as int - '0' as int)
  }

  /** The printed line number reads back as the line number. */
  lemma {:induction false} NatToStringRoundTrip(n: nat)
    ensures DecimalValue(NatToString(n)) == n
    ensures n > 0 ==> NatToString(n)[0] != '0'
  {
    var s := NatToString(n);
    if n >= 10 {
      NatToStringRoundTrip(n / 10);
      assert s[..|s| - 1] == NatToString(n / 10);
    }
  }

  // ---------------------------------------------------------------------
  // Diagnostics (error_at's output on stderr)

  /** Every span of `t` lies inside `source`. */
  predicate InSource(source: seq<char>, t: Token)
  {
    t.lexeme.Span? ==> t.lexeme.start + t.lexeme.length <= |source|
  }

  /** The characters a token stands for: its span of the source, or the
      message an error token carries. */
  function LexemeText(source: seq<char>, t: Token): string
    requires InSource(source, t)
  {
    match t.lexeme
    case Span(start, length) => source[start..start + length]
    case Message(text) => text
  }

  /** Where a report places the error. */
  datatype Place = AtEnd | Nowhere | AtLexeme(text: string)

  /** One report error_at writes to stderr: the line, the place and the
      message. `Render` gives its text. */
  datatype Report = Report(line: nat, place: Place, message: string)

  /** The report error_at makes for `t` and `message`: at the end of the
      input, nowhere for an error token (its message says it all), or at
      the lexeme. */
  function ReportAt(source: seq<char>, t: Token, message: string): (r: Report)
    requires InSource(source, t)
    ensures r.line == t.line && r.message == message
    ensures r.place == AtEnd <==> t.kind == Eof
    ensures r.place == Nowhere <==> t.kind == Error
    ensures r.place.AtLexeme? ==> r.place.text == LexemeText(source, t)
  {
    var place :=
      if t.kind == Eof then AtEnd
      else if t.kind == Error then Nowhere
      else AtLexeme(LexemeText(source, t));
    Report(t.line, place, message)
  }

  /** What error_at prints before the place: the line in decimal. */
  function Header(line: nat): string
  {
    "[line " + NatToString(line) + "] Error"
  }

  /** What error_at prints for the place of the error. */
  function PlaceText(place: Place): string
  {
    match place
    case AtEnd => " at end"
    case Nowhere => ""
    case AtLexeme(text) => " at '" + text + "'"
  }

  /** What error_at prints after the place: the message and a newline. */
  function Trailer(message: string): string
  {
    ": " + message + "\n"
  }

  /** The characters of a report as they reach stderr. */
  function Render(r: Report): string
  {
    Header(r.line) + PlaceText(r.place) + Trailer(r.message)
  }

  lemma SliceOfFront(a: string, b: string, i: nat, j: nat)
    requires i <= j <= |a|
    ensures (a + b)[i..j] == a[i..j]
  {
  }

  lemma SliceOfBack(a: string, b: string, i: nat)
    requires |a| <= i <= |a| + |b|
    ensures (a + b)[i..] == b[i - |a|..]
  {
  }

  /** A slice of the header reads the same inside the whole report. */
  lemma HeaderSlice(r: Report, i: nat, j: nat)
    requires i <= j <= |Header(r.line)|
    ensures Render(r)[i..j] == Header(r.line)[i..j]
  {
    var h := Header(r.line);
    SliceOfFront(h + PlaceText(r.place), Trailer(r.message), i, j);
    SliceOfFront(h, PlaceText(r.place), i, j);
  }

  /** A rendered report names its line first, in digits that read back as
      the line, and ends with the message on a line of its own. */
  lemma {:induction false} RenderShape(r: Report)
    ensures var text := Render(r);
      var digits := NatToString(r.line);
      && text[..6] == "[line "
      && text[6..6 + |digits|] == digits
      && DecimalValue(text[6..6 + |digits|]) == r.line
      && text[6 + |digits|..6 + |digits| + 7] == "] Error"
      && text[|text| - |r.message| - 1..] == r.message + "\n"
  {
    NatToStringRoundTrip(r.line);
    var digits := NatToString(r.line);
    var h := Header(r.line);
    assert h[..6] == "[line " && h[6..6 + |digits|] == digits && h[6 + |digits|..6 + |digits| + 7] == "] Error";
    HeaderSlice(r, 0, 6);
    HeaderSlice(r, 6, 6 + |digits|);
    HeaderSlice(r, 6 + |digits|, 6 + |digits| + 7);
    var front := h + PlaceText(r.place);
    var t := Trailer(r.message);
    SliceOfBack(front, t, |front| + 2);
    assert t[2..] == r.message + "\n";
  }

  // ---------------------------------------------------------------------
  // The token pump (advance's loop) as a function

  /** What advance leaves behind: the error tokens it reported on the way,
      the first other token, and the scanner's new start, cursor and line. */
  datatype Pumped = Pumped(errors: seq<Token>, token: Token, start: nat, current: nat, line: nat)

  /** Scan from `cur` until a token that is not an error token. */
  function Pump(src: seq<char>, cur: nat, line: nat): (p: Pumped)
    requires IsCString(src) && cur < |src|
    ensures p.token.kind != Error && p.start <= p.current < |src|
    ensures forall i :: 0 <= i < |p.errors| ==> p.errors[i].kind == Error && p.errors[i].lexeme.Message?
    decreases |src| - cur
  {
    var r := Scan(src, cur, line);
    if r.token.kind != Error then Pumped([], r.token, r.start, r.current, r.line)
    else
      var rest := Pump(src, r.current, r.line);
      Pumped([r.token] + rest.errors, rest.token, rest.start, rest.current, rest.line)
  }

  /** One turn of advance's loop: a token that is not an error token ends
      the pump, an error token is collected and the pump goes on after it. */
  lemma PumpStep(src: seq<char>, cur: nat, line: nat)
    requires IsCString(src) && cur < |src|
    ensures var r := Scan(src, cur, line);
      && (r.token.kind != Error ==> Pump(src, cur, line) == Pumped([], r.token, r.start, r.current, r.line))
      && (r.token.kind == Error ==> (r.current < |src| &&
            var rest := Pump(src, r.current, r.line);
            Pump(src, cur, line) == Pumped([r.token] + rest.errors, rest.token, rest.start, rest.current, rest.line)))
  {
  }

  /** The report advance makes for the error tokens it meets: the first
      one's message, unless the parser is already panicking. */
  function PumpReports(src: seq<char>, panicking: bool, errors: seq<Token>): seq<Report>
    requires errors != [] ==> errors[0].lexeme.Message?
  {
    if panicking || errors == [] then [] else [ReportAt(src, errors[0], errors[0].lexeme.text)]
  }

  /** The token advance stops at is the one a scan from where the last
      error token ended produces, and it is a well-placed token. */
  lemma {:induction false} PumpStopsAtScan(src: seq<char>, cur: nat, line: nat)
    requires IsCString(src) && cur < |src|
    ensures var p := Pump(src, cur, line);
      && InSource(src, p.token)
      && p.token.line == p.line
      && (p.token.kind == Eof ==> src[p.start] == '\0')
      && (p.errors == [] ==> Scanned(p.token, p.start, p.current, p.line) == Scan(src, cur, line))
    decreases |src| - cur
  {
    var r := Scan(src, cur, line);
    if r.token.kind == Error {
      PumpStopsAtScan(src, r.current, r.line);
    }
  }

  /** At the end of the input advance finds the end again and reports
      nothing. */
  lemma PumpAtEof(src: seq<char>, cur: nat, line: nat)
    requires IsCString(src) && cur < |src|
    requires Pump(src, cur, line).token.kind == Eof
    ensures var p := Pump(src, cur, line);
      Pump(src, p.current, p.line) == Pumped([], p.token, p.start, p.current, p.line)
    decreases |src| - cur
  {
    var r := Scan(src, cur, line);
    if r.token.kind == Error {
      PumpAtEof(src, r.current, r.line);
    } else {
      ScanEofIsFixpoint(src, cur, line);
    }
  }

  // ---------------------------------------------------------------------
  // The parser's state and what each step does to it

  /** The global parser's fields together with the scanner's cursor
      (`start`, `pos`, `line`). `diagnostics` is everything written to
      stderr, in order. */
  datatype ParserState = ParserState(
    current: Token, previous: Token, hadError: bool, panicMode: bool,
    diagnostics: seq<Report>, start: nat, pos: nat, line: nat)

  /** error_at: report `message` at `t` unless the parser is panicking. */
  function ErrorAtState(src: seq<char>, s: ParserState, t: Token, message: string): ParserState
    requires InSource(src, t)
  {
    if s.panicMode then s
    else s.(panicMode := true, hadError := true, diagnostics := s.diagnostics + [ReportAt(src, t, message)])
  }

  /** advance's loop from state `s`: scan a token into `current`; an
      error token is reported with its own message and the loop goes on. */
  function AdvanceLoop(src: seq<char>, s: ParserState): ParserState
    requires IsCString(src) && s.pos < |src|
    decreases |src| - s.pos
  {
    var r := Scan(src, s.pos, s.line);
    var scanned := s.(current := r.token, start := r.start, pos := r.current, line := r.line);
    if r.token.kind != Error then scanned
    else AdvanceLoop(src, ErrorAtState(src, scanned, r.token, r.token.lexeme.text))
  }

  /** advance: the current token becomes the previous one, then the loop. */
  function AdvanceState(src: seq<char>, s: ParserState): ParserState
    requires IsCString(src) && s.pos < |src|
  {
    AdvanceLoop(src, s.(previous := s.current))
  }

  /** advance's loop moves the cursor to where the pump stops, holds the
      first token that is not an error token, and reports the first error
      token on the way unless the parser was already panicking. */
  lemma {:induction false} AdvanceLoopIsPump(src: seq<char>, s: ParserState)
    requires IsCString(src) && s.pos < |src|
    ensures var p := Pump(src, s.pos, s.line);
      AdvanceLoop(src, s) == s.(current := p.token, start := p.start, pos := p.current, line := p.line,
        panicMode := s.panicMode || p.errors != [],
        hadError := s.hadError || (!s.panicMode && p.errors != []),
        diagnostics := s.diagnostics + PumpReports(src, s.panicMode, p.errors))
    decreases |src| - s.pos
  {
    var r := Scan(src, s.pos, s.line);
    if r.token.kind == Error {
      var scanned := s.(current := r.token, start := r.start, pos := r.current, line := r.line);
      var next := ErrorAtState(src, scanned, r.token, r.token.lexeme.text);
      AdvanceLoopIsPump(src, next);
      var rest := Pump(src, r.current, r.line);
      assert Pump(src, s.pos, s.line).errors == [r.token] + rest.errors;
      if !s.panicMode {
        assert next.diagnostics == s.diagnostics + PumpReports(src, false, [r.token] + rest.errors);
      }
    }
  }

  /** advance, as the pump describes it: the old current token becomes
      the previous one, and the new current token is one of the source's
      tokens, never an error token. */
  lemma {:induction false} AdvanceStateIsPump(src: seq<char>, s: ParserState)
    requires IsCString(src) && s.pos < |src|
    ensures var p := Pump(src, s.pos, s.line);
      AdvanceState(src, s) == s.(previous := s.current, current := p.token,
        start := p.start, pos := p.current, line := p.line,
        panicMode := s.panicMode || p.errors != [],
        hadError := s.hadError || (!s.panicMode && p.errors != []),
        diagnostics := s.diagnostics + PumpReports(src, s.panicMode, p.errors))
    ensures InSource(src, AdvanceState(src, s).current) && AdvanceState(src, s).current.kind != Error
  {
    AdvanceLoopIsPump(src, s.(previous := s.current));
    PumpStopsAtScan(src, s.pos, s.line);
  }

  /** consume: advance over a token of the expected kind, otherwise report
      `message` at the current token. */
  function ConsumeState(src: seq<char>, s: ParserState, kind: TokenType, message: string): ParserState
    requires IsCString(src) && s.pos < |src| && InSource(src, s.current)
  {
    if s.current.kind == kind then AdvanceState(src, s) else ErrorAtState(src, s, s.current, message)
  }

  /** The state compile starts from: the scanner at the first character of
      line 1, both flags cleared, the tokens left as they were. */
  function Reset(current: Token, previous: Token, diagnostics: seq<Report>): ParserState
  {
    ParserState(current, previous, false, false, diagnostics, 0, 0, 1)
  }

  /** compile's parse: advance, then consume the end of the input. */
  function CompileState(src: seq<char>, s: ParserState): ParserState
    requires IsCString(src) && s.pos == 0 && s.line == 1
  {
    AdvanceStateIsPump(src, s);
    ConsumeState(src, AdvanceState(src, s), Eof, ExpectedEnd)
  }

  /** Once the parser panics, no step reports anything more. */
  lemma {:induction false} PanicSilences(src: seq<char>, s: ParserState, t: Token, kind: TokenType, message: string)
    requires IsCString(src) && s.pos < |src| && InSource(src, s.current) && InSource(src, t)
    requires s.panicMode
    ensures ErrorAtState(src, s, t, message).diagnostics == s.diagnostics
    ensures AdvanceState(src, s).diagnostics == s.diagnostics && AdvanceState(src, s).panicMode
    ensures ConsumeState(src, s, kind, message).diagnostics == s.diagnostics
    ensures AdvanceState(src, s).hadError == s.hadError
  {
    AdvanceStateIsPump(src, s);
  }

  // ---------------------------------------------------------------------
  // What compile reports

  /** The diagnostics compile writes for `source`: the first error token the
      scanner produces if there is one (panic mode silences the rest),
      otherwise a complaint at the first token unless it is the end. */
  function CompileDiagnostics(source: seq<char>): seq<Report>
    requires IsCString(source)
  {
    PumpStopsAtScan(source, 0, 1);
    var p := Pump(source, 0, 1);
    if p.errors != [] then PumpReports(source, false, p.errors)
    else if p.token.kind != Eof then [ReportAt(source, p.token, ExpectedEnd)]
    else []
  }

  /** compile's parse appends exactly CompileDiagnostics, fails exactly when
      that is not empty, ends on the first real token, and leaves as the
      previous token the end token when the input was empty and otherwise
      the token the parser held before compile began. */
  lemma {:induction false} CompileStateMeaning(src: seq<char>, s: ParserState)
    requires IsCString(src) && s.pos == 0 && s.line == 1
    requires !s.hadError && !s.panicMode
    ensures var r := CompileState(src, s);
      var p := Pump(src, 0, 1);
      && r.diagnostics == s.diagnostics + CompileDiagnostics(src)
      && r.hadError == (CompileDiagnostics(src) != [])
      && r.panicMode == r.hadError
      && r.current == p.token
      && r.previous == (if p.token.kind == Eof then p.token else s.current)
  {
    PumpStopsAtScan(src, 0, 1);
    AdvanceStateIsPump(src, s);
    var p := Pump(src, 0, 1);
    var s1 := AdvanceState(src, s);
    if p.token.kind == Eof {
      PumpAtEof(src, 0, 1);
      AdvanceStateIsPump(src, s1);
      assert Pump(src, s1.pos, s1.line).errors == [];
    }
  }

  /** Compilation succeeds exactly when the very first token is the end of
      the input; it never reports more than one error. */
  lemma {:induction false} CompileSucceedsIffFirstTokenIsEof(source: seq<char>)
    requires IsCString(source)
    ensures CompileDiagnostics(source) == [] <==> Scan(source, 0, 1).token.kind == Eof
    ensures |CompileDiagnostics(source)| <= 1
  {
    PumpStopsAtScan(source, 0, 1);
    var r := Scan(source, 0, 1);
    if r.token.kind == Error {
      assert Pump(source, 0, 1).errors[0] == r.token;
    }
  }

  /** A source of blanks and newlines compiles without a diagnostic. */
  lemma {:induction false} BlankSourceCompiles(source: seq<char>)
    requires IsCString(source)
    requires forall i :: 0 <= i < |source| - 1 ==>
      source[i] == ' ' || source[i] == '\t' || source[i] == '\r' || source[i] == '\n'
    ensures CompileDiagnostics(source) == []
  {
    BlankSourceScansToEof(source, 1);
    CompileSucceedsIffFirstTokenIsEof(source);
  }

  /** A source whose first lexeme is a real token (not the end, not a
      scanner error) is rejected with one report quoting that lexeme. */
  lemma {:induction false} LeadingTokenIsReported(source: seq<char>)
    requires IsCString(source)
    requires Scan(source, 0, 1).token.kind != Eof && Scan(source, 0, 1).token.kind != Error
    ensures var r := Scan(source, 0, 1);
      CompileDiagnostics(source) == [Report(r.line, AtLexeme(source[r.start..r.current]), ExpectedEnd)]
  {
    var r := Scan(source, 0, 1);
    PumpStep(source, 0, 1);
    var p := Pump(source, 0, 1);
    assert p.errors == [] && p.token == r.token;
    PumpStopsAtScan(source, 0, 1);
    assert LexemeText(source, r.token) == source[r.start..r.current];
  }

  /** A source whose first lexeme the scanner rejects gets the scanner's
      message and nothing else, whatever follows. */
  lemma {:induction false} ScanErrorIsReported(source: seq<char>)
    requires IsCString(source)
    requires Scan(source, 0, 1).token.kind == Error
    ensures var r := Scan(source, 0, 1);
      CompileDiagnostics(source) == [Report(r.line, Nowhere, r.token.lexeme.text)]
  {
    var r := Scan(source, 0, 1);
    assert Pump(source, 0, 1).errors[0] == r.token;
  }

  // ---------------------------------------------------------------------
  // The parser

  /** The global parser together with the globals compile sets up: the
      scanner it reads from and the chunk it writes to (compiling_chunk). */
  class Parser {
    var current: Token
    var previous: Token
    var hadError: bool
    var panicMode: bool
    var scanner: Scanner?
    var chunk: Chunk?
    var diagnostics: seq<Report>

    /** The state before the first compile: every field zero. */
    constructor ()
      ensures current == ZeroToken && previous == ZeroToken
      ensures !hadError && !panicMode
      ensures scanner == null && chunk == null && diagnostics == []
    {
      current := ZeroToken;
      previous := ZeroToken;
      hadError := false;
      panicMode := false;
      scanner := null;
      chunk := null;
      diagnostics := [];
    }

    /** The parser's fields and the scanner's cursor as a value. */
    ghost function State(): ParserState
      reads this, scanner
      requires scanner != null
    {
      ParserState(current, previous, hadError, panicMode, diagnostics, scanner.start, scanner.current, scanner.line)
    }

    /** A chunk is installed, and writing to it changes neither the parser
        nor the scanner. */
    ghost predicate Writable()
      reads this, chunk, if chunk == null then {} else chunk.Repr
    {
      chunk != null && chunk.Valid() && this !in chunk.Repr && scanner !in chunk.Repr
    }

    /** error_at */
    method ErrorAt(token: Token, message: string)
      requires scanner != null && InSource(scanner.source, token)
      modifies this
      ensures scanner == old(scanner) && chunk == old(chunk)
      ensures State() == ErrorAtState(scanner.source, old(State()), token, message)
    {
      if panicMode {
        return;
      }
      panicMode := true;
      diagnostics := diagnostics + [ReportAt(scanner.source, token, message)];
      hadError := true;
    }

    /** error_at_current */
    method ErrorAtCurrent(message: string)
      requires scanner != null && InSource(scanner.source, current)
      modifies this
      ensures scanner == old(scanner) && chunk == old(chunk)
      ensures State() == ErrorAtState(scanner.source, old(State()), old(current), message)
    {
      ErrorAt(current, message);
    }

    /** error_at_previous (no caller in this version). The previous token
        must still point into the current source. */
    method ErrorAtPrevious(message: string)
      requires scanner != null && InSource(scanner.source, previous)
      modifies this
      ensures scanner == old(scanner) && chunk == old(chunk)
      ensures State() == ErrorAtState(scanner.source, old(State()), old(previous), message)
    {
      ErrorAt(previous, message);
    }

    /** advance */
    method Advance()
      requires scanner != null && scanner.Valid()
      modifies this, scanner
      ensures scanner == old(scanner) && chunk == old(chunk) && scanner.Valid()
      ensures State() == AdvanceState(scanner.source, old(State()))
      ensures InSource(scanner.source, current)
    {
      previous := current;
      ghost var target := AdvanceLoop(scanner.source, State());
      while true
        invariant scanner == old(scanner) && chunk == old(chunk) && scanner.Valid()
        invariant AdvanceLoop(scanner.source, State()) == target
        decreases |scanner.source| - scanner.current
      {
        current := scanner.ScanToken();
        if current.kind != Error {
          break;
        }
        ErrorAtCurrent(current.lexeme.text);
      }
    }

    /** consume */
    method Consume(kind: TokenType, message: string)
      requires scanner != null && scanner.Valid() && InSource(scanner.source, current)
      modifies this, scanner
      ensures scanner == old(scanner) && chunk == old(chunk) && scanner.Valid()
      ensures State() == ConsumeState(scanner.source, old(State()), kind, message)
    {
      if current.kind == kind {
        Advance();
        return;
      }
      ErrorAtCurrent(message);
    }

    /** emit_byte: append `b` to the chunk being compiled, under the line
        of the previous token. */
    method EmitByte(b: byte)
      requires Writable()
      modifies chunk.Repr
      ensures Writable() && fresh(chunk.Repr - old(chunk.Repr))
      ensures chunk.Code() == old(chunk.Code()) + [b]
      ensures chunk.Lines() == old(chunk.Lines()) + [previous.line]
      ensures chunk.Constants() == old(chunk.Constants())
    {
      chunk.Write(b, previous.line);
    }

    /** emit_bytes (no caller in this version). */
    method EmitBytes(b1: byte, b2: byte)
      requires Writable()
      modifies chunk.Repr
      ensures Writable() && fresh(chunk.Repr - old(chunk.Repr))
      ensures chunk.Code() == old(chunk.Code()) + [b1, b2]
      ensures chunk.Lines() == old(chunk.Lines()) + [previous.line, previous.line]
      ensures chunk.Constants() == old(chunk.Constants())
    {
      EmitByte(b1);
      EmitByte(b2);
    }

    /** emit_return */
    method EmitReturn()
      requires Writable()
      modifies chunk.Repr
      ensures Writable() && fresh(chunk.Repr - old(chunk.Repr))
      ensures chunk.Code() == old(chunk.Code()) + [OpReturn]
      ensures chunk.Lines() == old(chunk.Lines()) + [previous.line]
      ensures chunk.Constants() == old(chunk.Constants())
    {
      EmitByte(OpReturn);
    }

    /** end_compiler */
    method EndCompiler()
      requires Writable()
      modifies chunk.Repr
      ensures Writable() && fresh(chunk.Repr - old(chunk.Repr))
      ensures chunk.Code() == old(chunk.Code()) + [OpReturn]
      ensures chunk.Lines() == old(chunk.Lines()) + [previous.line]
      ensures chunk.Constants() == old(chunk.Constants())
    {
      EmitReturn();
    }

    /** The set-up section of compile: a fresh scanner over `source`,
        `chunk` as the chunk being compiled, both error flags cleared. */
    method Begin(source: seq<char>, chunk: Chunk)
      requires IsCString(source) && chunk.Valid()
      modifies this
      ensures this.chunk == chunk && scanner != null && fresh(scanner)
      ensures scanner.Valid() && scanner.source == source
      ensures State() == Reset(old(current), old(previous), old(diagnostics))
    {
      scanner := new Scanner.Init(source);
      this.chunk := chunk;
      hadError := false;
      panicMode := false;
    }

    /** The parse section of compile: prime the parser with the first
        token, then demand the end of the input (this version parses no
        expression in between). */
    method Parse()
      requires scanner != null && scanner.Valid() && State() == Reset(current, previous, diagnostics)
      modifies this, scanner
      ensures scanner == old(scanner) && chunk == old(chunk) && scanner.Valid()
      ensures State() == CompileState(scanner.source, Reset(old(current), old(previous), old(diagnostics)))
    {
      Advance();
      Consume(Eof, ExpectedEnd);
    }

    /** compile: scan `source`, require it to hold no token, append
        OP_RETURN under the previous token's line, and answer whether no
        error was reported. CompileStateMeaning says what the final state
        holds. */
    method Compile(source: seq<char>, chunk: Chunk) returns (ok: bool)
      requires IsCString(source) && chunk.Valid()
      modifies this, chunk.Repr
      ensures this.chunk == chunk && chunk.Valid() && fresh(chunk.Repr - old(chunk.Repr))
      ensures scanner != null && scanner.source == source
      ensures State() == CompileState(source, Reset(old(current), old(previous), old(diagnostics)))
      ensures ok == !hadError
      ensures chunk.Code() == old(chunk.Code()) + [OpReturn] && chunk.Lines() == old(chunk.Lines()) + [previous.line]
      ensures chunk.Constants() == old(chunk.Constants())
    {
      Begin(source, chunk);
      Parse();
      EndCompiler();
      ok := !hadError;
    }
  }
}
