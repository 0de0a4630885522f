// The lexer (src/scanner.c): a cursor over a NUL-terminated source that
// hands out one token per call and counts lines.
module Scanner {

  /** A C string: the characters up to and including the one NUL, which
      ends it. */
  predicate IsCString(src: seq<char>)
  {
    |src| > 0 && src[|src| - 1] == '\0' && forall i :: 0 <= i < |src| - 1 ==> src[i] != '\0'
  }

  datatype TokenType =
    | LeftParen | RightParen | LeftBrace | RightBrace
    | Semicolon | Comma | Dot | Minus | Plus | Slash | Star
    | Bang | BangEqual | Equal | EqualEqual
    | Greater | GreaterEqual | Less | LessEqual
    | Identifier | StringLiteral | NumberLiteral
    | And | Class | Else | False | For | Fun | If | Nil | Or
    | Print | Return | Super | This | True | Var | While
    | Error | Eof

  /** Where a token's text lives: a span of the source, or, for an error
      token, the message text itself. */
  datatype Lexeme = Span(start: nat, length: nat) | Message(text: string)

  datatype Token = Token(kind: TokenType, lexeme: Lexeme, line: nat)

  /** A scanner state: the cursor position and the line counter. */
  datatype Cursor = Cursor(pos: nat, line: nat)

  /** What one call of scan_token produces: the token and the scanner's
      `start`, `current` and `line` afterwards. */
  datatype Scanned = Scanned(token: Token, start: nat, current: nat, line: nat)

  const UnexpectedCharacter := "Unexpected character"
  const UnterminatedString := "Unterminated string"

  // ---------------------------------------------------------------------
  // Character classes

  /** is_alpha as written: the upper-case test compares with 'Z' twice. */
  predicate IsAlpha(c: char)
  {
    (c >= 'a' && c <= 'z') || (c >= 'A' && c >= 'Z') || c == '_'
  }

  predicate IsDigit(c: char)
  {
    c >= '0' && c <= '9'
  }

  predicate IsAlphanumeric(c: char)
  {
    IsAlpha(c) || IsDigit(c)
  }

  /** What is_alpha accepts is exactly the characters from 'Z' up: all of
      'a'-'z', '_', '{' and '}', but none of 'A'-'Y'. */
  lemma IsAlphaIsAtLeastZ(c: char)
    ensures IsAlpha(c) <==> c >= 'Z'
  {
  }

  // ---------------------------------------------------------------------
  // Reference definitions of what each scanning loop consumes

  function NewlineCount(w: seq<char>): nat
  {
    if w == [] then 0
    else NewlineCount(w[..|w| - 1]) + (if w[|w| - 1] == '\n' then 1 else 0)
  }

  lemma {:induction false} NewlineCountConcat(a: seq<char>, b: seq<char>)
    ensures NewlineCount(a + b) == NewlineCount(a) + NewlineCount(b)
    decreases |b|
  {
    if b != [] {
      assert (a + b)[..|a + b| - 1] == a + b[..|b| - 1];
      NewlineCountConcat(a, b[..|b| - 1]);
    } else {
      assert a + b == a;
    }
  }

  /** Splitting a span of the source at one character. */
  lemma NewlineCountStep(src: seq<char>, i: nat, j: nat)
    requires i < j <= |src|
    ensures NewlineCount(src[i..j]) == (if src[i] == '\n' then 1 else 0) + NewlineCount(src[i + 1..j])
  {
    assert src[i..j] == [src[i]] + src[i + 1..j];
    NewlineCountConcat([src[i]], src[i + 1..j]);
    assert [src[i]][..0] == [];
  }

  lemma NewlineCountExtend(src: seq<char>, i: nat, j: nat)
    requires i <= j < |src|
    ensures NewlineCount(src[i..j + 1]) == NewlineCount(src[i..j]) + (if src[j] == '\n' then 1 else 0)
  {
    assert src[i..j + 1][..j - i] == src[i..j];
  }

  /** The end of the run of identifier characters starting at `i`. */
  function IdentEnd(src: seq<char>, i: nat): (j: nat)
    requires IsCString(src) && i < |src|
    ensures i <= j < |src| && !IsAlphanumeric(src[j])
    decreases |src| - i
  {
    if IsAlphanumeric(src[i]) then IdentEnd(src, i + 1) else i
  }

  /** The identifier run is maximal: all identifier characters, and the
      character after it is not one. */
  lemma {:induction false} IdentEndIsLongestRun(src: seq<char>, i: nat)
    requires IsCString(src) && i < |src|
    ensures forall k :: i <= k < IdentEnd(src, i) ==> IsAlphanumeric(src[k])
    decreases |src| - i
  {
    if IsAlphanumeric(src[i]) {
      IdentEndIsLongestRun(src, i + 1);
    }
  }

  /** The end of the run of digits starting at `i`. */
  function DigitsEnd(src: seq<char>, i: nat): (j: nat)
    requires IsCString(src) && i < |src|
    ensures i <= j < |src| && !IsDigit(src[j])
    decreases |src| - i
  {
    if IsDigit(src[i]) then DigitsEnd(src, i + 1) else i
  }

  lemma {:induction false} DigitsEndIsLongestRun(src: seq<char>, i: nat)
    requires IsCString(src) && i < |src|
    ensures AllDigits(src, i, DigitsEnd(src, i))
    decreases |src| - i
  {
    if IsDigit(src[i]) {
      DigitsEndIsLongestRun(src, i + 1);
    }
  }

  /** `src[i..j]` is digits, or digits, a '.' and at least one digit, and
      the literal can not be made longer: no digit follows, nor a '.' with
      a digit after it when there is no fraction yet. */
  predicate AllDigits(src: seq<char>, i: nat, j: nat)
    requires i <= j <= |src|
  {
    forall k :: i <= k < j ==> IsDigit(src[k])
  }

  predicate NumberShape(src: seq<char>, i: nat, j: nat)
    requires IsCString(src) && i <= j < |src|
  {
    && !IsDigit(src[j])
    && ((AllDigits(src, i, j) && !(src[j] == '.' && IsDigit(src[j + 1])))
        || (exists d: nat :: i <= d && d + 1 < j && src[d] == '.' && AllDigits(src, i, d) && AllDigits(src, d + 1, j)))
  }

  /** A digit in front of a number literal keeps its shape. */
  lemma NumberShapeExtend(src: seq<char>, i: nat, j: nat)
    requires IsCString(src) && i < j < |src| && IsDigit(src[i]) && NumberShape(src, i + 1, j)
    ensures NumberShape(src, i, j)
  {
    if !(AllDigits(src, i + 1, j) && !(src[j] == '.' && IsDigit(src[j + 1]))) {
      var d: nat :| i + 1 <= d && d + 1 < j && src[d] == '.' && AllDigits(src, i + 1, d) && AllDigits(src, d + 1, j);
      assert AllDigits(src, i, d);
    }
  }

  /** The rest of a number literal whose first digit is just before `i`:
      more digits, then a '.' and digits only when a digit follows the '.'. */
  function NumberEnd(src: seq<char>, i: nat): (j: nat)
    requires IsCString(src) && i < |src|
    ensures i <= j < |src| && !IsDigit(src[j])
  {
    var e := DigitsEnd(src, i);
    if src[e] == '.' && IsDigit(src[e + 1]) then DigitsEnd(src, e + 1) else e
  }

  lemma NumberEndHasNumberShape(src: seq<char>, i: nat)
    requires IsCString(src) && i < |src|
    ensures NumberShape(src, i, NumberEnd(src, i))
  {
    var e := DigitsEnd(src, i);
    DigitsEndIsLongestRun(src, i);
    if src[e] == '.' && IsDigit(src[e + 1]) {
      DigitsEndIsLongestRun(src, e + 1);
    }
  }

  /** Where a string body starting at `i` stops: at the closing quote, or at
      the NUL when there is none. */
  function StringEnd(src: seq<char>, i: nat, terminator: char): (j: nat)
    requires IsCString(src) && i < |src|
    ensures i <= j < |src| && (src[j] == terminator || src[j] == '\0')
    decreases |src| - i
  {
    if src[i] == terminator || src[i] == '\0' then i else StringEnd(src, i + 1, terminator)
  }

  /** A string body holds neither its quote nor a NUL. */
  lemma {:induction false} StringEndIsFirstQuote(src: seq<char>, i: nat, terminator: char)
    requires IsCString(src) && i < |src|
    ensures forall k :: i <= k < StringEnd(src, i, terminator) ==> src[k] != terminator && src[k] != '\0'
    decreases |src| - i
  {
    if !(src[i] == terminator || src[i] == '\0') {
      StringEndIsFirstQuote(src, i + 1, terminator);
    }
  }

  /** Where a `//` comment starting at `i` stops: at, not past, the next
      newline or the NUL. */
  function CommentEnd(src: seq<char>, i: nat): (j: nat)
    requires IsCString(src) && i < |src|
    ensures i <= j < |src| && (src[j] == '\n' || src[j] == '\0')
    decreases |src| - i
  {
    if src[i] == '\n' || src[i] == '\0' then i else CommentEnd(src, i + 1)
  }

  /** A comment holds no newline. */
  lemma {:induction false} CommentEndIsFirstNewline(src: seq<char>, i: nat)
    requires IsCString(src) && i < |src|
    ensures forall k :: i <= k < CommentEnd(src, i) ==> src[k] != '\n'
    decreases |src| - i
  {
    if !(src[i] == '\n' || src[i] == '\0') {
      CommentEndIsFirstNewline(src, i + 1);
    }
  }

  /** skip_whitespace_and_comments: spaces, tabs, carriage returns and
      newlines are skipped, one line per newline; a `//` comment is
      skipped up to its newline, and then skipping stops there. */
  function SkipWs(src: seq<char>, i: nat, line: nat): (r: Cursor)
    requires IsCString(src) && i < |src|
    ensures i <= r.pos < |src| && line <= r.line
    decreases |src| - i
  {
    var c := src[i];
    if c == '\n' || c == ' ' || c == '\r' || c == '\t' then
      SkipWs(src, i + 1, if c == '\n' then line + 1 else line)
    else if c == '/' && src[i + 1] == '/' then
      Cursor(CommentEnd(src, i), line)
    else
      Cursor(i, line)
  }

  /** Skipping counts one line per newline it passes, and stops at a
      character that is no blank and does not open a comment, or at the
      newline that ends a comment. */
  lemma {:induction false} SkipWsStops(src: seq<char>, i: nat, line: nat)
    requires IsCString(src) && i < |src|
    ensures var r := SkipWs(src, i, line);
      && r.line == line + NewlineCount(src[i..r.pos])
      && src[r.pos] != ' ' && src[r.pos] != '\r' && src[r.pos] != '\t'
      && (src[r.pos] == '/' ==> src[r.pos + 1] != '/')
      && (src[r.pos] == '\n' ==> exists k :: i <= k < r.pos && src[k] == '/' && src[k + 1] == '/')
    decreases |src| - i
  {
    var c := src[i];
    if c == '\n' || c == ' ' || c == '\r' || c == '\t' {
      SkipWsStops(src, i + 1, if c == '\n' then line + 1 else line);
      NewlineCountStep(src, i, SkipWs(src, i, line).pos);
    } else if c == '/' && src[i + 1] == '/' {
      CommentEndIsFirstNewline(src, i);
      NewlineCountNone(src, i, CommentEnd(src, i));
    } else {
      assert src[i..i] == [];
    }
  }

  lemma {:induction false} NewlineCountNone(src: seq<char>, i: nat, j: nat)
    requires i <= j <= |src|
    requires forall k :: i <= k < j ==> src[k] != '\n'
    ensures NewlineCount(src[i..j]) == 0
    decreases j - i
  {
    if i < j {
      NewlineCountExtend(src, i, j - 1);
      NewlineCountNone(src, i, j - 1);
    }
  }

  // ---------------------------------------------------------------------
  // Keywords

  /** check_keyword: the lexeme is the keyword exactly when it has the
      keyword's length and its tail from `start` on is `rest`. */
  function CheckKeyword(lexeme: seq<char>, start: nat, rest: seq<char>, kind: TokenType): (r: TokenType)
    requires start <= |lexeme|
  {
    if |lexeme| == start + |rest| && lexeme[start..] == rest then kind else Identifier
  }

  /** check_keyword answers the keyword exactly when the lexeme is its
      first `start` characters followed by `rest`, and Identifier otherwise. */
  lemma CheckKeywordMatchesWhole(lexeme: seq<char>, start: nat, rest: seq<char>, kind: TokenType)
    requires start <= |lexeme| && kind != Identifier
    ensures var r := CheckKeyword(lexeme, start, rest, kind);
      && (r == kind || r == Identifier)
      && (r == kind <==> lexeme == lexeme[..start] + rest)
  {
    if lexeme == lexeme[..start] + rest {
      assert lexeme[start..] == rest;
    }
  }

  /** A leaf of identifier_type's trie: either no keyword starts this way,
      or the offset from which check_keyword compares, the rest of the
      keyword it compares against, and the keyword it answers. */
  datatype TrieLeaf = NoKeyword | Candidate(start: nat, rest: string, kind: TokenType)

  /** identifier_type's switch on the first one or two characters. */
  function TrieLeafOf(lexeme: seq<char>): (leaf: TrieLeaf)
    requires |lexeme| >= 1
    ensures leaf.Candidate? ==> 1 <= leaf.start <= |lexeme| && leaf.kind != Identifier
  {
    var c := lexeme[0];
    if c == 'a' then Candidate(1, "nd", And)
    else if c == 'c' then Candidate(1, "lass", Class)
    else if c == 'e' then Candidate(1, "lse", Else)
    else if c == 'f' then
      if |lexeme| > 1 then
        if lexeme[1] == 'a' then Candidate(2, "lse", False)
        else if lexeme[1] == 'o' then Candidate(2, "r", For)
        else if lexeme[1] == 'u' then Candidate(2, "n", Fun)
        else NoKeyword
      else NoKeyword
    else if c == 'i' then Candidate(1, "f", If)
    else if c == 'n' then Candidate(1, "il", Nil)
    else if c == 'o' then Candidate(1, "r", Or)
    else if c == 'p' then Candidate(1, "rint", Print)
    else if c == 'r' then Candidate(1, "eturn", Return)
    else if c == 's' then Candidate(1, "uper", Super)
    else if c == 't' then
      if |lexeme| > 1 then
        if lexeme[1] == 'h' then Candidate(2, "is", This)
        else if lexeme[1] == 'r' then Candidate(2, "ue", True)
        else NoKeyword
      else NoKeyword
    else if c == 'v' then Candidate(1, "ar", Var)
    else if c == 'w' then Candidate(1, "hile", While)
    else NoKeyword
  }

  /** identifier_type: walk the trie, then let check_keyword compare the
      rest of the lexeme. */
  function IdentifierType(lexeme: seq<char>): (kind: TokenType)
    requires |lexeme| >= 1
    ensures kind != Eof && kind != Error
  {
    match TrieLeafOf(lexeme)
    case NoKeyword => Identifier
    case Candidate(start, rest, kind) => CheckKeyword(lexeme, start, rest, kind)
  }

  /** The language's keywords, as a plain table. */
  function Keyword(word: seq<char>): TokenType
  {
    if word == "and" then And
    else if word == "class" then Class
    else if word == "else" then Else
    else if word == "false" then False
    else if word == "for" then For
    else if word == "fun" then Fun
    else if word == "if" then If
    else if word == "nil" then Nil
    else if word == "or" then Or
    else if word == "print" then Print
    else if word == "return" then Return
    else if word == "super" then Super
    else if word == "this" then This
    else if word == "true" then True
    else if word == "var" then Var
    else if word == "while" then While
    else Identifier
  }

  /** The table, restricted to the words with one first letter: only the
      keywords that start with it can match. */
  lemma KeywordsOnA(lexeme: seq<char>)
    requires |lexeme| >= 1 && lexeme[0] == 'a'
    ensures Keyword(lexeme) == (if lexeme == "and" then And else Identifier)
  {
  }

  lemma KeywordsOnC(lexeme: seq<char>)
    requires |lexeme| >= 1 && lexeme[0] == 'c'
    ensures Keyword(lexeme) == (if lexeme == "class" then Class else Identifier)
  {
  }

  lemma KeywordsOnE(lexeme: seq<char>)
    requires |lexeme| >= 1 && lexeme[0] == 'e'
    ensures Keyword(lexeme) == (if lexeme == "else" then Else else Identifier)
  {
  }

  lemma KeywordsOnF(lexeme: seq<char>)
    requires |lexeme| >= 1 && lexeme[0] == 'f'
    ensures Keyword(lexeme) == (if lexeme == "false" then False else if lexeme == "for" then For else if lexeme == "fun" then Fun else Identifier)
  {
  }

  lemma KeywordsOnI(lexeme: seq<char>)
    requires |lexeme| >= 1 && lexeme[0] == 'i'
    ensures Keyword(lexeme) == (if lexeme == "if" then If else Identifier)
  {
  }

  lemma KeywordsOnN(lexeme: seq<char>)
    requires |lexeme| >= 1 && lexeme[0] == 'n'
    ensures Keyword(lexeme) == (if lexeme == "nil" then Nil else Identifier)
  {
  }

  lemma KeywordsOnO(lexeme: seq<char>)
    requires |lexeme| >= 1 && lexeme[0] == 'o'
    ensures Keyword(lexeme) == (if lexeme == "or" then Or else Identifier)
  {
  }

  lemma KeywordsOnP(lexeme: seq<char>)
    requires |lexeme| >= 1 && lexeme[0] == 'p'
    ensures Keyword(lexeme) == (if lexeme == "print" then Print else Identifier)
  {
  }

  lemma KeywordsOnR(lexeme: seq<char>)
    requires |lexeme| >= 1 && lexeme[0] == 'r'
    ensures Keyword(lexeme) == (if lexeme == "return" then Return else Identifier)
  {
  }

  lemma KeywordsOnS(lexeme: seq<char>)
    requires |lexeme| >= 1 && lexeme[0] == 's'
    ensures Keyword(lexeme) == (if lexeme == "super" then Super else Identifier)
  {
  }

  lemma KeywordsOnT(lexeme: seq<char>)
    requires |lexeme| >= 1 && lexeme[0] == 't'
    ensures Keyword(lexeme) == (if lexeme == "this" then This else if lexeme == "true" then True else Identifier)
  {
  }

  lemma KeywordsOnV(lexeme: seq<char>)
    requires |lexeme| >= 1 && lexeme[0] == 'v'
    ensures Keyword(lexeme) == (if lexeme == "var" then Var else Identifier)
  {
  }

  lemma KeywordsOnW(lexeme: seq<char>)
    requires |lexeme| >= 1 && lexeme[0] == 'w'
    ensures Keyword(lexeme) == (if lexeme == "while" then While else Identifier)
  {
  }

  /** The trie and the table agree, one first letter at a time. */
  lemma TrieAgreesOnA(lexeme: seq<char>)
    requires |lexeme| >= 1 && lexeme[0] == 'a'
    ensures IdentifierType(lexeme) == Keyword(lexeme)
  {
    KeywordsOnA(lexeme);
  }

  lemma TrieAgreesOnC(lexeme: seq<char>)
    requires |lexeme| >= 1 && lexeme[0] == 'c'
    ensures IdentifierType(lexeme) == Keyword(lexeme)
  {
    KeywordsOnC(lexeme);
  }

  lemma TrieAgreesOnE(lexeme: seq<char>)
    requires |lexeme| >= 1 && lexeme[0] == 'e'
    ensures IdentifierType(lexeme) == Keyword(lexeme)
  {
    KeywordsOnE(lexeme);
  }

  lemma TrieAgreesOnF(lexeme: seq<char>)
    requires |lexeme| >= 1 && lexeme[0] == 'f'
    ensures IdentifierType(lexeme) == Keyword(lexeme)
  {
    KeywordsOnF(lexeme);
  }

  lemma TrieAgreesOnI(lexeme: seq<char>)
    requires |lexeme| >= 1 && lexeme[0] == 'i'
    ensures IdentifierType(lexeme) == Keyword(lexeme)
  {
    KeywordsOnI(lexeme);
  }

  lemma TrieAgreesOnN(lexeme: seq<char>)
    requires |lexeme| >= 1 && lexeme[0] == 'n'
    ensures IdentifierType(lexeme) == Keyword(lexeme)
  {
    KeywordsOnN(lexeme);
  }

  lemma TrieAgreesOnO(lexeme: seq<char>)
    requires |lexeme| >= 1 && lexeme[0] == 'o'
    ensures IdentifierType(lexeme) == Keyword(lexeme)
  {
    KeywordsOnO(lexeme);
  }

  lemma TrieAgreesOnP(lexeme: seq<char>)
    requires |lexeme| >= 1 && lexeme[0] == 'p'
    ensures IdentifierType(lexeme) == Keyword(lexeme)
  {
    KeywordsOnP(lexeme);
  }

  lemma TrieAgreesOnR(lexeme: seq<char>)
    requires |lexeme| >= 1 && lexeme[0] == 'r'
    ensures IdentifierType(lexeme) == Keyword(lexeme)
  {
    KeywordsOnR(lexeme);
  }

  lemma TrieAgreesOnS(lexeme: seq<char>)
    requires |lexeme| >= 1 && lexeme[0] == 's'
    ensures IdentifierType(lexeme) == Keyword(lexeme)
  {
    KeywordsOnS(lexeme);
  }

  lemma TrieAgreesOnT(lexeme: seq<char>)
    requires |lexeme| >= 1 && lexeme[0] == 't'
    ensures IdentifierType(lexeme) == Keyword(lexeme)
  {
    KeywordsOnT(lexeme);
  }

  lemma TrieAgreesOnV(lexeme: seq<char>)
    requires |lexeme| >= 1 && lexeme[0] == 'v'
    ensures IdentifierType(lexeme) == Keyword(lexeme)
  {
    KeywordsOnV(lexeme);
  }

  lemma TrieAgreesOnW(lexeme: seq<char>)
    requires |lexeme| >= 1 && lexeme[0] == 'w'
    ensures IdentifierType(lexeme) == Keyword(lexeme)
  {
    KeywordsOnW(lexeme);
  }

  /** No keyword starts with any other letter. */
  lemma TrieAgreesElsewhere(lexeme: seq<char>)
    requires |lexeme| >= 1
    requires lexeme[0] != 'a' && lexeme[0] != 'c' && lexeme[0] != 'e' && lexeme[0] != 'f' && lexeme[0] != 'i' && lexeme[0] != 'n' && lexeme[0] != 'o' && lexeme[0] != 'p' && lexeme[0] != 'r' && lexeme[0] != 's' && lexeme[0] != 't' && lexeme[0] != 'v' && lexeme[0] != 'w'
    ensures IdentifierType(lexeme) == Identifier == Keyword(lexeme)
  {
  }

  /** The trie recognises exactly the keyword table: every keyword, and
      nothing else (a longer or shorter word with a keyword's prefix is an
      identifier). */
  lemma IdentifierTypeIsKeywordTable(lexeme: seq<char>)
    requires |lexeme| >= 1
    ensures IdentifierType(lexeme) == Keyword(lexeme)
  {
    var c := lexeme[0];
    if c == 'a' {
      TrieAgreesOnA(lexeme);
    } else if c == 'c' {
      TrieAgreesOnC(lexeme);
    } else if c == 'e' {
      TrieAgreesOnE(lexeme);
    } else if c == 'f' {
      TrieAgreesOnF(lexeme);
    } else if c == 'i' {
      TrieAgreesOnI(lexeme);
    } else if c == 'n' {
      TrieAgreesOnN(lexeme);
    } else if c == 'o' {
      TrieAgreesOnO(lexeme);
    } else if c == 'p' {
      TrieAgreesOnP(lexeme);
    } else if c == 'r' {
      TrieAgreesOnR(lexeme);
    } else if c == 's' {
      TrieAgreesOnS(lexeme);
    } else if c == 't' {
      TrieAgreesOnT(lexeme);
    } else if c == 'v' {
      TrieAgreesOnV(lexeme);
    } else if c == 'w' {
      TrieAgreesOnW(lexeme);
    } else {
      TrieAgreesElsewhere(lexeme);
    }
  }

  // ---------------------------------------------------------------------
  // One call of scan_token

  /** The one- and two-character punctuation tokens of scan_token's switch,
      without the ones is_alpha claims first. */
  function Punctuation(c: char): TokenType
  {
    if c == '(' then LeftParen
    else if c == ')' then RightParen
    else if c == '{' then LeftBrace
    else if c == '}' then RightBrace
    else if c == ';' then Semicolon
    else if c == ',' then Comma
    else if c == '.' then Dot
    else if c == '-' then Minus
    else if c == '+' then Plus
    else if c == '/' then Slash
    else if c == '*' then Star
    else Error
  }

  /** The token that `c` followed by '=' makes, for '!', '=', '>' and '<'. */
  function WithEqual(c: char): TokenType
  {
    if c == '!' then BangEqual
    else if c == '=' then EqualEqual
    else if c == '>' then GreaterEqual
    else LessEqual
  }

  function WithoutEqual(c: char): TokenType
  {
    if c == '!' then Bang
    else if c == '=' then Equal
    else if c == '>' then Greater
    else Less
  }

  predicate IsOperator(c: char)
  {
    c == '!' || c == '=' || c == '>' || c == '<'
  }

  predicate IsQuote(c: char)
  {
    c == '"' || c == '\''
  }

  /** scan_token, from the cursor `cur` and line counter `line`: skip
      blanks and comments, then scan one token from there. */
  function Scan(src: seq<char>, cur: nat, line: nat): (r: Scanned)
    requires IsCString(src) && cur < |src|
    ensures cur <= r.start <= r.current < |src| && line <= r.line
    ensures r.token.kind == Eof <==> src[r.start] == '\0'
    ensures r.token.kind == Eof ==> r.current == r.start
    ensures r.token.kind != Eof ==> r.start < r.current
    ensures r.token.kind != Error ==> r.token.lexeme == Span(r.start, r.current - r.start)
    ensures r.token.kind == Error ==> r.token.lexeme.Message?
    ensures r.token.line == r.line
  {
    var skipped := SkipWs(src, cur, line);
    ScanFrom(src, skipped.pos, skipped.line)
  }

  /** identifier: the longest run of identifier characters from `s`,
      classified by the keyword trie. */
  function IdentifierAt(src: seq<char>, s: nat, l: nat): (r: Scanned)
    requires IsCString(src) && s < |src| && IsAlpha(src[s])
    ensures s == r.start < r.current < |src| && r.line == l
    ensures r.token.kind != Eof && r.token.kind != Error
    ensures r.token.lexeme == Span(s, r.current - s) && r.token.line == l
  {
    var e := IdentEnd(src, s + 1);
    Scanned(Token(IdentifierType(src[s..e]), Span(s, e - s), l), s, e, l)
  }

  /** number: digits, and a fraction when a digit follows the '.'. */
  function NumberAt(src: seq<char>, s: nat, l: nat): (r: Scanned)
    requires IsCString(src) && s < |src| && IsDigit(src[s])
    ensures s == r.start < r.current < |src| && r.line == l
    ensures r.token == Token(NumberLiteral, Span(s, r.current - s), l)
  {
    var e := NumberEnd(src, s + 1);
    Scanned(Token(NumberLiteral, Span(s, e - s), l), s, e, l)
  }

  /** string: up to the quote that opened it, counting newlines; at the
      NUL instead, the "Unterminated string" error. */
  function StringAt(src: seq<char>, s: nat, l: nat): (r: Scanned)
    requires IsCString(src) && s < |src| && IsQuote(src[s])
    ensures s == r.start < r.current < |src| && l <= r.line && r.token.line == r.line
    ensures r.token.kind == StringLiteral || r.token == Token(Error, Message(UnterminatedString), r.line)
    ensures r.token.kind == StringLiteral ==> r.token.lexeme == Span(s, r.current - s)
  {
    var n := s + 1;
    var e := StringEnd(src, n, src[s]);
    var l2 := l + NewlineCount(src[n..e]);
    if src[e] == '\0' then Scanned(Token(Error, Message(UnterminatedString), l2), s, e, l2)
    else Scanned(Token(StringLiteral, Span(s, e + 1 - s), l2), s, e + 1, l2)
  }

  /** The token that starts at `s`, on line `l`. */
  function ScanFrom(src: seq<char>, s: nat, l: nat): (r: Scanned)
    requires IsCString(src) && s < |src|
    ensures s == r.start <= r.current < |src| && l <= r.line
    ensures r.token.kind == Eof <==> src[r.start] == '\0'
    ensures r.token.kind == Eof ==> r.current == r.start
    ensures r.token.kind != Eof ==> r.start < r.current
    ensures r.token.kind != Error ==> r.token.lexeme == Span(r.start, r.current - r.start)
    ensures r.token.kind == Error ==> r.token.lexeme.Message?
    ensures r.token.line == r.line
  {
    if src[s] == '\0' then
      Scanned(Token(Eof, Span(s, 0), l), s, s, l)
    else
      var c := src[s];
      var n := s + 1;
      if IsAlpha(c) then IdentifierAt(src, s, l)
      else if IsDigit(c) then NumberAt(src, s, l)
      else if Punctuation(c) != Error then
        Scanned(Token(Punctuation(c), Span(s, 1), l), s, n, l)
      else if IsOperator(c) then
        if src[n] == '=' then Scanned(Token(WithEqual(c), Span(s, 2), l), s, n + 1, l)
        else Scanned(Token(WithoutEqual(c), Span(s, 1), l), s, n, l)
      else if IsQuote(c) then StringAt(src, s, l)
      else
        Scanned(Token(Error, Message(UnexpectedCharacter), l), s, n, l)
  }

  /** At the NUL, scan_token answers an empty EOF token and leaves the
      cursor where it is, so every later call answers EOF again. */
  lemma ScanEofIsFixpoint(src: seq<char>, cur: nat, line: nat)
    requires IsCString(src) && cur < |src|
    requires Scan(src, cur, line).token.kind == Eof
    ensures var r := Scan(src, cur, line);
      r.token.lexeme == Span(r.start, 0) && Scan(src, r.current, r.line) == r
  {
  }

  /** The cursor never passes the NUL, and every token but EOF moves it. */
  lemma ScanProgress(src: seq<char>, cur: nat, line: nat)
    requires IsCString(src) && cur < |src|
    ensures var r := Scan(src, cur, line);
      r.current < |src| && (r.token.kind != Eof ==> cur < r.current)
  {
  }

  /** is_alpha claims '{' and '}' before the switch sees them, so the brace
      tokens are never produced. */
  lemma ScanNeverBrace(src: seq<char>, cur: nat, line: nat)
    requires IsCString(src) && cur < |src|
    ensures Scan(src, cur, line).token.kind != LeftBrace
    ensures Scan(src, cur, line).token.kind != RightBrace
  {
    var s := SkipWs(src, cur, line).pos;
    if src[s] != '\0' && !IsAlpha(src[s]) && !IsDigit(src[s]) {
      assert src[s] != '{' && src[s] != '}';
    }
  }

  /** An identifier is the longest run of identifier characters, and it is
      a keyword exactly when the whole run is in the keyword table. */
  lemma IdentifierAtShape(src: seq<char>, s: nat, l: nat)
    requires IsCString(src) && s < |src| && IsAlpha(src[s])
    ensures var r := IdentifierAt(src, s, l);
      && r.token.kind == Keyword(src[s..r.current])
      && (forall k :: s <= k < r.current ==> IsAlphanumeric(src[k]))
      && !IsAlphanumeric(src[r.current])
  {
    IdentEndIsLongestRun(src, s + 1);
    IdentifierTypeIsKeywordTable(src[s..IdentEnd(src, s + 1)]);
  }

  /** scan_token hands every character is_alpha accepts to identifier. */
  lemma ScanIdentifier(src: seq<char>, cur: nat, line: nat)
    requires IsCString(src) && cur < |src|
    requires var s := SkipWs(src, cur, line).pos; src[s] != '\0' && IsAlpha(src[s])
    ensures var skipped := SkipWs(src, cur, line);
      Scan(src, cur, line) == IdentifierAt(src, skipped.pos, skipped.line)
  {
  }

  /** A number is digits, then a '.' and more digits only when a digit
      follows the '.'; there is no exponent. */
  lemma NumberAtShape(src: seq<char>, s: nat, l: nat)
    requires IsCString(src) && s < |src| && IsDigit(src[s])
    ensures NumberShape(src, s, NumberAt(src, s, l).current)
  {
    NumberEndHasNumberShape(src, s + 1);
    NumberShapeExtend(src, s, NumberEnd(src, s + 1));
  }

  /** scan_token hands a digit to number. */
  lemma ScanNumber(src: seq<char>, cur: nat, line: nat)
    requires IsCString(src) && cur < |src|
    requires var s := SkipWs(src, cur, line).pos; IsDigit(src[s])
    ensures var skipped := SkipWs(src, cur, line);
      Scan(src, cur, line) == NumberAt(src, skipped.pos, skipped.line)
  {
    var s := SkipWs(src, cur, line).pos;
    assert !IsAlpha(src[s]);
  }

  /** A string runs to the same quote that opened it and its lexeme holds
      both quotes; each newline inside counts a line. Without a closing
      quote the token is the "Unterminated string" error, at the NUL. */
  lemma StringAtShape(src: seq<char>, s: nat, l: nat)
    requires IsCString(src) && s < |src| && IsQuote(src[s])
    ensures var r := StringAt(src, s, l);
      var q := src[s];
      && (forall k :: s < k < r.current - 1 ==> src[k] != q && src[k] != '\0')
      && (r.token.kind == StringLiteral ==>
            src[r.current - 1] == q && r.current - 1 > s &&
            r.line == l + NewlineCount(src[s + 1..r.current - 1]))
      && (r.token.kind != StringLiteral ==>
            src[r.current] == '\0' && r.line == l + NewlineCount(src[s + 1..r.current]))
  {
    StringEndIsFirstQuote(src, s + 1, src[s]);
  }

  /** scan_token hands a quote to string. */
  lemma ScanString(src: seq<char>, cur: nat, line: nat)
    requires IsCString(src) && cur < |src|
    requires var s := SkipWs(src, cur, line).pos; IsQuote(src[s])
    ensures var skipped := SkipWs(src, cur, line);
      Scan(src, cur, line) == StringAt(src, skipped.pos, skipped.line)
  {
    var s := SkipWs(src, cur, line).pos;
    assert !IsAlpha(src[s]) && !IsDigit(src[s]) && Punctuation(src[s]) == Error && !IsOperator(src[s]);
  }

  /** '!', '=', '>' and '<' take a following '=' into a two-character
      token, and otherwise make a one-character token. */
  lemma ScanOperator(src: seq<char>, cur: nat, line: nat)
    requires IsCString(src) && cur < |src|
    requires var s := SkipWs(src, cur, line).pos; IsOperator(src[s])
    ensures var r := Scan(src, cur, line);
      var c := src[r.start];
      if src[r.start + 1] == '=' then r.token.kind == WithEqual(c) && r.current == r.start + 2
      else r.token.kind == WithoutEqual(c) && r.current == r.start + 1
  {
    var s := SkipWs(src, cur, line).pos;
    assert !IsAlpha(src[s]) && !IsDigit(src[s]) && Punctuation(src[s]) == Error;
  }

  /** Any other character after the skip falls through the switch: the
      "Unexpected character" error, which consumes that one character. */
  lemma ScanUnexpected(src: seq<char>, cur: nat, line: nat)
    requires IsCString(src) && cur < |src|
    requires var c := src[SkipWs(src, cur, line).pos];
      c != '\0' && !IsAlpha(c) && !IsDigit(c) && Punctuation(c) == Error && !IsOperator(c) && !IsQuote(c)
    ensures var sk := SkipWs(src, cur, line);
      Scan(src, cur, line) == Scanned(Token(Error, Message(UnexpectedCharacter), sk.line), sk.pos, sk.pos + 1, sk.line)
  {
  }

  /** An upper-case letter below 'Z' opens no identifier: "Fo" scans to
      the "Unexpected character" error at the 'F'. */
  lemma UpperCaseIsUnexpected()
    ensures Scan("Fo\0", 0, 1) == Scanned(Token(Error, Message(UnexpectedCharacter), 1), 0, 1, 1)
  {
    var src := "Fo\0";
    assert SkipWs(src, 0, 1).pos == 0 && SkipWs(src, 0, 1).line == 1;
    IsAlphaIsAtLeastZ('F');
  }

  /** Skipping a `//` comment stops at its newline, and scan_token then
      reads that newline as an unexpected character; the newline is not
      counted as a line. */
  lemma CommentNewlineIsUnexpected(src: seq<char>, cur: nat, line: nat)
    requires IsCString(src) && cur + 1 < |src| && src[cur] == '/' && src[cur + 1] == '/'
    requires src[CommentEnd(src, cur)] == '\n'
    ensures var r := Scan(src, cur, line);
      r == Scanned(Token(Error, Message(UnexpectedCharacter), line), CommentEnd(src, cur), CommentEnd(src, cur) + 1, line)
  {
    var j := CommentEnd(src, cur);
    assert !IsAlpha(src[j]) && !IsDigit(src[j]);
  }

  /** A source of blanks alone scans to EOF at once. */
  lemma BlankSourceScansToEof(src: seq<char>, line: nat)
    requires IsCString(src)
    requires forall i :: 0 <= i < |src| - 1 ==> src[i] == ' ' || src[i] == '\t' || src[i] == '\r' || src[i] == '\n'
    ensures var r := Scan(src, 0, line);
      r.token.kind == Eof && r.start == |src| - 1 && r.line == line + NewlineCount(src[..|src| - 1])
  {
    SkipWsStops(src, 0, line);
    var s := SkipWs(src, 0, line).pos;
    assert src[s] == '\0';
    assert src[..|src| - 1] == src[0..s];
  }

  // ---------------------------------------------------------------------
  // The scanner state

  /** The scanner: `start` marks the token being scanned, `current` the
      next character, `line` the line counter. */
  class Scanner {
    const source: seq<char>
    var start: nat
    var current: nat
    var line: nat

    ghost predicate Valid()
      reads this
    {
      IsCString(source) && start <= current < |source|
    }

    /** init_scanner */
    constructor Init(source: seq<char>)
      requires IsCString(source)
      ensures Valid() && this.source == source
      ensures start == 0 && current == 0 && line == 1
    {
      this.source := source;
      start := 0;
      current := 0;
      line := 1;
    }

    predicate IsAtEnd()
      requires Valid()
      reads this
    {
      source[current] == '\0'
    }

    function Peek(): char
      requires Valid()
      reads this
    {
      source[current]
    }

    /** peek_next: the character after the current one, or NUL at the end. */
    function PeekNext(): (c: char)
      requires Valid()
      reads this
      ensures IsAtEnd() ==> c == '\0'
      ensures !IsAtEnd() ==> c == source[current + 1]
    {
      if IsAtEnd() then '\0' else source[current + 1]
    }

    /** advance: step over the current character and answer it. Every call
        site has checked it is not the NUL. */
    method Advance() returns (c: char)
      requires Valid() && !IsAtEnd()
      modifies this
      ensures Valid() && c == old(source[current])
      ensures current == old(current) + 1
      ensures start == old(start) && line == old(line)
    {
      current := current + 1;
      c := source[current - 1];
    }

    /** match: step over the current character only when it is `expected`. */
    method Match(expected: char) returns (matched: bool)
      requires Valid()
      modifies this
      ensures Valid()
      ensures matched <==> old(source[current]) != '\0' && old(source[current]) == expected
      ensures current == old(current) + (if matched then 1 else 0)
      ensures start == old(start) && line == old(line)
    {
      if IsAtEnd() {
        return false;
      }
      if source[current] != expected {
        return false;
      }
      current := current + 1;
      return true;
    }

    /** make_token: the span from `start` to `current`, on the current line. */
    function MakeToken(kind: TokenType): (t: Token)
      requires Valid()
      reads this
      ensures t.kind == kind && t.line == line
      ensures t.lexeme == Span(start, current - start)
    {
      Token(kind, Span(start, current - start), line)
    }

    /** error_token: the message takes the place of the lexeme. */
    function ErrorToken(message: string): (t: Token)
      reads this
      ensures t.kind == Error && t.line == line && t.lexeme == Message(message)
    {
      Token(Error, Message(message), line)
    }

    /** skip_whitespace_and_comments */
    method SkipWhitespaceAndComments()
      requires Valid()
      modifies this
      ensures Valid() && start == old(start)
      ensures Cursor(current, line) == SkipWs(source, old(current), old(line))
    {
      while true
        invariant Valid() && start == old(start)
        invariant old(current) <= current
        invariant SkipWs(source, current, line) == SkipWs(source, old(current), old(line))
        decreases |source| - current
      {
        var c := Peek();
        if c == '\n' || c == ' ' || c == '\r' || c == '\t' {
          if c == '\n' {
            line := line + 1;
          }
          c := Advance();
        } else if c == '/' {
          if PeekNext() == '/' {
            ghost var from, fromLine := current, line;
            assert SkipWs(source, from, line) == Cursor(CommentEnd(source, from), line);
            while Peek() != '\n' && !IsAtEnd()
              invariant Valid() && start == old(start)
              invariant from <= current && line == fromLine
              invariant CommentEnd(source, current) == CommentEnd(source, from)
              decreases |source| - current
            {
              c := Advance();
            }
            return;
          } else {
            return;
          }
        } else {
          return;
        }
      }
    }

    /** identifier: the rest of the run, then the keyword check. */
    method Identifier() returns (t: Token)
      requires Valid() && current == start + 1 && IsAlpha(source[start])
      modifies this
      ensures Valid() && start == old(start)
      ensures Scanned(t, start, current, line) == IdentifierAt(source, start, old(line))
    {
      while IsAlphanumeric(Peek())
        invariant Valid() && start == old(start) && line == old(line)
        invariant old(current) <= current
        invariant IdentEnd(source, current) == IdentEnd(source, old(current))
        decreases |source| - current
      {
        var c := Advance();
      }
      t := MakeToken(IdentifierType(source[start..current]));
    }

    /** number */
    method Number() returns (t: Token)
      requires Valid() && current == start + 1 && IsDigit(source[start])
      modifies this
      ensures Valid() && start == old(start)
      ensures Scanned(t, start, current, line) == NumberAt(source, start, old(line))
    {
      while IsDigit(Peek())
        invariant Valid() && start == old(start) && line == old(line)
        invariant old(current) <= current
        invariant DigitsEnd(source, current) == DigitsEnd(source, old(current))
        decreases |source| - current
      {
        var c := Advance();
      }
      ghost var digits := current;
      assert digits == DigitsEnd(source, old(current));
      if Peek() == '.' && IsDigit(PeekNext()) {
        var c := Advance();
        ghost var from := current;
        while IsDigit(Peek())
          invariant Valid() && start == old(start) && line == old(line)
          invariant from <= current
          invariant DigitsEnd(source, current) == DigitsEnd(source, from)
          decreases |source| - current
        {
          c := Advance();
        }
      }
      assert current == NumberEnd(source, old(current));
      t := MakeToken(NumberLiteral);
    }

    /** string: the body up to the same quote, counting newlines; an
        error at the NUL when the quote never comes. */
    method String(terminator: char) returns (t: Token)
      requires Valid() && current == start + 1 && IsQuote(source[start]) && terminator == source[start]
      modifies this
      ensures Valid() && start == old(start)
      ensures Scanned(t, start, current, line) == StringAt(source, start, old(line))
    {
      ghost var from := current;
      while Peek() != terminator && !IsAtEnd()
        invariant Valid() && start == old(start)
        invariant from <= current
        invariant StringEnd(source, current, terminator) == StringEnd(source, from, terminator)
        invariant line == old(line) + NewlineCount(source[from..current])
        decreases |source| - current
      {
        NewlineCountExtend(source, from, current);
        if Peek() == '\n' {
          line := line + 1;
        }
        var c := Advance();
      }
      if IsAtEnd() {
        return ErrorToken(UnterminatedString);
      }
      var c := Advance();
      t := MakeToken(StringLiteral);
    }

    /** scan_token */
    method ScanToken() returns (t: Token)
      requires Valid()
      modifies this
      ensures Valid()
      ensures Scanned(t, start, current, line) == Scan(source, old(current), old(line))
    {
      SkipWhitespaceAndComments();
      start := current;
      assert Scan(source, old(current), old(line)) == ScanFrom(source, current, line);
      t := TokenHere();
    }

    /** The rest of scan_token, once blanks and comments are skipped and the
        token's start is marked: dispatch on the first character. */
    method TokenHere() returns (t: Token)
      requires Valid() && start == current
      modifies this
      ensures Valid() && start == old(start)
      ensures Scanned(t, start, current, line) == ScanFrom(source, old(current), old(line))
    {
      if IsAtEnd() {
        return MakeToken(Eof);
      }
      var c := Advance();
      if IsAlpha(c) {
        t := Identifier();
        return;
      }
      if IsDigit(c) {
        t := Number();
        return;
      }
      if Punctuation(c) != Error {
        return MakeToken(Punctuation(c));
      }
      if IsOperator(c) {
        var matched := Match('=');
        return MakeToken(if matched then WithEqual(c) else WithoutEqual(c));
      }
      if IsQuote(c) {
        t := String(c);
        return;
      }
      return ErrorToken(UnexpectedCharacter);
    }
  }
}
