/** The tokenizer: an index that moves over a byte buffer.

    `Lexemes` says what a text consists of without mentioning an index; each method is proved
    against the lexemes that are still ahead of the read head. */
module Lexing {
  import opened Wrappers
  import opened Names
  import opened Escape

  datatype Token =
    | QuotedText(start: nat, end: nat)
    | LF
    | PlainText(start: nat, end: nat)

  datatype ParseError =
    | ExpectedDoubleQuote
    | InvalidToken
    | ExpectedTextToken
    | ExpectedDoubleQuotedTextToken
    | InvalidNumber
    | BadUpsName
    | BadCmdName
    | BadVarName
    | SlicePanic  // the `&text[..]` panic on an escaped multi-byte character

  // ---------- What a text consists of ----------

  datatype Lexeme =
    | Word(text: string)
    | Quoted(raw: string)
    | Newline
    | Unterminated  // an opening quote without its closing quote

  /** Where the word that begins at `i` ends. */
  function WordEnd(b: string, i: nat): (end: nat)
    requires i <= |b|
    ensures i <= end <= |b|
    decreases |b| - i
  {
    if i == |b| || IsAsciiWhitespace(b[i]) then i else WordEnd(b, i + 1)
  }

  /** Where the closing quote is, for a quoted text whose content begins at `i`. */
  function QuoteEnd(b: string, i: nat): (end: Option<nat>)
    requires i <= |b|
    ensures end.Some? ==> i <= end.value < |b| && b[end.value] == '"'
    decreases |b| - i
  {
    if i == |b| then None
    else if b[i] == '"' then Some(i)
    else if b[i] == '\\' then
      if i + 1 < |b| then QuoteEnd(b, i + 2) else None
    else QuoteEnd(b, i + 1)
  }

  /** What lies at one position: nothing more, a blank, or a lexeme and where to go on. */
  datatype Step =
    | Stop
    | Skip(next: nat)
    | Emit(lexeme: Lexeme, next: nat)

  function StepAt(b: string, i: nat): (step: Step)
    requires i <= |b|
    ensures step.Skip? ==> i < step.next <= |b|
    ensures step.Emit? ==> i < step.next <= |b|
  {
    if i == |b| then Stop
    else if b[i] == '\n' then Emit(Newline, i + 1)
    else if IsAsciiWhitespace(b[i]) then Skip(i + 1)
    else if b[i] == '"' then
      match QuoteEnd(b, i + 1)
      case None => Emit(Unterminated, |b|)
      case Some(end) => Emit(Quoted(b[i + 1..end]), end + 1)
    else Emit(Word(b[i..WordEnd(b, i + 1)]), WordEnd(b, i + 1))
  }

  /** The lexemes of a text from `i` on. */
  function Lexemes(b: string, i: nat): seq<Lexeme>
    requires i <= |b|
    decreases |b| - i
  {
    match StepAt(b, i)
    case Stop => []
    case Skip(next) => Lexemes(b, next)
    case Emit(lexeme, next) => [lexeme] + Lexemes(b, next)
  }

  /** The text breaks off inside a quote before any other lexeme. */
  predicate IsBroken(ls: seq<Lexeme>) {
    ls != [] && ls[0] == Unterminated
  }

  lemma {:induction false} QuotedIsPaired(b: string, i: nat)
    requires i <= |b| && QuoteEnd(b, i).Some?
    ensures Paired(b[i..QuoteEnd(b, i).value])
    decreases |b| - i
  {
    if b[i] != '"' {
      var k := if b[i] == '\\' then 2 else 1;
      QuotedIsPaired(b, i + k);
      var end := QuoteEnd(b, i).value;
      assert b[i..end][k..] == b[i + k..end];
    }
  }

  function DropNewlines(ls: seq<Lexeme>): (r: seq<Lexeme>)
    ensures |r| <= |ls|
    ensures r != [] ==> r[0] != Newline
  {
    if ls != [] && ls[0] == Newline then DropNewlines(ls[1..]) else ls
  }

  /** Slices between ASCII bytes of a UTF-8 text are UTF-8 texts. */
  lemma Utf8Slice(s: string, from: nat, to: nat)
    requires Utf8Shape(s) && from <= to <= |s|
    requires from < |s| ==> !IsContinuation(s[from])
    requires to < |s| ==> s[to] < 128 as char
    ensures Utf8Shape(s[from..to])
  {
    var t := s[from..to];
    forall i: nat | i < |t|
      ensures Utf8At(t, i)
    {
      assert Utf8At(s, from + i);
    }
  }

  // ---------- The lexer ----------

  class Lexer {
    const buffer: string
    var readHead: nat

    ghost predicate Valid()
      reads this
    {
      Utf8Shape(buffer) && readHead <= |buffer|
    }

    /** The lexemes ahead of the read head. */
    ghost function Rest(): seq<Lexeme>
      reads this
      requires Valid()
    {
      Lexemes(buffer, readHead)
    }

    ghost predicate IsToken(token: Token) {
      match token
      case LF => true
      case PlainText(start, end) => start <= end <= |buffer|
      case QuotedText(start, end) =>
        && 0 < start <= end < |buffer|
        && buffer[start - 1] == '"' && buffer[end] == '"'
        && Paired(buffer[start..end])
    }

    ghost function LexemeOf(token: Token): Lexeme
      requires IsToken(token)
    {
      match token
      case LF => Newline
      case PlainText(start, end) => Word(buffer[start..end])
      case QuotedText(start, end) => Quoted(buffer[start..end])
    }

    constructor (buffer: string)
      requires Utf8Shape(buffer)
      ensures Valid() && this.buffer == buffer && readHead == 0
      ensures Rest() == Lexemes(buffer, 0)
    {
      this.buffer := buffer;
      this.readHead := 0;
    }

    method ReadText() returns (start: nat, end: nat)
      requires Valid()
      modifies this`readHead
      ensures Valid()
      ensures start == old(readHead) && end == readHead == WordEnd(buffer, old(readHead))
    {
      start, end := readHead, readHead;
      for i := readHead to |buffer|
        invariant readHead == end == i
        invariant WordEnd(buffer, start) == WordEnd(buffer, i)
      {
        if IsAsciiWhitespace(buffer[i]) {
          break;
        }
        readHead := readHead + 1;
        end := readHead;
      }
    }

    /** On failure the read head may have passed the end of the buffer: a lone trailing
        backslash moves it by two. */
    method ReadQuotedText() returns (r: Result<(nat, nat), ParseError>)
      requires Valid()
      modifies this`readHead
      ensures var end := QuoteEnd(buffer, old(readHead));
              if end.None? then r == Err(ExpectedDoubleQuote)
              else r == Ok((old(readHead), end.value)) && readHead == end.value
    {
      var start := readHead;
      var next := readHead;
      while true
        invariant start <= next <= |buffer|
        invariant readHead == next || (next == |buffer| && readHead == next + 1)
        invariant QuoteEnd(buffer, start) == QuoteEnd(buffer, next)
        decreases |buffer| - next
      {
        if next == |buffer| {
          return Err(ExpectedDoubleQuote);
        }
        var c := buffer[next];
        next := next + 1;
        if c == '\\' {
          if next < |buffer| {
            next := next + 1;
          }
          readHead := readHead + 2;
        } else if c == '"' {
          return Ok((start, readHead));
        } else {
          readHead := readHead + 1;
        }
      }
    }

    /** Skips blanks and line feeds. */
    method SkipWhitespaces()
      requires Valid()
      modifies this`readHead
      ensures Valid() && Rest() == DropNewlines(old(Rest()))
      ensures old(readHead) <= readHead
      ensures forall k | old(readHead) <= k < readHead :: IsAsciiWhitespace(buffer[k])
      ensures readHead < |buffer| ==> !IsAsciiWhitespace(buffer[readHead])
    {
      for i := readHead to |buffer|
        invariant readHead == i
        invariant DropNewlines(Rest()) == DropNewlines(old(Rest()))
        invariant forall k | old(readHead) <= k < i :: IsAsciiWhitespace(buffer[k])
      {
        if buffer[i] == '\n' {
          readHead := readHead + 1;
        } else if IsAsciiWhitespace(buffer[i]) {
          readHead := readHead + 1;
        } else {
          break;
        }
      }
    }

    ghost predicate IsNext(before: seq<Lexeme>, r: Result<Option<Token>, ParseError>)
      reads this
    {
      match r
      case Err(error) => error == ExpectedDoubleQuote && IsBroken(before)
      case Ok(None) => Valid() && before == [] && Rest() == []
      case Ok(Some(token)) => Valid() && IsToken(token) && before == [LexemeOf(token)] + Rest()
    }

    /** The next token is the next lexeme; after an unterminated quote the lexer is not usable. */
    method NextToken() returns (r: Result<Option<Token>, ParseError>)
      requires Valid()
      modifies this`readHead
      ensures IsNext(old(Rest()), r)
      ensures r.Ok? ==> old(readHead) <= readHead
      ensures r.Ok? && r.value.Some? ==> old(readHead) < readHead
    {
      for i := readHead to |buffer|
        invariant readHead == i
        invariant Rest() == old(Rest())
      {
        if buffer[i] == '\n' {
          readHead := readHead + 1;
          return Ok(Some(LF));
        } else if IsAsciiWhitespace(buffer[i]) {
          readHead := readHead + 1;
        } else if buffer[i] == '"' {
          readHead := readHead + 1;
          var quoted := ReadQuotedText();
          if quoted.Err? {
            return Err(quoted.error);
          }
          QuotedIsPaired(buffer, i + 1);
          readHead := readHead + 1;
          return Ok(Some(QuotedText(quoted.value.0, quoted.value.1)));
        } else {
          var start, end := ReadText();
          return Ok(Some(PlainText(start, end)));
        }
      }
      return Ok(None);
    }

    /** The next token without moving; an unterminated quote counts as no token. */
    method Peek() returns (r: Option<Token>)
      requires Valid()
      ensures r.None? <==> Rest() == [] || IsBroken(Rest())
      ensures r.Some? ==> IsToken(r.value) && LexemeOf(r.value) == Rest()[0]
    {
      var tmp := new Lexer(buffer);
      tmp.readHead := readHead;
      var token := tmp.NextToken();
      match token
      case Err(_) => r := None;
      case Ok(None) => r := None;
      case Ok(Some(t)) =>
        assert tmp.LexemeOf(t) == LexemeOf(t);
        r := Some(t);
    }

    /** The peeked text as it stands in the buffer, escapes included. */
    method PeekAsStr() returns (r: Option<string>)
      requires Valid()
      ensures r == PeekedText(Rest())
    {
      var token := Peek();
      match token
      case None => r := None;
      case Some(LF) => r := Some("\n");
      case Some(PlainText(start, end)) => r := Some(buffer[start..end]);
      case Some(QuotedText(start, end)) => r := Some(buffer[start..end]);
    }

    method IsFinished() returns (r: bool)
      requires Valid()
      ensures r <==> Rest() == [] || IsBroken(Rest())
    {
      var token := Peek();
      r := token.None?;
    }

    method ExtractFromToken(token: Token) returns (r: Result<string, ParseError>)
      requires Valid() && IsToken(token)
      ensures r == TextOf(LexemeOf(token))
    {
      match token
      case LF => r := Ok("\n");
      case PlainText(start, end) => r := Ok(buffer[start..end]);
      case QuotedText(start, end) =>
        QuotedUtf8(start, end);
        var text := ExtractQuoted(buffer[start..end]);
        r := if text.Some? then Ok(text.value) else Err(SlicePanic);
    }

    lemma QuotedUtf8(start: nat, end: nat)
      requires Utf8Shape(buffer) && IsToken(QuotedText(start, end))
      ensures Utf8Shape(buffer[start..end])
    {
      assert Utf8At(buffer, start);
      Utf8Slice(buffer, start, end);
    }
  }

  function PeekedText(ls: seq<Lexeme>): Option<string> {
    if ls == [] then None
    else match ls[0]
      case Word(text) => Some(text)
      case Quoted(raw) => Some(raw)
      case Newline => Some("\n")
      case Unterminated => None
  }

  function TextOf(l: Lexeme): Result<string, ParseError> {
    match l
    case Word(text) => Ok(text)
    case Quoted(raw) => if EscapesAscii(raw) then Ok(Unescaped(raw)) else Err(SlicePanic)
    case Newline => Ok("\n")
    case Unterminated => Err(ExpectedDoubleQuote)
  }

  /** An unterminated quote can only come last. */
  lemma {:induction false} UnterminatedIsLast(b: string, i: nat)
    requires i <= |b|
    ensures forall k | 0 <= k < |Lexemes(b, i)| - 1 :: Lexemes(b, i)[k] != Unterminated
    decreases |b| - i
  {
    var step := StepAt(b, i);
    if !step.Stop? {
      UnterminatedIsLast(b, step.next);
    }
  }

  // ---------- Reading back what was printed ----------

  function Moved(step: Step, offset: nat): Step {
    match step
    case Stop => Stop
    case Skip(next) => Skip(offset + next)
    case Emit(lexeme, next) => Emit(lexeme, offset + next)
  }

  lemma StepShift(p: string, s: string, i: nat)
    requires i <= |s|
    ensures StepAt(p + s, |p| + i) == Moved(StepAt(s, i), |p|)
  {
    if i < |s| {
      if s[i] == '"' {
        QuoteEndShift(p, s, i + 1);
        var end := QuoteEnd(s, i + 1);
        if end.Some? {
          SliceShift(p, s, i + 1, end.value);
        }
      } else {
        WordEndShift(p, s, i + 1);
        SliceShift(p, s, i, WordEnd(s, i + 1));
      }
    }
  }

  lemma SliceShift(p: string, s: string, from: nat, to: nat)
    requires from <= to <= |s|
    ensures (p + s)[|p| + from..|p| + to] == s[from..to]
  {
  }

  /** Text before the read head does not matter. */
  lemma {:induction false} LexemesShift(p: string, s: string, i: nat)
    requires i <= |s|
    ensures Lexemes(p + s, |p| + i) == Lexemes(s, i)
    decreases |s| - i
  {
    StepShift(p, s, i);
    var step := StepAt(s, i);
    if !step.Stop? {
      LexemesShift(p, s, step.next);
    }
  }

  lemma {:induction false} WordEndShift(p: string, s: string, i: nat)
    requires i <= |s|
    ensures WordEnd(p + s, |p| + i) == |p| + WordEnd(s, i)
    decreases |s| - i
  {
    if i < |s| && !IsAsciiWhitespace(s[i]) {
      WordEndShift(p, s, i + 1);
    }
  }

  lemma {:induction false} QuoteEndShift(p: string, s: string, i: nat)
    requires i <= |s|
    ensures QuoteEnd(p + s, |p| + i) ==
            match QuoteEnd(s, i) case None => None case Some(end) => Some(|p| + end)
    decreases |s| - i
  {
    if i < |s| && s[i] != '"' {
      if s[i] != '\\' {
        QuoteEndShift(p, s, i + 1);
      } else if i + 1 < |s| {
        QuoteEndShift(p, s, i + 2);
      }
    }
  }

  lemma {:induction false} WordEndOf(w: string, rest: string, i: nat)
    requires NoWhitespace(w) && i <= |w| && rest != [] && IsAsciiWhitespace(rest[0])
    ensures WordEnd(w + rest, i) == |w|
    decreases |w| - i
  {
    if i < |w| {
      WordEndOf(w, rest, i + 1);
    }
  }

  /** If a text begins with one lexeme, the others are those of the remaining text. */
  lemma LexFirst(p: string, s: string, l: Lexeme)
    requires StepAt(p + s, 0) == Emit(l, |p|)
    ensures Lexemes(p + s, 0) == [l] + Lexemes(s, 0)
  {
    LexemesShift(p, s, 0);
  }

  /** A word that is followed by a blank is read back as one lexeme. */
  lemma LexWord(w: string, rest: string)
    requires IsWord(w) && rest != [] && IsAsciiWhitespace(rest[0])
    ensures Lexemes(w + rest, 0) == [Word(w)] + Lexemes(rest, 0)
  {
    WordEndOf(w, rest, 1);
    assert (w + rest)[0..|w|] == w;
    LexFirst(w, rest, Word(w));
  }

  /** An escaped text does not end before its closing quote. */
  lemma {:induction false} QuoteEndOf(text: string, rest: string)
    ensures QuoteEnd(Escaped(text) + ['"'] + rest, 0) == Some(|Escaped(text)|)
  {
    if text != [] {
      QuoteEndOf(text[1..], rest);
      var head := if IsSpecial(text[0]) then ['\\', text[0]] else [text[0]];
      var tail := Escaped(text[1..]) + ['"'] + rest;
      assert Escaped(text) + ['"'] + rest == head + tail;
      QuoteEndShift(head, tail, 0);
    }
  }

  /** Lexing a quote, the escaped text and a quote consumes exactly those bytes as one quoted
      token, whatever follows, and the token denotes the text. */
  lemma LexQuoted(text: string, rest: string)
    ensures Lexemes(['"'] + Escaped(text) + ['"'] + rest, 0)
            == [Quoted(Escaped(text))] + Lexemes(rest, 0)
    ensures TextOf(Quoted(Escaped(text))) == Ok(text)
  {
    EscapeRoundTrip(text);
    var printed := ['"'] + Escaped(text) + ['"'];
    QuotedStep(text, rest);
    LexFirst(printed, rest, Quoted(Escaped(text)));
  }

  lemma QuotedStep(text: string, rest: string)
    ensures var printed := ['"'] + Escaped(text) + ['"'];
            StepAt(printed + rest, 0) == Emit(Quoted(Escaped(text)), |printed|)
  {
    var printed := ['"'] + Escaped(text) + ['"'];
    var inner := Escaped(text) + ['"'] + rest;
    QuoteEndOf(text, rest);
    QuoteEndShift(['"'], inner, 0);
    assert printed + rest == ['"'] + inner;
    assert (printed + rest)[1..1 + |Escaped(text)|] == Escaped(text);
  }

  /** A printed escape is undone exactly if the text keeps its bytes: escaping is injective. */
  lemma EscapeInjective(a: string, b: string)
    requires Escaped(a) == Escaped(b)
    ensures a == b
  {
    EscapeRoundTrip(a);
    EscapeRoundTrip(b);
  }
}
