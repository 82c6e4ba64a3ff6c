/** Parsing one protocol line by a list of rules, as the `parse_line!` macro expands it. */
module LineParsing {
  import opened Wrappers
  import opened Names
  import opened Values
  import opened Lexing

  datatype Rule =
    | Literal(text: string)  // "LITERAL" and {TEXT, cmp_to = ..}
    | UpsRule
    | VarRule
    | CmdRule
    | TextRule
    | QuotedRule
    | ValueRule
    | NumberRule

  datatype Capture =
    | Str(text: string)
    | Val(value: Value)

  // ---------- What a rule accepts ----------

  /** The error when the input ends before the rule's token. */
  function Missing(rule: Rule): ParseError {
    match rule
    case UpsRule => ExpectedDoubleQuotedTextToken
    case QuotedRule => ExpectedDoubleQuotedTextToken
    case ValueRule => ExpectedDoubleQuotedTextToken
    case NumberRule => ExpectedDoubleQuotedTextToken
    case _ => ExpectedTextToken
  }

  /** What a word is captured as. */
  function WordCapture(w: string, rule: Rule): Result<seq<Capture>, ParseError> {
    match rule
    case Literal(text) => if w == text then Ok([]) else Err(InvalidToken)
    case UpsRule => if IsUpsName(w) then Ok([Str(w)]) else Err(BadUpsName)
    case VarRule => if IsDottedName(w) then Ok([Str(w)]) else Err(BadVarName)
    case CmdRule => if IsDottedName(w) then Ok([Str(w)]) else Err(BadCmdName)
    case TextRule => Ok([Str(w)])
    case _ => Err(InvalidToken)
  }

  /** What the text of a quoted token is captured as. */
  ghost function QuotedCapture(text: string, rule: Rule): Result<seq<Capture>, ParseError> {
    match rule
    case QuotedRule => Ok([Str(text)])
    case ValueRule => Ok([Val(InferredFrom(text))])
    case NumberRule =>
      (match NumberFrom(text)
       case Some(v) => Ok([Val(v)])
       case None => Err(InvalidNumber))
    case _ => Err(InvalidToken)
  }

  predicate WantsQuoted(rule: Rule) {
    rule.QuotedRule? || rule.ValueRule? || rule.NumberRule?
  }

  ghost function Element(ls: seq<Lexeme>, rule: Rule): Result<seq<Capture>, ParseError> {
    if ls == [] then Err(Missing(rule))
    else match ls[0]
      case Unterminated => Err(ExpectedDoubleQuote)
      case Newline => Err(InvalidToken)
      case Word(w) => WordCapture(w, rule)
      case Quoted(raw) =>
        if !WantsQuoted(rule) then Err(InvalidToken)
        else match TextOf(ls[0])
          case Ok(text) => QuotedCapture(text, rule)
          case Err(error) => Err(error)
  }

  /** A line ends with a line feed, further blank lines included, or with the input. */
  function LineEnd(ls: seq<Lexeme>): Result<seq<Lexeme>, ParseError> {
    if ls == [] then Ok([])
    else match ls[0]
      case Newline => Ok(DropNewlines(ls[1..]))
      case Unterminated => Err(ExpectedDoubleQuote)
      case _ => Err(InvalidToken)
  }

  /** A whole line: its captures in order, and the lexemes behind it. */
  ghost function Line(ls: seq<Lexeme>, rules: seq<Rule>): (r: Result<(seq<Capture>, seq<Lexeme>), ParseError>)
    ensures r.Ok? ==> |r.value.1| <= |ls| && (rules != [] ==> |r.value.1| < |ls|)
    decreases rules
  {
    if rules == [] then
      var rest :- LineEnd(ls);
      Ok(([], rest))
    else
      var captured :- Element(ls, rules[0]);
      var rest :- Line(ls[1..], rules[1..]);
      Ok((captured + rest.0, rest.1))
  }

  // ---------- The extractors ----------

  /** What every extractor leaves behind: one lexeme fewer ahead. */
  twostate predicate TookOne(lexer: Lexer)
    reads lexer
    requires old(lexer.Valid())
  {
    && lexer.Valid()
    && old(lexer.Rest()) != [] && lexer.Rest() == old(lexer.Rest())[1..]
    && old(lexer.readHead) < lexer.readHead
  }

  method ExtractText(lexer: Lexer) returns (r: Result<string, ParseError>)
    requires lexer.Valid()
    modifies lexer`readHead
    ensures Element(old(lexer.Rest()), TextRule) == if r.Ok? then Ok([Str(r.value)]) else Err(r.error)
    ensures r.Ok? ==> TookOne(lexer)
  {
    var token :- lexer.NextToken();
    match token
    case Some(PlainText(start, end)) => r := lexer.ExtractFromToken(token.value);
    case Some(_) => r := Err(InvalidToken);
    case None => r := Err(ExpectedTextToken);
  }

  method ExtractQuotedText(lexer: Lexer) returns (r: Result<string, ParseError>)
    requires lexer.Valid()
    modifies lexer`readHead
    ensures Element(old(lexer.Rest()), QuotedRule) == if r.Ok? then Ok([Str(r.value)]) else Err(r.error)
    ensures r.Ok? ==> TookOne(lexer) && TextOf(old(lexer.Rest())[0]) == r && old(lexer.Rest())[0].Quoted?
  {
    var token :- lexer.NextToken();
    match token
    case Some(QuotedText(start, end)) => r := lexer.ExtractFromToken(token.value);
    case Some(_) => r := Err(InvalidToken);
    case None => r := Err(ExpectedDoubleQuotedTextToken);
  }

  method ExtractValue(lexer: Lexer) returns (r: Result<Value, ParseError>)
    requires lexer.Valid()
    modifies lexer`readHead
    ensures Element(old(lexer.Rest()), ValueRule) == if r.Ok? then Ok([Val(r.value)]) else Err(r.error)
    ensures r.Ok? ==> TookOne(lexer)
  {
    var text :- ExtractQuotedText(lexer);
    var value := InferFrom(text);
    return Ok(value);
  }

  method ExtractNumericValue(lexer: Lexer) returns (r: Result<Value, ParseError>)
    requires lexer.Valid()
    modifies lexer`readHead
    ensures Element(old(lexer.Rest()), NumberRule) == if r.Ok? then Ok([Val(r.value)]) else Err(r.error)
    ensures r.Ok? ==> TookOne(lexer)
  {
    var text :- ExtractQuotedText(lexer);
    var value := NumberFrom(text);
    return if value.Some? then Ok(value.value) else Err(InvalidNumber);
  }

  /** Extracts a UPS, variable or command name; the three differ in the name rule and errors. */
  method ExtractName(lexer: Lexer, rule: Rule) returns (r: Result<string, ParseError>)
    requires lexer.Valid()
    requires rule.UpsRule? || rule.VarRule? || rule.CmdRule?
    modifies lexer`readHead
    ensures Element(old(lexer.Rest()), rule) == if r.Ok? then Ok([Str(r.value)]) else Err(r.error)
    ensures r.Ok? ==> TookOne(lexer)
  {
    var token :- lexer.NextToken();
    match token
    case Some(PlainText(start, end)) =>
      var text := lexer.ExtractFromToken(token.value);
      r := match text
        case Err(e) => Err(e)
        case Ok(name) =>
          match rule
          case UpsRule => if IsUpsName(name) then Ok(name) else Err(BadUpsName)
          case VarRule => if IsDottedName(name) then Ok(name) else Err(BadVarName)
          case _ => if IsDottedName(name) then Ok(name) else Err(BadCmdName);
    case Some(_) => r := Err(InvalidToken);
    case None => r := Err(if rule.UpsRule? then ExpectedDoubleQuotedTextToken else ExpectedTextToken);
  }

  method CmpLiteral(lexer: Lexer, cmp: string) returns (r: Result<(), ParseError>)
    requires lexer.Valid()
    modifies lexer`readHead
    ensures Element(old(lexer.Rest()), Literal(cmp)) == if r.Ok? then Ok([]) else Err(r.error)
    ensures r.Ok? ==> TookOne(lexer)
  {
    var token :- lexer.NextToken();
    match token
    case Some(PlainText(start, end)) =>
      var name := lexer.ExtractFromToken(token.value);
      r := match name case Ok(text) => (if cmp == text then Ok(()) else Err(InvalidToken)) case Err(e) => Err(e);
    case Some(_) => r := Err(InvalidToken);
    case None => r := Err(ExpectedTextToken);
  }

  method EndParser(lexer: Lexer) returns (r: Result<(), ParseError>)
    requires lexer.Valid()
    modifies lexer`readHead
    ensures match r
            case Err(error) => LineEnd(old(lexer.Rest())) == Err(error)
            case Ok(_) => lexer.Valid() && LineEnd(old(lexer.Rest())) == Ok(lexer.Rest())
    ensures r.Ok? ==> old(lexer.readHead) <= lexer.readHead
  {
    var token :- lexer.NextToken();
    match token
    case Some(LF) =>
      lexer.SkipWhitespaces();
      r := Ok(());
    case Some(_) => r := Err(InvalidToken);
    case None => r := Ok(());
  }

  method ParseElement(lexer: Lexer, rule: Rule) returns (r: Result<seq<Capture>, ParseError>)
    requires lexer.Valid()
    modifies lexer`readHead
    ensures r == Element(old(lexer.Rest()), rule)
    ensures r.Ok? ==> TookOne(lexer)
  {
    match rule
    case Literal(text) =>
      var _ :- CmpLiteral(lexer, text);
      return Ok([]);
    case TextRule =>
      var text :- ExtractText(lexer);
      return Ok([Str(text)]);
    case QuotedRule =>
      var text :- ExtractQuotedText(lexer);
      return Ok([Str(text)]);
    case ValueRule =>
      var value :- ExtractValue(lexer);
      return Ok([Val(value)]);
    case NumberRule =>
      var value :- ExtractNumericValue(lexer);
      return Ok([Val(value)]);
    case _ =>
      var name :- ExtractName(lexer, rule);
      return Ok([Str(name)]);
  }

  ghost function Prefixed(captured: seq<Capture>, line: Result<(seq<Capture>, seq<Lexeme>), ParseError>):
    Result<(seq<Capture>, seq<Lexeme>), ParseError>
  {
    if line.Ok? then Ok((captured + line.value.0, line.value.1)) else line
  }

  lemma PrefixedTwice(a: seq<Capture>, b: seq<Capture>, line: Result<(seq<Capture>, seq<Lexeme>), ParseError>)
    ensures Prefixed(a, Prefixed(b, line)) == Prefixed(a + b, line)
  {
    if line.Ok? {
      assert a + (b + line.value.0) == a + b + line.value.0;
    }
  }

  method ParseLine(lexer: Lexer, rules: seq<Rule>) returns (r: Result<seq<Capture>, ParseError>)
    requires lexer.Valid()
    modifies lexer`readHead
    ensures match r
            case Err(error) => Line(old(lexer.Rest()), rules) == Err(error)
            case Ok(captured) => lexer.Valid() && Line(old(lexer.Rest()), rules) == Ok((captured, lexer.Rest()))
    ensures r.Ok? ==> old(lexer.readHead) <= lexer.readHead
    ensures r.Ok? && rules != [] ==> old(lexer.readHead) < lexer.readHead
  {
    var captured := [];
    assert rules[0..] == rules;
    ghost var whole := Line(lexer.Rest(), rules);
    assert whole.Ok? ==> [] + whole.value.0 == whole.value.0;
    for i := 0 to |rules|
      invariant lexer.Valid()
      invariant old(lexer.readHead) <= lexer.readHead
      invariant 0 < i ==> old(lexer.readHead) < lexer.readHead
      invariant Line(old(lexer.Rest()), rules) == Prefixed(captured, Line(lexer.Rest(), rules[i..]))
    {
      assert rules[i..][1..] == rules[i + 1..];
      ghost var before := captured;
      var element :- ParseElement(lexer, rules[i]);
      captured := captured + element;
      PrefixedTwice(before, element, Line(lexer.Rest(), rules[i + 1..]));
    }
    assert rules[|rules|..] == [];
    var _ :- EndParser(lexer);
    assert captured + [] == captured;
    return Ok(captured);
  }
}
