/** Printing a list message in the form of section 4.2.7 of RFC 9271 and parsing it again. */
module ListRoundTrip {
  import opened Wrappers
  import opened Names
  import opened Values
  import opened Escape
  import opened Lexing
  import opened LineParsing
  import opened ListResponses
  import opened ListGrammar

  // ---------- Printing ----------

  datatype Piece =
    | Bare(text: string)
    | InQuotes(text: string)

  function PieceText(p: Piece): string {
    match p
    case Bare(text) => text
    case InQuotes(text) => ['"'] + Escaped(text) + ['"']
  }

  /** The pieces separated by blanks and ended by a line feed. */
  function PrintLine(pieces: seq<Piece>): string
    requires pieces != []
  {
    if |pieces| == 1 then PieceText(pieces[0]) + ['\n']
    else PieceText(pieces[0]) + [' '] + PrintLine(pieces[1..])
  }

  function Heading(verb: string, kind: ListKind, h: Header): seq<Piece> {
    var word := Bare(Keyword(kind));
    if kind.UpsKind? then [Bare(verb), Bare("LIST"), word]
    else if NamesVariable(kind) then [Bare(verb), Bare("LIST"), word, Bare(h.ups), Bare(h.variable)]
    else [Bare(verb), Bare("LIST"), word, Bare(h.ups)]
  }

  /** The texts of an item line; a form with one text leaves `second` empty. */
  datatype Item = Item(first: string, second: string)

  function ItemPieces(kind: ListKind, h: Header, item: Item): seq<Piece> {
    match kind
    case UpsKind => [Bare("UPS"), Bare(item.first), InQuotes(item.second)]
    case VarKind => [Bare("VAR"), Bare(h.ups), Bare(item.first), InQuotes(item.second)]
    case RwKind => [Bare("RW"), Bare(h.ups), Bare(item.first), InQuotes(item.second)]
    case EnumKind => [Bare("ENUM"), Bare(h.ups), Bare(h.variable), InQuotes(item.first)]
    case RangeKind =>
      [Bare("RANGE"), Bare(h.ups), Bare(h.variable), InQuotes(item.first), InQuotes(item.second)]
    case CmdKind => [Bare("CMD"), Bare(h.ups), Bare(item.first)]
    case ClientKind => [Bare("CLIENT"), Bare(h.ups), Bare(item.first)]
  }

  function PrintItems(kind: ListKind, h: Header, items: seq<Item>): string {
    if items == [] then []
    else PrintLine(ItemPieces(kind, h, items[0])) + PrintItems(kind, h, items[1..])
  }

  function PrintList(kind: ListKind, h: Header, items: seq<Item>): string {
    PrintLine(Heading("BEGIN", kind, h)) + PrintItems(kind, h, items) + PrintLine(Heading("END", kind, h))
  }

  // ---------- What may be printed ----------

  predicate ValidHeader(kind: ListKind, h: Header) {
    && (if kind.UpsKind? then h.ups == "" else IsWord(h.ups))
    && (if NamesVariable(kind) then IsDottedName(h.variable) else h.variable == "")
  }

  predicate ValidItem(kind: ListKind, item: Item, isIp: string -> bool) {
    match kind
    case UpsKind => IsWord(item.first)
    case VarKind => IsDottedName(item.first)
    case RwKind => IsDottedName(item.first)
    case EnumKind => item.second == ""
    case RangeKind => NumberFrom(item.first).Some? && NumberFrom(item.second).Some?
    case CmdKind => IsDottedName(item.first) && item.second == ""
    case ClientKind => IsWord(item.first) && isIp(item.first) && item.second == ""
  }

  predicate ValidItems(kind: ListKind, items: seq<Item>, isIp: string -> bool) {
    forall i | 0 <= i < |items| :: ValidItem(kind, items[i], isIp)
  }

  function NumberOf(s: string): Value {
    NumberFrom(s).GetOr(Text(s))
  }

  /** What an item is read back as. */
  ghost function ReadBack(kind: ListKind, item: Item): seq<Capture> {
    match kind
    case UpsKind => [Str(item.first), Str(item.second)]
    case VarKind => [Str(item.first), Val(InferredFrom(item.second))]
    case RwKind => [Str(item.first), Val(InferredFrom(item.second))]
    case EnumKind => [Val(InferredFrom(item.first))]
    case RangeKind => [Val(NumberOf(item.first)), Val(NumberOf(item.second))]
    case CmdKind => [Str(item.first)]
    case ClientKind => [Str(item.first)]
  }

  // ---------- Lexing printed lines ----------

  function PieceLexeme(p: Piece): Lexeme {
    match p
    case Bare(text) => Word(text)
    case InQuotes(text) => Quoted(Escaped(text))
  }

  function PieceLexemes(pieces: seq<Piece>): seq<Lexeme> {
    if pieces == [] then [] else [PieceLexeme(pieces[0])] + PieceLexemes(pieces[1..])
  }

  predicate Printable(pieces: seq<Piece>) {
    forall i | 0 <= i < |pieces| :: pieces[i].Bare? ==> IsWord(pieces[i].text)
  }

  function SeparatorLexemes(separator: char): seq<Lexeme> {
    if separator == '\n' then [Newline] else []
  }

  lemma LexSeparator(separator: char, rest: string)
    requires separator == ' ' || separator == '\n'
    ensures Lexemes([separator] + rest, 0) == SeparatorLexemes(separator) + Lexemes(rest, 0)
  {
    LexemesShift([separator], rest, 0);
  }

  /** One printed piece and the blank or line feed behind it. */
  lemma LexPiece(p: Piece, separator: char, rest: string)
    requires p.Bare? ==> IsWord(p.text)
    requires separator == ' ' || separator == '\n'
    ensures Lexemes(PieceText(p) + [separator] + rest, 0)
            == [PieceLexeme(p)] + SeparatorLexemes(separator) + Lexemes(rest, 0)
  {
    var more := [separator] + rest;
    LexSeparator(separator, rest);
    Regroup(PieceText(p), [separator], rest);
    Regroup([PieceLexeme(p)], SeparatorLexemes(separator), Lexemes(rest, 0));
    match p
    case Bare(text) => LexWord(text, more);
    case InQuotes(text) => LexQuoted(text, more);
  }

  lemma {:induction false} LexPrinted(pieces: seq<Piece>, rest: string)
    requires pieces != [] && Printable(pieces)
    ensures Lexemes(PrintLine(pieces) + rest, 0) == PieceLexemes(pieces) + [Newline] + Lexemes(rest, 0)
  {
    if |pieces| == 1 {
      LexPiece(pieces[0], '\n', rest);
      assert PieceLexemes(pieces) == [PieceLexeme(pieces[0])];
    } else {
      var more := PrintLine(pieces[1..]) + rest;
      LexPrinted(pieces[1..], rest);
      LexPiece(pieces[0], ' ', more);
      Regroup(PieceText(pieces[0]) + [' '], PrintLine(pieces[1..]), rest);
      Regroup([PieceLexeme(pieces[0])], PieceLexemes(pieces[1..]) + [Newline], Lexemes(rest, 0));
      Regroup([PieceLexeme(pieces[0])], PieceLexemes(pieces[1..]), [Newline]);
      assert [PieceLexeme(pieces[0])] + [] == [PieceLexeme(pieces[0])];
    }
  }

  lemma {:induction false} FirstLineOf(line: seq<Lexeme>, rest: seq<Lexeme>)
    requires forall i | 0 <= i < |line| :: line[i] != Newline
    ensures FirstLine(line + [Newline] + rest) == line
    ensures AfterLine(line + [Newline] + rest) == DropNewlines(rest)
  {
    var ls := line + [Newline] + rest;
    if line == [] {
      assert ls[1..] == rest;
    } else {
      FirstLineOf(line[1..], rest);
      assert ls[1..] == line[1..] + [Newline] + rest;
    }
  }

  lemma {:induction false} NoNewline(pieces: seq<Piece>)
    ensures forall i | 0 <= i < |PieceLexemes(pieces)| :: PieceLexemes(pieces)[i] != Newline
  {
    if pieces != [] {
      NoNewline(pieces[1..]);
    }
  }

  /** A printed line is parsed by its rules, and exactly that line is consumed. */
  lemma ParsePrinted(pieces: seq<Piece>, rules: seq<Rule>, captured: seq<Capture>, rest: string)
    requires pieces != [] && Printable(pieces)
    requires LineCaptures(PieceLexemes(pieces), rules) == Some(captured)
    ensures Line(Lexemes(PrintLine(pieces) + rest, 0), rules)
            == Ok((captured, DropNewlines(Lexemes(rest, 0))))
  {
    LexPrinted(pieces, rest);
    NoNewline(pieces);
    FirstLineOf(PieceLexemes(pieces), Lexemes(rest, 0));
    LineAccepts(Lexemes(PrintLine(pieces) + rest, 0), rules);
  }

  lemma QuotedReadsBack(text: string)
    ensures TextOf(Quoted(Escaped(text))) == Ok(text)
  {
    EscapeRoundTrip(text);
  }

  // ---------- Printed lines match their rules ----------

  ghost function HeaderCaptures(kind: ListKind, h: Header): seq<Capture> {
    if kind.UpsKind? then [] else if NamesVariable(kind) then [Str(h.ups), Str(h.variable)]
    else [Str(h.ups)]
  }

  lemma DottedIsWord(s: string)
    requires IsDottedName(s)
    ensures IsWord(s)
  {
    forall i | 0 <= i < |s|
      ensures !IsAsciiWhitespace(s[i])
    {
      assert IsNameChar(s[i]);
    }
  }

  /** What a rule captures from a printed piece. */
  ghost predicate Reads(p: Piece, rule: Rule, c: Capture) {
    match p
    case Bare(text) => WordCapture(text, rule) == Ok([c])
    case InQuotes(text) => WantsQuoted(rule) && QuotedCapture(text, rule) == Ok([c])
  }

  lemma ReadsElement(p: Piece, rule: Rule, c: Capture)
    requires Reads(p, rule, c)
    ensures Element([PieceLexeme(p)], rule) == Ok([c])
  {
    if p.InQuotes? {
      QuotedReadsBack(p.text);
    }
  }

  /** Literal rules come first and capture nothing; every later rule captures one piece. */
  lemma {:induction false} PiecesMatch(pieces: seq<Piece>, rules: seq<Rule>, k: nat, captured: seq<Capture>)
    requires |pieces| == |rules| == k + |captured|
    requires forall i | 0 <= i < k :: pieces[i].Bare? && rules[i] == Literal(pieces[i].text)
    requires forall i | k <= i < |rules| :: Reads(pieces[i], rules[i], captured[i - k])
    ensures LineCaptures(PieceLexemes(pieces), rules) == Some(captured)
    decreases |pieces|
  {
    if pieces == [] {
    } else if k > 0 {
      PiecesMatch(pieces[1..], rules[1..], k - 1, captured);
      assert [] + captured == captured;
    } else {
      ReadsElement(pieces[0], rules[0], captured[0]);
      PiecesMatch(pieces[1..], rules[1..], 0, captured[1..]);
      assert [captured[0]] + captured[1..] == captured;
    }
  }

  lemma FixedWords(kind: ListKind)
    ensures IsWord("BEGIN") && IsWord("END") && IsWord("LIST") && IsWord(Keyword(kind))
  {
    assert IsWord("BEGIN") && IsWord("END") && IsWord("LIST");
    match kind
    case UpsKind => assert IsWord("UPS");
    case VarKind => assert IsWord("VAR");
    case RwKind => assert IsWord("RW");
    case EnumKind => assert IsWord("ENUM");
    case RangeKind => assert IsWord("RANGE");
    case CmdKind => assert IsWord("CMD");
    case ClientKind => assert IsWord("CLIENT");
  }

  lemma HeadingPrintable(verb: string, kind: ListKind, h: Header)
    requires ValidHeader(kind, h) && IsWord(verb)
    ensures Printable(Heading(verb, kind, h))
  {
    FixedWords(kind);
    if NamesVariable(kind) {
      DottedIsWord(h.variable);
    }
    var pieces := Heading(verb, kind, h);
    forall i | 0 <= i < |pieces|
      ensures IsWord(pieces[i].text)
    {
    }
  }

  lemma HeadingMatches(kind: ListKind, h: Header)
    requires ValidHeader(kind, h)
    ensures LineCaptures(PieceLexemes(Heading("BEGIN", kind, h)), HeaderRules(kind)) == Some(HeaderCaptures(kind, h))
  {
    PiecesMatch(Heading("BEGIN", kind, h), HeaderRules(kind), 3, HeaderCaptures(kind, h));
  }

  lemma FooterMatches(kind: ListKind, h: Header)
    requires ValidHeader(kind, h)
    ensures LineCaptures(PieceLexemes(Heading("END", kind, h)), FooterRules(kind, h)) == Some([])
  {
    PiecesMatch(Heading("END", kind, h), FooterRules(kind, h), |FooterRules(kind, h)|, []);
  }

  lemma VariableItemMatches(kind: ListKind, h: Header, item: Item, isIp: string -> bool)
    requires ValidHeader(kind, h) && ValidItem(kind, item, isIp) && NamesVariable(kind)
    ensures LineCaptures(PieceLexemes(ItemPieces(kind, h, item)), ItemRules(kind, h)) == Some(ReadBack(kind, item))
  {
    PiecesMatch(ItemPieces(kind, h, item), ItemRules(kind, h), 3, ReadBack(kind, item));
  }

  lemma PlainItemMatches(kind: ListKind, h: Header, item: Item, isIp: string -> bool)
    requires ValidHeader(kind, h) && ValidItem(kind, item, isIp) && !NamesVariable(kind)
    ensures LineCaptures(PieceLexemes(ItemPieces(kind, h, item)), ItemRules(kind, h)) == Some(ReadBack(kind, item))
  {
    PiecesMatch(ItemPieces(kind, h, item), ItemRules(kind, h), if kind.UpsKind? then 1 else 2, ReadBack(kind, item));
  }

  /** The pieces of an item and the rules that read them, side by side. */
  lemma ItemMatches(kind: ListKind, h: Header, item: Item, isIp: string -> bool)
    requires ValidHeader(kind, h) && ValidItem(kind, item, isIp)
    ensures LineCaptures(PieceLexemes(ItemPieces(kind, h, item)), ItemRules(kind, h)) == Some(ReadBack(kind, item))
  {
    if NamesVariable(kind) {
      VariableItemMatches(kind, h, item, isIp);
    } else {
      PlainItemMatches(kind, h, item, isIp);
    }
  }

  lemma ItemPrintable(kind: ListKind, h: Header, item: Item, isIp: string -> bool)
    requires ValidHeader(kind, h) && ValidItem(kind, item, isIp)
    ensures Printable(ItemPieces(kind, h, item))
  {
    FixedWords(kind);
    if kind.VarKind? || kind.RwKind? || kind.CmdKind? {
      DottedIsWord(item.first);
    }
    if NamesVariable(kind) {
      DottedIsWord(h.variable);
    }
    var pieces := ItemPieces(kind, h, item);
    forall i | 0 <= i < |pieces| && pieces[i].Bare?
      ensures IsWord(pieces[i].text)
    {
    }
  }

  // ---------- Round trip ----------

  ghost function ReadBackAll(kind: ListKind, items: seq<Item>): (r: seq<seq<Capture>>)
    ensures |r| == |items| && forall i | 0 <= i < |items| :: r[i] == ReadBack(kind, items[i])
  {
    seq(|items|, i requires 0 <= i < |items| => ReadBack(kind, items[i]))
  }

  /** A printed footer is what follows the items, and nothing follows the footer. */
  lemma FooterReadsBack(kind: ListKind, h: Header)
    requires ValidHeader(kind, h)
    ensures var ls := Lexemes(PrintLine(Heading("END", kind, h)), 0);
            && Line(ls, FooterRules(kind, h)) == Ok(([], []))
            && ls != [] && ls[0] == Word("END")
  {
    var end := Heading("END", kind, h);
    FooterMatches(kind, h);
    FixedWords(kind);
    HeadingPrintable("END", kind, h);
    assert PrintLine(end) + [] == PrintLine(end);
    ParsePrinted(end, FooterRules(kind, h), [], []);
    LexPrinted(end, []);
  }

  /** The first item line of a printed list, and what is left when it has been read. */
  lemma ItemReadsBack(kind: ListKind, h: Header, item: Item, more: string, isIp: string -> bool)
    requires ValidHeader(kind, h) && ValidItem(kind, item, isIp)
    ensures var ls := Lexemes(PrintLine(ItemPieces(kind, h, item)) + more, 0);
            && Line(ls, ItemRules(kind, h)) == Ok((ReadBack(kind, item), DropNewlines(Lexemes(more, 0))))
            && ls != [] && ls[0] == Word(Keyword(kind))
    ensures ItemOk(kind, ReadBack(kind, item), isIp)
  {
    ItemMatches(kind, h, item, isIp);
    ItemPrintable(kind, h, item, isIp);
    ParsePrinted(ItemPieces(kind, h, item), ItemRules(kind, h), ReadBack(kind, item), more);
    LexPrinted(ItemPieces(kind, h, item), more);
  }

  /** Items read one at a time. */
  lemma ItemsCons(kind: ListKind, h: Header, item: Item, more: string, isIp: string -> bool,
                  items: seq<seq<Capture>>, rest: seq<Lexeme>)
    requires ValidHeader(kind, h) && ValidItem(kind, item, isIp)
    requires Items(Lexemes(more, 0), kind, h, isIp) == Ok((items, rest))
    requires DropNewlines(Lexemes(more, 0)) == Lexemes(more, 0)
    ensures var ls := Lexemes(PrintLine(ItemPieces(kind, h, item)) + more, 0);
            && Items(ls, kind, h, isIp) == Ok(([ReadBack(kind, item)] + items, rest))
            && DropNewlines(ls) == ls
  {
    ItemReadsBack(kind, h, item, more, isIp);
  }

  lemma {:induction false} ItemsReadBack(kind: ListKind, h: Header, items: seq<Item>, footer: string,
                                         isIp: string -> bool)
    requires ValidHeader(kind, h)
    requires ValidItems(kind, items, isIp)
    requires PeekedText(Lexemes(footer, 0)) != Some(Keyword(kind))
    requires DropNewlines(Lexemes(footer, 0)) == Lexemes(footer, 0)
    ensures Items(Lexemes(PrintItems(kind, h, items) + footer, 0), kind, h, isIp)
            == Ok((ReadBackAll(kind, items), Lexemes(footer, 0)))
    ensures DropNewlines(Lexemes(PrintItems(kind, h, items) + footer, 0))
            == Lexemes(PrintItems(kind, h, items) + footer, 0)
    decreases items
  {
    if items == [] {
      assert PrintItems(kind, h, items) + footer == footer;
    } else {
      var printed := PrintItems(kind, h, items[1..]);
      ItemsReadBack(kind, h, items[1..], footer, isIp);
      ItemsCons(kind, h, items[0], printed + footer, isIp, ReadBackAll(kind, items[1..]), Lexemes(footer, 0));
      Regroup(PrintLine(ItemPieces(kind, h, items[0])), printed, footer);
      ReadBackCons(kind, items);
    }
  }

  lemma ReadBackCons(kind: ListKind, items: seq<Item>)
    requires items != []
    ensures ReadBackAll(kind, items) == [ReadBack(kind, items[0])] + ReadBackAll(kind, items[1..])
  {
  }

  /** Parsing a printed list gives the header and the items back, in order. */
  lemma ListReadsBack(kind: ListKind, h: Header, items: seq<Item>, isIp: string -> bool)
    requires ValidHeader(kind, h)
    requires ValidItems(kind, items, isIp)
    ensures ListOf(Lexemes(PrintList(kind, h, items), 0), kind, isIp) == Ok((h, ReadBackAll(kind, items)))
  {
    var footer := PrintLine(Heading("END", kind, h));
    FooterReadsBack(kind, h);
    ItemsReadBack(kind, h, items, footer, isIp);
    var body := PrintItems(kind, h, items) + footer;
    HeadingReadsBack(kind, h, body);
    Regroup(PrintLine(Heading("BEGIN", kind, h)), PrintItems(kind, h, items), footer);
  }

  lemma HeadingReadsBack(kind: ListKind, h: Header, body: string)
    requires ValidHeader(kind, h)
    ensures Line(Lexemes(PrintLine(Heading("BEGIN", kind, h)) + body, 0), HeaderRules(kind))
            == Ok((HeaderCaptures(kind, h), DropNewlines(Lexemes(body, 0))))
    ensures HeaderOf(HeaderCaptures(kind, h)) == h && HeaderOk(kind, h)
  {
    HeadingMatches(kind, h);
    FixedWords(kind);
    HeadingPrintable("BEGIN", kind, h);
    ParsePrinted(Heading("BEGIN", kind, h), HeaderRules(kind), HeaderCaptures(kind, h), body);
  }

  // ---------- Repeated variables ----------

  predicate IsPrinted(items: seq<Item>, name: string) {
    exists i | 0 <= i < |items| :: items[i].first == name
  }

  predicate IsLastPrinted(items: seq<Item>, i: int) {
    0 <= i < |items| && forall j | i < j < |items| :: items[j].first != items[i].first
  }

  lemma PrintedAndRead(kind: ListKind, items: seq<Item>)
    requires kind.VarKind? || kind.RwKind?
    ensures var read := ReadBackAll(kind, items);
            forall i | 0 <= i < |items| ::
              TextAt(read[i], 0) == items[i].first && ValueAt(read[i], 1) == InferredFrom(items[i].second)
  {
  }

  lemma PrintedNames(kind: ListKind, items: seq<Item>, name: string)
    requires kind.VarKind? || kind.RwKind?
    ensures IsNamed(ReadBackAll(kind, items), name) <==> IsPrinted(items, name)
  {
    PrintedAndRead(kind, items);
    var read := ReadBackAll(kind, items);
    if i :| 0 <= i < |items| && items[i].first == name {
      assert TextAt(read[i], 0) == name;
    }
    if i :| 0 <= i < |read| && TextAt(read[i], 0) == name {
      assert items[i].first == name;
    }
  }

  lemma PrintedVariables(kind: ListKind, items: seq<Item>, variables: map<string, Value>)
    requires kind.VarKind? || kind.RwKind?
    requires AreVariables(ReadBackAll(kind, items), variables)
    ensures ArePrinted(items, variables)
  {
    var read := ReadBackAll(kind, items);
    PrintedAndRead(kind, items);
    forall name: string ensures name in variables <==> IsPrinted(items, name) {
      PrintedNames(kind, items, name);
    }
    forall i | IsLastPrinted(items, i)
      ensures items[i].first in variables && variables[items[i].first] == InferredFrom(items[i].second)
    {
      assert IsLast(read, i);
    }
  }

  /** The map has just the printed names, each with the value inferred from the last line that names
      it. */
  ghost predicate ArePrinted(items: seq<Item>, variables: map<string, Value>) {
    && (forall name: string :: name in variables <==> IsPrinted(items, name))
    && (forall i | IsLastPrinted(items, i) ::
          items[i].first in variables && variables[items[i].first] == InferredFrom(items[i].second))
  }

  /** Parsing a printed VAR or RW list gives the UPS of its header and the printed variables. */
  lemma VariablesReadBack(kind: ListKind, h: Header, items: seq<Item>, isIp: string -> bool)
    requires kind.VarKind? || kind.RwKind?
    requires ValidHeader(kind, h) && ValidItems(kind, items, isIp)
    ensures var r := VariablesOf(ListOf(Lexemes(PrintList(kind, h, items), 0), kind, isIp));
            r.Ok? && r.value.0 == h.ups && ArePrinted(items, r.value.1)
  {
    ListReadsBack(kind, h, items, isIp);
    LastWinsMeans(ReadBackAll(kind, items));
    PrintedVariables(kind, items, LastWins(ReadBackAll(kind, items)));
  }

  // ---------- Names that begin with a quote ----------

  predicate BeginsWithQuote(s: string) {
    s != [] && s[0] == '"'
  }

  function PrintPrefix(pieces: seq<Piece>): string {
    if pieces == [] then [] else PieceText(pieces[0]) + [' '] + PrintPrefix(pieces[1..])
  }

  lemma {:induction false} PrintLineSplit(pieces: seq<Piece>, k: nat)
    requires k < |pieces|
    ensures PrintLine(pieces) == PrintPrefix(pieces[..k]) + PrintLine(pieces[k..])
  {
    if k > 0 {
      PrintLineSplit(pieces[1..], k - 1);
      assert pieces[..k][1..] == pieces[1..][..k - 1] && pieces[1..][k - 1..] == pieces[k..];
    } else {
      assert pieces[..0] == [] && pieces[0..] == pieces;
    }
  }

  /** No rule for a word accepts what begins with a quote. */
  lemma {:induction false} LineFailsAtQuote(good: seq<Piece>, rest: string, rules: seq<Rule>)
    requires Printable(good) && |good| < |rules| && !WantsQuoted(rules[|good|])
    requires BeginsWithQuote(rest)
    ensures Line(Lexemes(PrintPrefix(good) + rest, 0), rules).Err?
  {
    if good == [] {
      assert PrintPrefix(good) + rest == rest;
      assert StepAt(rest, 0).Emit?;
    } else {
      var more := PrintPrefix(good[1..]) + rest;
      LineFailsAtQuote(good[1..], rest, rules[1..]);
      LexPiece(good[0], ' ', more);
      Regroup(PieceText(good[0]) + [' '], PrintPrefix(good[1..]), rest);
      assert [PieceLexeme(good[0])] + SeparatorLexemes(' ') == [PieceLexeme(good[0])];
    }
  }

  lemma PrintedLineFails(pieces: seq<Piece>, k: nat, rules: seq<Rule>, more: string)
    requires k < |pieces| && k < |rules| && !WantsQuoted(rules[k]) && Printable(pieces[..k])
    requires pieces[k].Bare? && BeginsWithQuote(pieces[k].text)
    ensures Line(Lexemes(PrintLine(pieces) + more, 0), rules).Err?
  {
    PrintLineSplit(pieces, k);
    assert pieces[k..][0] == pieces[k];
    LineFailsAtQuote(pieces[..k], PrintLine(pieces[k..]) + more, rules);
    Regroup(PrintPrefix(pieces[..k]), PrintLine(pieces[k..]), more);
  }

  /** A list with a UPS name in its header is read back exactly if that name, which the library
      accepts as a UPS name, does not begin with a double quote. */
  lemma HeaderNameReadsBack(kind: ListKind, h: Header, items: seq<Item>, isIp: string -> bool)
    requires !kind.UpsKind? && IsUpsName(h.ups)
    requires if NamesVariable(kind) then IsDottedName(h.variable) else h.variable == ""
    requires ValidItems(kind, items, isIp)
    ensures ListOf(Lexemes(PrintList(kind, h, items), 0), kind, isIp) == Ok((h, ReadBackAll(kind, items)))
            <==> !BeginsWithQuote(h.ups)
  {
    if !BeginsWithQuote(h.ups) {
      ListReadsBack(kind, h, items, isIp);
    } else {
      var pieces := Heading("BEGIN", kind, h);
      var footer := PrintLine(Heading("END", kind, h));
      FixedWords(kind);
      PrintedLineFails(pieces, 3, HeaderRules(kind), PrintItems(kind, h, items) + footer);
      Regroup(PrintLine(pieces), PrintItems(kind, h, items), footer);
    }
  }

  /** LIST UPS is read back exactly if no listed name begins with a double quote. */
  lemma UpsListReadsBack(items: seq<Item>, isIp: string -> bool)
    requires forall i | 0 <= i < |items| :: IsUpsName(items[i].first)
    ensures var h := Header("", "");
            ListOf(Lexemes(PrintList(UpsKind, h, items), 0), UpsKind, isIp) == Ok((h, ReadBackAll(UpsKind, items)))
            <==> forall i | 0 <= i < |items| :: !BeginsWithQuote(items[i].first)
  {
    var h := Header("", "");
    if forall i | 0 <= i < |items| :: !BeginsWithQuote(items[i].first) {
      ListReadsBack(UpsKind, h, items, isIp);
    } else {
      var heading, footer := PrintLine(Heading("BEGIN", UpsKind, h)), PrintLine(Heading("END", UpsKind, h));
      var body := PrintItems(UpsKind, h, items) + footer;
      QuotedNameFails(items, footer, isIp);
      HeadingReadsBack(UpsKind, h, body);
      Regroup(heading, PrintItems(UpsKind, h, items), footer);
    }
  }

  lemma {:induction false} QuotedNameFails(items: seq<Item>, footer: string, isIp: string -> bool)
    requires forall i | 0 <= i < |items| :: IsUpsName(items[i].first)
    requires exists i | 0 <= i < |items| :: BeginsWithQuote(items[i].first)
    ensures var h := Header("", "");
            var ls := Lexemes(PrintItems(UpsKind, h, items) + footer, 0);
            Items(ls, UpsKind, h, isIp).Err? && ls != [] && ls[0] == Word("UPS")
    decreases items
  {
    var h := Header("", "");
    var pieces, more := ItemPieces(UpsKind, h, items[0]), PrintItems(UpsKind, h, items[1..]) + footer;
    Regroup(PrintLine(pieces), PrintItems(UpsKind, h, items[1..]), footer);
    if BeginsWithQuote(items[0].first) {
      FixedWords(UpsKind);
      PrintedLineFails(pieces, 1, ItemRules(UpsKind, h), more);
      UpsLineStarts(items[0], more);
    } else {
      var i :| 0 <= i < |items| && BeginsWithQuote(items[i].first);
      assert items[1..][i - 1] == items[i];
      QuotedNameFails(items[1..], footer, isIp);
      ItemReadsBack(UpsKind, h, items[0], more, isIp);
      assert DropNewlines(Lexemes(more, 0)) == Lexemes(more, 0);
    }
  }

  lemma UpsLineStarts(item: Item, more: string)
    ensures var ls := Lexemes(PrintLine(ItemPieces(UpsKind, Header("", ""), item)) + more, 0);
            ls != [] && ls[0] == Word("UPS")
  {
    var pieces := ItemPieces(UpsKind, Header("", ""), item);
    var tail := PrintLine(pieces[1..]);
    FixedWords(UpsKind);
    LexPiece(Bare("UPS"), ' ', tail + more);
    Regroup("UPS" + [' '], tail, more);
  }
}
