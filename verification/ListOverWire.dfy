/** A printed list on the wire: when the client cuts it out of the stream whole, and that it then
    parses it back. The line protocol cannot escape a line feed, so a quoted text can hold what looks
    like the end of the list. */
module ListOverWire {
  import opened Wrappers
  import opened Names
  import opened Escape
  import opened Framing
  import opened Lexing
  import LineParsing
  import opened ListResponses
  import opened ListRoundTrip

  // ---------- A line feed and the end of a list ----------

  const MARK := "\nEND LIST"

  /** `END LIST`, letter by letter. */
  predicate EndAt(s: string, p: nat) {
    && p + 8 <= |s|
    && s[p] == 'E' && s[p + 1] == 'N' && s[p + 2] == 'D' && s[p + 3] == ' '
    && s[p + 4] == 'L' && s[p + 5] == 'I' && s[p + 6] == 'S' && s[p + 7] == 'T'
  }

  predicate MarkAt(s: string, p: nat) {
    p < |s| && s[p] == '\n' && EndAt(s, p + 1)
  }

  ghost predicate HasMark(s: string) {
    exists p: nat :: MarkAt(s, p)
  }

  predicate OneLine(s: string) {
    forall i | 0 <= i < |s| :: s[i] != '\n'
  }

  lemma EndIsPrefix(s: string)
    ensures EndsList(s) <==> EndAt(s, 0)
  {
    var e := "END LIST";
    assert e[0] == 'E' && e[1] == 'N' && e[2] == 'D' && e[3] == ' ';
    assert e[4] == 'L' && e[5] == 'I' && e[6] == 'S' && e[7] == 'T';
    if EndAt(s, 0) {
      assert s[..8] == e;
    }
  }

  lemma MarkIsPrefix(s: string)
    ensures MARK <= s <==> MarkAt(s, 0)
  {
    assert MARK[0] == '\n' && MARK[1..] == "END LIST";
    if s != [] {
      EndIsPrefix(s[1..]);
      assert s == [s[0]] + s[1..];
      if MarkAt(s, 0) {
        assert s[..9] == [s[0]] + s[1..][..8];
        assert MARK == [MARK[0]] + MARK[1..];
      }
      if MARK <= s {
        assert s[1..][..8] == s[..9][1..] == MARK[1..];
      }
    }
  }

  /** Where two texts meet, a mark lies in one of them or across the seam. */
  lemma MarkInSum(a: string, b: string, p: nat)
    ensures p + 9 <= |a| ==> (MarkAt(a + b, p) <==> MarkAt(a, p))
    ensures MarkAt(a + b, |a| + p) <==> MarkAt(b, p)
  {
  }

  /** No mark lies across a seam that has a double quote or a line feed behind it, or no line feed
      before it. */
  lemma HasMarkInSum(a: string, b: string)
    requires (b != [] && (b[0] == '"' || b[0] == '\n')) || OneLine(a) || a[|a| - 1] == '"'
    ensures HasMark(a + b) <==> HasMark(a) || HasMark(b)
  {
    if HasMark(a + b) {
      var p: nat :| MarkAt(a + b, p);
      if p >= |a| {
        MarkInSum(a, b, p - |a|);
      } else {
        assert (a + b)[p] == a[p];
        assert (a + b)[|a| - 1] == a[|a| - 1];
        assert b != [] ==> (a + b)[|a|] == b[0];
        assert p + 9 <= |a|;
        MarkInSum(a, b, p);
      }
    }
    if HasMark(a) {
      var p: nat :| MarkAt(a, p);
      MarkInSum(a, b, p);
    }
    if HasMark(b) {
      var p: nat :| MarkAt(b, p);
      MarkInSum(a, b, p);
    }
  }

  lemma OneLineHasNoMark(s: string)
    requires OneLine(s)
    ensures !HasMark(s)
  {
    forall p: nat ensures !MarkAt(s, p) {
    }
  }

  lemma HasMarkCons(c: char, s: string)
    ensures HasMark([c] + s) <==> MARK <= [c] + s || HasMark(s)
  {
    var t := [c] + s;
    if HasMark(t) {
      var p: nat :| MarkAt(t, p);
      if p > 0 {
        MarkInSum([c], s, p - 1);
      }
    }
    if HasMark(s) {
      var p: nat :| MarkAt(s, p);
      MarkInSum([c], s, p);
    }
    MarkIsPrefix(t);
  }

  lemma {:induction false} PlainPrefix(w: string, text: string)
    requires forall i | 0 <= i < |w| :: !IsSpecial(w[i])
    ensures w <= Escaped(text) <==> w <= text
  {
    if w != [] && text != [] {
      var e := Escaped(text);
      PlainPrefix(w[1..], text[1..]);
      if !IsSpecial(text[0]) {
        assert e == [text[0]] + Escaped(text[1..]);
        assert w <= e <==> w[0] == e[0] && w[1..] <= e[1..];
        assert w <= text <==> w[0] == text[0] && w[1..] <= text[1..];
      } else {
        assert e[0] == '\\' && w[0] != e[0] && w[0] != text[0];
      }
    }
  }

  /** Escaping neither makes nor breaks a mark. */
  lemma {:induction false} EscapedMark(text: string)
    ensures HasMark(Escaped(text)) <==> HasMark(text)
  {
    if text != [] {
      var rest := Escaped(text[1..]);
      EscapedMark(text[1..]);
      HasMarkCons(text[0], text[1..]);
      assert [text[0]] + text[1..] == text;
      if IsSpecial(text[0]) {
        var pair := ['\\', text[0]];
        assert Escaped(text) == pair + rest;
        OneLineHasNoMark(pair);
        HasMarkInSum(pair, rest);
      } else {
        assert Escaped(text) == [text[0]] + rest;
        HasMarkCons(text[0], rest);
        PlainPrefix(MARK, text);
      }
    }
  }

  // ---------- Printed lines ----------

  /** A printed line without its line feed. */
  function Body(pieces: seq<Piece>): string
    requires pieces != []
  {
    if |pieces| == 1 then PieceText(pieces[0]) else PieceText(pieces[0]) + [' '] + Body(pieces[1..])
  }

  lemma {:induction false} BodyAndLineFeed(pieces: seq<Piece>)
    requires pieces != []
    ensures PrintLine(pieces) == Body(pieces) + ['\n']
  {
    if |pieces| > 1 {
      BodyAndLineFeed(pieces[1..]);
      Regroup(PieceText(pieces[0]) + [' '], Body(pieces[1..]), ['\n']);
    }
  }

  predicate BaresFit(pieces: seq<Piece>) {
    forall i | 0 <= i < |pieces| && pieces[i].Bare? :: OneLine(pieces[i].text)
  }

  ghost predicate QuotesMark(pieces: seq<Piece>) {
    exists i :: 0 <= i < |pieces| && pieces[i].InQuotes? && HasMark(pieces[i].text)
  }

  lemma PieceMark(p: Piece)
    requires p.Bare? ==> OneLine(p.text)
    ensures HasMark(PieceText(p)) <==> p.InQuotes? && HasMark(p.text)
  {
    match p
    case Bare(text) => OneLineHasNoMark(text);
    case InQuotes(text) =>
      EscapedMark(text);
      OneLineHasNoMark(['"']);
      HasMarkInSum(['"'], Escaped(text));
      HasMarkInSum(['"'] + Escaped(text), ['"']);
  }

  /** Marks are in the quoted texts and nowhere else. */
  lemma {:induction false} BodyMark(pieces: seq<Piece>)
    requires pieces != [] && BaresFit(pieces)
    ensures HasMark(Body(pieces)) <==> QuotesMark(pieces)
  {
    var text := PieceText(pieces[0]);
    PieceMark(pieces[0]);
    if |pieces| > 1 {
      var rest := Body(pieces[1..]);
      BodyMark(pieces[1..]);
      OneLineHasNoMark([' ']);
      HasMarkInSum([' '], rest);
      HasMarkInSum(text, [' '] + rest);
      Regroup(text, [' '], rest);
      QuotesMarkSplit(pieces);
    }
  }

  lemma QuotesMarkSplit(pieces: seq<Piece>)
    requires pieces != []
    ensures QuotesMark(pieces) <==> (pieces[0].InQuotes? && HasMark(pieces[0].text)) || QuotesMark(pieces[1..])
  {
    if QuotesMark(pieces) {
      var i :| 0 <= i < |pieces| && pieces[i].InQuotes? && HasMark(pieces[i].text);
      assert i > 0 ==> pieces[1..][i - 1] == pieces[i];
    }
    if QuotesMark(pieces[1..]) {
      var i :| 0 <= i < |pieces| - 1 && pieces[1..][i].InQuotes? && HasMark(pieces[1..][i].text);
      assert pieces[1..][i] == pieces[i + 1];
    }
  }

  lemma {:induction false} OneLineBody(pieces: seq<Piece>)
    requires pieces != [] && BaresFit(pieces) && forall i | 0 <= i < |pieces| :: pieces[i].Bare?
    ensures OneLine(Body(pieces))
  {
    if |pieces| > 1 {
      OneLineBody(pieces[1..]);
    }
  }

  /** Header and footer are one line each. */
  lemma HeadingIsLine(verb: string, kind: ListKind, h: Header)
    requires ValidHeader(kind, h) && OneLine(verb)
    ensures IsLine(PrintLine(Heading(verb, kind, h)))
  {
    var pieces := Heading(verb, kind, h);
    OneLineBody(pieces);
    BodyAndLineFeed(pieces);
  }

  lemma PrintTwo(a: string, b: string, pieces: seq<Piece>)
    requires |pieces| > 2 && pieces[0] == Bare(a) && pieces[1] == Bare(b)
    ensures a + [' '] + b <= PrintLine(pieces)
  {
    var rest := PrintLine(pieces[1..]);
    assert pieces[1..][0] == Bare(b);
    assert b <= rest;
    var more := rest[|b|..];
    assert PrintLine(pieces) == a + [' '] + b + more;
  }

  lemma HeadingStarts(kind: ListKind, h: Header)
    ensures StartsList(PrintLine(Heading("BEGIN", kind, h))) && EndsList(PrintLine(Heading("END", kind, h)))
  {
    PrintTwo("BEGIN", "LIST", Heading("BEGIN", kind, h));
    PrintTwo("END", "LIST", Heading("END", kind, h));
    assert "BEGIN" + [' '] + "LIST" == "BEGIN LIST";
    assert "END" + [' '] + "LIST" == "END LIST";
  }

  // ---------- Printed items ----------

  lemma ItemPiecesFit(kind: ListKind, h: Header, item: Item, isIp: string -> bool)
    requires ValidHeader(kind, h) && ValidItem(kind, item, isIp)
    ensures BaresFit(ItemPieces(kind, h, item))
  {
  }

  /** An item line does not look like the end of a list. */
  lemma ItemDoesNotEnd(kind: ListKind, h: Header, item: Item)
    ensures !("END LIST" <= Body(ItemPieces(kind, h, item)))
  {
    var body, word := Body(ItemPieces(kind, h, item)), Keyword(kind);
    assert ItemPieces(kind, h, item)[0] == Bare(word);
    assert |body| > |word| && body[..|word|] == word;
    assert body[0] == word[0];
    if kind.EnumKind? {
      assert body[2] == word[2] == 'U';
    }
  }

  ghost predicate ItemsMark(kind: ListKind, h: Header, items: seq<Item>) {
    exists i :: 0 <= i < |items| && QuotesMark(ItemPieces(kind, h, items[i]))
  }

  lemma ItemLineMark(kind: ListKind, h: Header, item: Item, isIp: string -> bool)
    requires ValidHeader(kind, h) && ValidItem(kind, item, isIp)
    ensures var pieces := ItemPieces(kind, h, item);
            HasMark(['\n'] + Body(pieces)) <==> QuotesMark(pieces)
  {
    var pieces := ItemPieces(kind, h, item);
    ItemPiecesFit(kind, h, item, isIp);
    BodyMark(pieces);
    ItemDoesNotEnd(kind, h, item);
    HasMarkCons('\n', Body(pieces));
    MarkThenEnd(Body(pieces));
  }

  lemma {:induction false} PrintedItemsMark(kind: ListKind, h: Header, items: seq<Item>, isIp: string -> bool)
    requires ValidHeader(kind, h) && ValidItems(kind, items, isIp)
    ensures HasMark(['\n'] + PrintItems(kind, h, items)) <==> ItemsMark(kind, h, items)
  {
    if items == [] {
      OnlyLineFeed();
      assert ['\n'] + [] == ['\n'];
    } else {
      var pieces, rest := ItemPieces(kind, h, items[0]), items[1..];
      PrintedItemsMark(kind, h, rest, isIp);
      ItemLineMark(kind, h, items[0], isIp);
      LineThenMore(Body(pieces), PrintItems(kind, h, rest));
      BodyAndLineFeed(pieces);
      ItemsMarkSplit(kind, h, items);
    }
  }

  lemma OnlyLineFeed()
    ensures !HasMark(['\n'])
  {
    forall p: nat ensures !MarkAt(['\n'], p) {
    }
  }

  lemma LineThenMore(body: string, more: string)
    ensures HasMark(['\n'] + (body + ['\n'] + more)) <==> HasMark(['\n'] + body) || HasMark(['\n'] + more)
  {
    HasMarkInSum(['\n'] + body, ['\n'] + more);
    assert ['\n'] + (body + ['\n'] + more) == ['\n'] + body + (['\n'] + more);
  }

  lemma MarkThenEnd(body: string)
    ensures MARK <= ['\n'] + body <==> "END LIST" <= body
  {
    MarkIsPrefix(['\n'] + body);
    EndIsPrefix(body);
  }

  lemma ItemsMarkSplit(kind: ListKind, h: Header, items: seq<Item>)
    requires items != []
    ensures ItemsMark(kind, h, items)
            <==> QuotesMark(ItemPieces(kind, h, items[0])) || ItemsMark(kind, h, items[1..])
  {
    if ItemsMark(kind, h, items) {
      var i :| 0 <= i < |items| && QuotesMark(ItemPieces(kind, h, items[i]));
      assert i > 0 ==> items[1..][i - 1] == items[i];
    }
    if ItemsMark(kind, h, items[1..]) {
      var i :| 0 <= i < |items| - 1 && QuotesMark(ItemPieces(kind, h, items[1..][i]));
      assert items[1..][i] == items[i + 1];
    }
  }

  // ---------- Where the client sees the end ----------

  lemma {:induction false} LineEndBy(b: string, i: nat, f: nat)
    requires i <= f < |b| && b[f] == '\n'
    ensures Framing.LineEnd(b, i, false).Some? && Framing.LineEnd(b, i, false).value <= f + 1
    decreases f - i
  {
    if b[i] != '\n' {
      LineEndBy(b, i + 1, f);
    }
  }

  lemma {:induction false} LineEndChars(b: string, i: nat)
    requires i <= |b| && Framing.LineEnd(b, i, false).Some?
    ensures var end := Framing.LineEnd(b, i, false).value;
            i < end && b[end - 1] == '\n' && forall j | i <= j < end - 1 :: b[j] != '\n'
    decreases |b| - i
  {
    if b[i] != '\n' {
      LineEndChars(b, i + 1);
    }
  }

  /** The client takes a line for the end of a list exactly where a mark begins. */
  lemma EndLineIsMark(b: string, i: nat)
    requires 0 < i <= |b| && b[i - 1] == '\n' && Framing.LineEnd(b, i, false).Some?
    ensures EndsList(b[i..Framing.LineEnd(b, i, false).value]) <==> MarkAt(b, i - 1)
  {
    var end := Framing.LineEnd(b, i, false).value;
    LineEndChars(b, i);
    EndIsPrefix(b[i..end]);
  }

  /** The list ends with the line of the first mark. */
  lemma {:induction false} ListEndsAtFirstMark(b: string, i: nat, f: nat)
    requires 0 < i <= f + 1 && MarkAt(b, f) && b[i - 1] == '\n'
    requires forall p | i - 1 <= p < f :: !MarkAt(b, p)
    ensures ListEnd(b, i, false) == Framing.LineEnd(b, f + 1, false)
    decreases f + 1 - i
  {
    if f >= i {
      LineEndBy(b, i, f);
      LineEndChars(b, i);
      EndLineIsMark(b, i);
      ListEndsAtFirstMark(b, Framing.LineEnd(b, i, false).value, f);
    } else if Framing.LineEnd(b, i, false).Some? {
      EndLineIsMark(b, i);
    }
  }

  /** The first mark from `p` on and before `f`; `f` if there is none. */
  function FirstMark(b: string, p: nat, f: nat): (m: nat)
    requires p <= f
    ensures p <= m <= f && (m < f ==> MarkAt(b, m))
    ensures forall q | p <= q < m :: !MarkAt(b, q)
    decreases f - p
  {
    if p == f || MarkAt(b, p) then p else FirstMark(b, p + 1, f)
  }

  /** A mark that begins before the line feed at `f` also ends before it. */
  lemma MarksInWindow(b: string, p: nat, f: nat, q: nat)
    requires p <= q < f < |b| && b[f] == '\n'
    ensures MarkAt(b, q) <==> MarkAt(b[p..f + 1], q - p)
  {
  }

  /** With a line feed before the items and the footer behind them, the list ends with the footer
      exactly if there is no mark among the items. */
  lemma EndsAtFooter(b: string, i: nat, f: nat, end: nat)
    requires 0 < i <= f + 1 && f < |b| && b[i - 1] == '\n' && b[f] == '\n'
    requires MarkAt(b, f) && Framing.LineEnd(b, f + 1, false) == Some(end)
    ensures ListEnd(b, i, false) == Some(end) <==> !HasMark(b[i - 1..f + 1])
  {
    var m := FirstMark(b, i - 1, f);
    ListEndsAtFirstMark(b, i, m);
    if m < f {
      MarksInWindow(b, i - 1, f, m);
      LineEndBy(b, m + 1, f);
      LineEndChars(b, f + 1);
    } else {
      NoMarkInWindow(b, i - 1, f);
    }
  }

  lemma NoMarkInWindow(b: string, p: nat, f: nat)
    requires p <= f < |b| && b[f] == '\n' && forall q | p <= q < f :: !MarkAt(b, q)
    ensures !HasMark(b[p..f + 1])
  {
    var w := b[p..f + 1];
    forall q: nat ensures !MarkAt(w, q) {
      if q + 9 <= |w| {
        MarksInWindow(b, p, f, p + q);
      }
    }
  }

  lemma Parts(b: string, i: nat, x: string, y: string, z: string)
    requires i + |x + y + z| <= |b| && b[i..i + |x + y + z|] == x + y + z
    ensures b[i..i + |x|] == x && b[i + |x|..i + |x| + |y|] == y
    ensures b[i + |x| + |y|..i + |x| + |y| + |z|] == z
  {
    SplitSlice(b, i, i + |x| + |y|, i + |x + y + z|);
    assert (x + y + z)[..|x| + |y|] == x + y && (x + y + z)[|x| + |y|..] == z;
    SplitSlice(b, i, i + |x|, i + |x| + |y|);
    assert (x + y)[..|x|] == x && (x + y)[|x|..] == y;
  }

  /** A line that starts a list, lines, and a line that ends the list. */
  lemma ThreeSlicesTaken(b: string, i: nat, start: nat, footer: nat, end: nat)
    requires i < start <= footer < end <= |b|
    requires IsLine(b[i..start]) && StartsList(b[i..start])
    requires IsLine(b[footer..end]) && EndsList(b[footer..end])
    requires b[start - 1] == '\n' && b[footer - 1] == '\n'
    ensures ReplyEnd(b, i, false) == Some(end) <==> !HasMark(b[start - 1..footer])
  {
    LineEndOf(b, i, start, false);
    LineEndOf(b, footer, end, false);
    EndLineIsMark(b, footer);
    EndsAtFooter(b, start, footer - 1, end);
  }

  lemma ThreePartsTaken(b: string, i: nat, text: string, first: string, middle: string, last: string)
    requires text == first + middle + last && i + |text| <= |b| && b[i..i + |text|] == text
    requires IsLine(first) && StartsList(first) && IsLine(last) && EndsList(last)
    requires middle == [] || middle[|middle| - 1] == '\n'
    ensures ReplyEnd(b, i, false) == Some(i + |text|) <==> !HasMark(['\n'] + middle)
  {
    var start, footer := i + |first|, i + |first| + |middle|;
    Parts(b, i, first, middle, last);
    LastOfSlice(b, i, start);
    if middle != [] {
      LastOfSlice(b, start, footer);
    }
    ThreeSlicesTaken(b, i, start, footer, i + |text|);
    Window(b, start, footer);
  }

  lemma Window(b: string, i: nat, j: nat)
    requires 0 < i <= j <= |b|
    ensures b[i - 1..j] == [b[i - 1]] + b[i..j]
  {
  }

  lemma LastOfSlice(b: string, i: nat, j: nat)
    requires i < j <= |b|
    ensures b[i..j][j - i - 1] == b[j - 1]
  {
  }

  lemma {:induction false} ItemsEndInLineFeed(kind: ListKind, h: Header, items: seq<Item>)
    requires items != []
    ensures var s := PrintItems(kind, h, items); s != [] && s[|s| - 1] == '\n'
  {
    BodyAndLineFeed(ItemPieces(kind, h, items[0]));
    if |items| > 1 {
      ItemsEndInLineFeed(kind, h, items[1..]);
    }
  }

  /** The header line and the footer line around the items. */
  lemma PrintedParts(kind: ListKind, h: Header, items: seq<Item>)
    returns (first: string, middle: string, last: string)
    requires ValidHeader(kind, h)
    ensures middle == PrintItems(kind, h, items) && PrintList(kind, h, items) == first + middle + last
    ensures IsLine(first) && StartsList(first) && IsLine(last) && EndsList(last)
    ensures middle == [] || middle[|middle| - 1] == '\n'
  {
    middle := PrintItems(kind, h, items);
    first, last := PrintLine(Heading("BEGIN", kind, h)), PrintLine(Heading("END", kind, h));
    HeadingStarts(kind, h);
    HeadingIsLine("BEGIN", kind, h);
    HeadingIsLine("END", kind, h);
    if items != [] {
      ItemsEndInLineFeed(kind, h, items);
    }
  }

  lemma PrintedListStarts(kind: ListKind, h: Header, items: seq<Item>)
    ensures StartsList(PrintList(kind, h, items))
  {
    var first, last := PrintLine(Heading("BEGIN", kind, h)), PrintLine(Heading("END", kind, h));
    HeadingStarts(kind, h);
    StillStartsList(first, PrintItems(kind, h, items));
    StillStartsList(first + PrintItems(kind, h, items), last);
  }

  lemma TakenIsReply(b: string, i: nat, text: string)
    requires i + |text| <= |b| && b[i..i + |text|] == text && StartsList(text)
    requires ReplyEnd(b, i, false) == Some(i + |text|)
    ensures ReplyAt(b, i, false) == Response(text)
  {
  }

  // ---------- Main results ----------

  /** Wherever a printed list stands in the stream, the client takes exactly the list as its reply
      if and only if no quoted text of an item holds a line feed and the words that end a list. */
  lemma ListIsTaken(b: string, i: nat, text: string, kind: ListKind, h: Header, items: seq<Item>,
                    isIp: string -> bool)
    requires ValidHeader(kind, h) && ValidItems(kind, items, isIp) && text == PrintList(kind, h, items)
    requires i + |text| <= |b| && b[i..i + |text|] == text
    ensures ReplyEnd(b, i, false) == Some(i + |text|) <==> !ItemsMark(kind, h, items)
  {
    var first, middle, last := PrintedParts(kind, h, items);
    ThreePartsTaken(b, i, text, first, middle, last);
    PrintedItemsMark(kind, h, items, isIp);
  }

  /** A description that holds a line feed and the words that end a list cuts LIST UPS short. */
  lemma MarkCutsList(isIp: string -> bool)
    ensures var h, items := Header("", ""), [Item("ups", MARK)];
            var text := PrintList(UpsKind, h, items);
            && ValidHeader(UpsKind, h) && ValidItems(UpsKind, items, isIp)
            && ReplyEnd(text, 0, false) != Some(|text|)
  {
    var h, items := Header("", ""), [Item("ups", MARK)];
    var text := PrintList(UpsKind, h, items);
    assert IsWord("ups");
    MarkIsPrefix(MARK);
    assert HasMark(MARK);
    assert QuotesMark(ItemPieces(UpsKind, h, items[0])) by {
      assert ItemPieces(UpsKind, h, items[0])[2] == InQuotes(MARK);
    }
    assert text[0..|text|] == text;
    ListIsTaken(text, 0, text, UpsKind, h, items, isIp);
  }

  /** End to end: then the reply parses to the items that were printed. */
  lemma ListArrives(b: string, i: nat, text: string, kind: ListKind, h: Header, items: seq<Item>,
                    isIp: string -> bool)
    requires ValidHeader(kind, h) && ValidItems(kind, items, isIp) && text == PrintList(kind, h, items)
    requires i + |text| <= |b| && b[i..i + |text|] == text
    ensures !ItemsMark(kind, h, items) ==>
              ReplyAt(b, i, false) == Response(text)
              && ListOf(Lexemes(text, 0), kind, isIp) == Ok((h, ReadBackAll(kind, items)))
  {
    ListIsTaken(b, i, text, kind, h, items, isIp);
    PrintedListStarts(kind, h, items);
    if !ItemsMark(kind, h, items) {
      TakenIsReply(b, i, text);
    }
    ListReadsBack(kind, h, items, isIp);
  }
}
