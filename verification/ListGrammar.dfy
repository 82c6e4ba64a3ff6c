/** The exact set of list messages that deserialization accepts, stated over lines. */
module ListGrammar {
  import opened Wrappers
  import opened Names
  import opened Values
  import opened Lexing
  import opened LineParsing
  import opened ListResponses

  // ---------- Lines ----------

  /** The lexemes before the first line feed. */
  function FirstLine(ls: seq<Lexeme>): seq<Lexeme> {
    if ls == [] || ls[0] == Newline then [] else [ls[0]] + FirstLine(ls[1..])
  }

  /** What follows the first line, blank lines skipped. */
  function AfterLine(ls: seq<Lexeme>): (rest: seq<Lexeme>)
    ensures ls != [] ==> |rest| < |ls|
    ensures rest != [] ==> rest[0] != Newline
  {
    if ls == [] then []
    else if ls[0] == Newline then DropNewlines(ls[1..])
    else AfterLine(ls[1..])
  }

  function Lines(ls: seq<Lexeme>): seq<seq<Lexeme>>
    decreases |ls|
  {
    if ls == [] then [] else [FirstLine(ls)] + Lines(AfterLine(ls))
  }

  /** The captures of a line that has exactly one lexeme for each rule. */
  ghost function LineCaptures(line: seq<Lexeme>, rules: seq<Rule>): Option<seq<Capture>> {
    if rules == [] then
      if line == [] then Some([]) else None
    else if line == [] then None
    else
      match (Element(line, rules[0]), LineCaptures(line[1..], rules[1..]))
      case (Ok(first), Some(rest)) => Some(first + rest)
      case _ => None
  }

  /** The line parser accepts exactly the lines that match, and reads nothing beyond them. */
  lemma {:induction false} LineAccepts(ls: seq<Lexeme>, rules: seq<Rule>)
    ensures match Line(ls, rules)
            case Ok((captured, rest)) =>
              LineCaptures(FirstLine(ls), rules) == Some(captured) && rest == AfterLine(ls)
            case Err(_) => LineCaptures(FirstLine(ls), rules) == None
    decreases rules
  {
    if rules != [] && ls != [] {
      LineAccepts(ls[1..], rules[1..]);
      assert ls[0] != Newline ==> FirstLine(ls)[1..] == FirstLine(ls[1..]);
    }
  }

  // ---------- List messages ----------

  /** `message` is a header line, one line for each item, each repeating the names of the header
      where the form carries them, the matching footer, and no further token: behind the footer
      the input ends, or breaks off inside a quote. */
  ghost predicate IsListMessage(message: seq<Lexeme>, kind: ListKind, isIp: string -> bool,
                                header: seq<Capture>, items: seq<seq<Capture>>)
  {
    var lines := Lines(message);
    var h := HeaderOf(header);
    && lines != []
    && LineCaptures(lines[0], HeaderRules(kind)) == Some(header) && HeaderOk(kind, h)
    && AreItemsAndFooter(lines[1..], kind, ItemRules(kind, h), FooterRules(kind, h), isIp, items)
  }

  ghost predicate AreItemsAndFooter(lines: seq<seq<Lexeme>>, kind: ListKind, rules: seq<Rule>, footer: seq<Rule>,
                              isIp: string -> bool, items: seq<seq<Capture>>)
  {
    var n := |items|;
    && n < |lines|
    && (forall i | 0 <= i < n :: LineCaptures(lines[i], rules) == Some(items[i]) && ItemOk(kind, items[i], isIp))
    && LineCaptures(lines[n], footer) == Some([])
    && (|lines| == n + 1 || IsBroken(lines[n + 1]))
  }

  /** `lines` begins with one line for each item. */
  ghost predicate ItemLines(ls: seq<Lexeme>, kind: ListKind, h: Header, isIp: string -> bool,
                            items: seq<seq<Capture>>, rest: seq<Lexeme>)
    decreases items
  {
    if items == [] then ls == rest && PeekedText(ls) != Some(Keyword(kind))
    else
      && LineCaptures(FirstLine(ls), ItemRules(kind, h)) == Some(items[0]) && ItemOk(kind, items[0], isIp)
      && ItemLines(AfterLine(ls), kind, h, isIp, items[1..], rest)
  }

  lemma {:induction false} ItemsAccept(ls: seq<Lexeme>, kind: ListKind, h: Header, isIp: string -> bool,
                                       items: seq<seq<Capture>>, rest: seq<Lexeme>)
    ensures Items(ls, kind, h, isIp) == Ok((items, rest)) <==> ItemLines(ls, kind, h, isIp, items, rest)
    decreases |ls|
  {
    var rules := ItemRules(kind, h);
    var line := Line(ls, rules);
    if PeekedText(ls) == Some(Keyword(kind)) && line.Ok? {
      LineAccepts(ls, rules);
      var tail := Items(line.value.1, kind, h, isIp);
      if tail.Ok? {
        ItemsAccept(line.value.1, kind, h, isIp, tail.value.0, tail.value.1);
        assert ([line.value.0] + tail.value.0)[1..] == tail.value.0;
      }
    }
    if items != [] {
      LineAccepts(ls, rules);
      if line.Ok? {
        ItemsAccept(AfterLine(ls), kind, h, isIp, items[1..], rest);
        assert items == [items[0]] + items[1..];
      }
    }
  }

  /** Consecutive item lines, seen by their index. */
  lemma {:induction false} ItemLinesAt(ls: seq<Lexeme>, kind: ListKind, h: Header, isIp: string -> bool,
                                       items: seq<seq<Capture>>, rest: seq<Lexeme>)
    requires ItemLines(ls, kind, h, isIp, items, rest)
    ensures |Lines(ls)| == |items| + |Lines(rest)| && Lines(ls)[|items|..] == Lines(rest)
    ensures forall i | 0 <= i < |items| ::
              LineCaptures(Lines(ls)[i], ItemRules(kind, h)) == Some(items[i]) && ItemOk(kind, items[i], isIp)
    decreases items
  {
    if items != [] {
      var more := AfterLine(ls);
      ItemLinesAt(more, kind, h, isIp, items[1..], rest);
      assert ItemRules(kind, h) != [] && ls != [];
      var first, others := FirstLine(ls), Lines(more);
      assert Lines(ls) == [first] + others;
      assert ([first] + others)[|items|..] == others[|items| - 1..];
      forall i | 0 <= i < |items|
        ensures LineCaptures(Lines(ls)[i], ItemRules(kind, h)) == Some(items[i]) && ItemOk(kind, items[i], isIp)
      {
        if i > 0 {
          assert Lines(ls)[i] == others[i - 1] && items[i] == items[1..][i - 1];
        }
      }
    }
  }

  /** The lexemes that are left when `k` lines have been read. */
  function DropLines(ls: seq<Lexeme>, k: nat): seq<Lexeme>
    decreases k
  {
    if k == 0 then ls else DropLines(AfterLine(ls), k - 1)
  }

  lemma {:induction false} ItemLinesFrom(ls: seq<Lexeme>, kind: ListKind, h: Header, isIp: string -> bool,
                                         items: seq<seq<Capture>>)
    requires |items| < |Lines(ls)|
    requires forall i | 0 <= i < |items| ::
               LineCaptures(Lines(ls)[i], ItemRules(kind, h)) == Some(items[i]) && ItemOk(kind, items[i], isIp)
    requires LineCaptures(Lines(ls)[|items|], FooterRules(kind, h)) == Some([])
    ensures ItemLines(ls, kind, h, isIp, items, DropLines(ls, |items|))
    decreases items
  {
    if items == [] {
    } else {
      var more, rest := AfterLine(ls), items[1..];
      assert Lines(ls)[1..] == Lines(more);
      forall i | 0 <= i < |rest|
        ensures LineCaptures(Lines(more)[i], ItemRules(kind, h)) == Some(rest[i]) && ItemOk(kind, rest[i], isIp)
      {
        assert Lines(more)[i] == Lines(ls)[i + 1] && rest[i] == items[i + 1];
      }
      assert Lines(more)[|rest|] == Lines(ls)[|items|];
      ItemLinesFrom(more, kind, h, isIp, rest);
    }
  }

  lemma BrokenLines(ls: seq<Lexeme>)
    ensures Lines(ls) == [] <==> ls == []
    ensures ls != [] ==> (IsBroken(Lines(ls)[0]) <==> IsBroken(ls))
  {
  }

  /** Deserialization returns a header and items exactly for the messages with that header and
      those items. */
  lemma ListAcceptance(message: seq<Lexeme>, kind: ListKind, isIp: string -> bool,
                       h: Header, items: seq<seq<Capture>>)
    ensures ListOf(message, kind, isIp) == Ok((h, items))
            <==> exists header :: HeaderOf(header) == h && IsListMessage(message, kind, isIp, header, items)
  {
    if ListOf(message, kind, isIp) == Ok((h, items)) {
      var (header, body) := Line(message, HeaderRules(kind)).value;
      AcceptedIsMessage(message, kind, isIp, header, items);
    }
    forall header | HeaderOf(header) == h && IsListMessage(message, kind, isIp, header, items)
      ensures ListOf(message, kind, isIp) == Ok((h, items))
    {
      MessageIsAccepted(message, kind, isIp, header, items);
    }
  }

  lemma AcceptedIsMessage(message: seq<Lexeme>, kind: ListKind, isIp: string -> bool,
                          header: seq<Capture>, items: seq<seq<Capture>>)
    requires Line(message, HeaderRules(kind)).Ok? && Line(message, HeaderRules(kind)).value.0 == header
    requires ListOf(message, kind, isIp) == Ok((HeaderOf(header), items))
    ensures IsListMessage(message, kind, isIp, header, items)
  {
    var h := HeaderOf(header);
    var body := Line(message, HeaderRules(kind)).value.1;
    LineAccepts(message, HeaderRules(kind));
    assert Lines(message) == [FirstLine(message)] + Lines(body);
    BodyIsLines(body, kind, h, isIp, items);
  }

  lemma BodyIsLines(body: seq<Lexeme>, kind: ListKind, h: Header, isIp: string -> bool, items: seq<seq<Capture>>)
    requires Items(body, kind, h, isIp).Ok? && Items(body, kind, h, isIp).value.0 == items
    requires FooterOf(Items(body, kind, h, isIp).value.1, kind, h).Ok?
    ensures AreItemsAndFooter(Lines(body), kind, ItemRules(kind, h), FooterRules(kind, h), isIp, items)
  {
    var rest := Items(body, kind, h, isIp).value.1;
    ItemsAccept(body, kind, h, isIp, items, rest);
    ItemLinesAt(body, kind, h, isIp, items, rest);
    FooterIsLine(rest, kind, h);
    assert Lines(body)[|items|..][0] == Lines(body)[|items|];
  }

  lemma FooterIsLine(rest: seq<Lexeme>, kind: ListKind, h: Header)
    ensures FooterOf(rest, kind, h).Ok?
            <==> AreItemsAndFooter(Lines(rest), kind, [], FooterRules(kind, h), _ => true, [])
  {
    var rules := FooterRules(kind, h);
    var line := Line(rest, rules);
    LineAccepts(rest, rules);
    if line.Ok? {
      FooterCapturesNothing(rest, kind, h);
      BrokenLines(line.value.1);
      assert Lines(rest) == [FirstLine(rest)] + Lines(line.value.1);
    }
  }

  lemma FooterCapturesNothing(ls: seq<Lexeme>, kind: ListKind, h: Header)
    requires Line(ls, FooterRules(kind, h)).Ok?
    ensures Line(ls, FooterRules(kind, h)).value.0 == []
  {
    LiteralsCaptureNothing(ls, FooterRules(kind, h));
  }

  lemma {:induction false} LiteralsCaptureNothing(ls: seq<Lexeme>, rules: seq<Rule>)
    requires Line(ls, rules).Ok? && forall i | 0 <= i < |rules| :: rules[i].Literal?
    ensures Line(ls, rules).value.0 == []
    decreases rules
  {
    if rules != [] {
      LiteralsCaptureNothing(ls[1..], rules[1..]);
    }
  }

  lemma MessageIsAccepted(message: seq<Lexeme>, kind: ListKind, isIp: string -> bool,
                          header: seq<Capture>, items: seq<seq<Capture>>)
    requires IsListMessage(message, kind, isIp, header, items)
    ensures ListOf(message, kind, isIp) == Ok((HeaderOf(header), items))
  {
    var body := AfterLine(message);
    assert Lines(message) == [FirstLine(message)] + Lines(body);
    LineAccepts(message, HeaderRules(kind));
    LinesAreBody(body, kind, HeaderOf(header), isIp, items);
  }

  lemma LinesAreBody(body: seq<Lexeme>, kind: ListKind, h: Header, isIp: string -> bool, items: seq<seq<Capture>>)
    requires AreItemsAndFooter(Lines(body), kind, ItemRules(kind, h), FooterRules(kind, h), isIp, items)
    ensures Items(body, kind, h, isIp).Ok? && Items(body, kind, h, isIp).value.0 == items
    ensures FooterOf(Items(body, kind, h, isIp).value.1, kind, h).Ok?
  {
    ItemLinesFrom(body, kind, h, isIp, items);
    var rest := DropLines(body, |items|);
    ItemLinesAt(body, kind, h, isIp, items, rest);
    ItemsAccept(body, kind, h, isIp, items, rest);
    assert Lines(body)[|items|..][0] == Lines(body)[|items|];
    FooterIsLine(rest, kind, h);
  }
}
