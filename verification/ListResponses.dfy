/** The seven LIST responses: deserialization and the exact set of accepted messages. */
module ListResponses {
  import opened Wrappers
  import opened Names
  import opened Values
  import opened Lexing
  import opened LineParsing

  datatype ListKind = UpsKind | VarKind | RwKind | EnumKind | RangeKind | CmdKind | ClientKind

  /** What the header line names; a field is empty where the form does not carry it. */
  datatype Header = Header(ups: string, variable: string)

  function Keyword(kind: ListKind): (k: string)
    ensures k != "END"
  {
    match kind
    case UpsKind => "UPS"
    case VarKind => "VAR"
    case RwKind => "RW"
    case EnumKind => "ENUM"
    case RangeKind => "RANGE"
    case CmdKind => "CMD"
    case ClientKind => "CLIENT"
  }

  predicate NamesVariable(kind: ListKind) {
    kind.EnumKind? || kind.RangeKind?
  }

  function HeaderRules(kind: ListKind): seq<Rule> {
    var word := Literal(Keyword(kind));
    if kind.UpsKind? then [Literal("BEGIN"), Literal("LIST"), word]
    else if NamesVariable(kind) then [Literal("BEGIN"), Literal("LIST"), word, UpsRule, TextRule]
    else [Literal("BEGIN"), Literal("LIST"), word, UpsRule]
  }

  function ItemRules(kind: ListKind, h: Header): seq<Rule> {
    var word := Literal(Keyword(kind));
    match kind
    case UpsKind => [word, UpsRule, QuotedRule]
    case VarKind => [word, Literal(h.ups), VarRule, ValueRule]
    case RwKind => [word, Literal(h.ups), VarRule, ValueRule]
    case EnumKind => [word, Literal(h.ups), Literal(h.variable), ValueRule]
    case RangeKind => [word, Literal(h.ups), Literal(h.variable), NumberRule, NumberRule]
    case CmdKind => [word, Literal(h.ups), CmdRule]
    case ClientKind => [word, Literal(h.ups), TextRule]
  }

  function FooterRules(kind: ListKind, h: Header): seq<Rule> {
    var word := Literal(Keyword(kind));
    if kind.UpsKind? then [Literal("END"), Literal("LIST"), word]
    else if NamesVariable(kind) then [Literal("END"), Literal("LIST"), word, Literal(h.ups), Literal(h.variable)]
    else [Literal("END"), Literal("LIST"), word, Literal(h.ups)]
  }

  function TextAt(captured: seq<Capture>, i: nat): string {
    if i < |captured| && captured[i].Str? then captured[i].text else ""
  }

  function HeaderOf(captured: seq<Capture>): Header {
    Header(TextAt(captured, 0), TextAt(captured, 1))
  }

  /** ENUM and RANGE check the variable name after the header line. */
  predicate HeaderOk(kind: ListKind, h: Header) {
    NamesVariable(kind) ==> IsDottedName(h.variable)
  }

  /** CLIENT parses the address after the item line. */
  predicate ItemOk(kind: ListKind, captured: seq<Capture>, isIp: string -> bool) {
    kind.ClientKind? ==> isIp(TextAt(captured, 0))
  }

  // ---------- Specification ----------

  ghost function Items(ls: seq<Lexeme>, kind: ListKind, h: Header, isIp: string -> bool):
    Result<(seq<seq<Capture>>, seq<Lexeme>), ParseError>
    decreases |ls|
  {
    if PeekedText(ls) != Some(Keyword(kind)) then Ok(([], ls))
    else
      var line :- Line(ls, ItemRules(kind, h));
      if !ItemOk(kind, line.0, isIp) then Err(InvalidToken)
      else
        var rest :- Items(line.1, kind, h, isIp);
        Ok(([line.0] + rest.0, rest.1))
  }

  /** The footer line, with no further token behind it. */
  ghost function FooterOf(ls: seq<Lexeme>, kind: ListKind, h: Header): Result<(), ParseError> {
    var footer :- Line(ls, FooterRules(kind, h));
    if footer.1 == [] || IsBroken(footer.1) then Ok(()) else Err(InvalidToken)
  }

  /** The captures of the header and of every item line, in order. */
  ghost function ListOf(ls: seq<Lexeme>, kind: ListKind, isIp: string -> bool):
    Result<(Header, seq<seq<Capture>>), ParseError>
  {
    var header :- Line(ls, HeaderRules(kind));
    var h := HeaderOf(header.0);
    if !HeaderOk(kind, h) then Err(BadVarName)
    else
      var items :- Items(header.1, kind, h, isIp);
      var _ :- FooterOf(items.1, kind, h);
      Ok((h, items.0))
  }

  // ---------- Deserialization ----------

  ghost function After(done: seq<seq<Capture>>, items: Result<(seq<seq<Capture>>, seq<Lexeme>), ParseError>):
    Result<(seq<seq<Capture>>, seq<Lexeme>), ParseError>
  {
    if items.Ok? then Ok((done + items.value.0, items.value.1)) else items
  }

  lemma ItemsAfter(done: seq<seq<Capture>>, ls: seq<Lexeme>, kind: ListKind, h: Header, isIp: string -> bool)
    requires PeekedText(ls) == Some(Keyword(kind))
    requires Line(ls, ItemRules(kind, h)).Ok?
    requires ItemOk(kind, Line(ls, ItemRules(kind, h)).value.0, isIp)
    ensures var (item, rest) := Line(ls, ItemRules(kind, h)).value;
            After(done, Items(ls, kind, h, isIp)) == After(done + [item], Items(rest, kind, h, isIp))
  {
    var (item, rest) := Line(ls, ItemRules(kind, h)).value;
    var tail := Items(rest, kind, h, isIp);
    if tail.Ok? {
      assert done + ([item] + tail.value.0) == done + [item] + tail.value.0;
    }
  }

  method ParseFooter(lexer: Lexer, kind: ListKind, h: Header) returns (r: Result<(), ParseError>)
    requires lexer.Valid()
    modifies lexer`readHead
    ensures r == FooterOf(old(lexer.Rest()), kind, h)
  {
    var _ :- ParseLine(lexer, FooterRules(kind, h));
    var finished := lexer.IsFinished();
    return if finished then Ok(()) else Err(InvalidToken);
  }

  /** The forms that push their items to a vector: UPS, ENUM, RANGE, CMD and CLIENT (VAR and RW
      insert into a map, see `DeserializeVariables`). */
  method DeserializeItems(lexer: Lexer, kind: ListKind, isIp: string -> bool)
    returns (r: Result<(Header, seq<seq<Capture>>), ParseError>)
    requires lexer.Valid()
    modifies lexer`readHead
    ensures r == ListOf(old(lexer.Rest()), kind, isIp)
  {
    var items: seq<seq<Capture>> := [];
    var header :- ParseLine(lexer, HeaderRules(kind));
    var h := HeaderOf(header);
    if !HeaderOk(kind, h) {
      return Err(BadVarName);
    }
    ghost var whole := Items(lexer.Rest(), kind, h, isIp);
    assert whole.Ok? ==> [] + whole.value.0 == whole.value.0;
    var peeked := lexer.PeekAsStr();
    while peeked == Some(Keyword(kind))
      invariant lexer.Valid()
      invariant peeked == PeekedText(lexer.Rest())
      invariant whole == After(items, Items(lexer.Rest(), kind, h, isIp))
      decreases |lexer.buffer| - lexer.readHead
    {
      ghost var before := lexer.Rest();
      var item :- ParseLine(lexer, ItemRules(kind, h));
      if !ItemOk(kind, item, isIp) {
        return Err(InvalidToken);
      }
      ItemsAfter(items, before, kind, h, isIp);
      items := items + [item];
      peeked := lexer.PeekAsStr();
    }
    assert whole == Ok((items, lexer.Rest())) by {
      assert items + [] == items;
    }
    var _ :- ParseFooter(lexer, kind, h);
    return Ok((h, items));
  }

  function ValueAt(captured: seq<Capture>, i: nat): Value {
    if i < |captured| && captured[i].Val? then captured[i].value else Text("")
  }

  /** The map after inserting every item in order: a repeated name keeps its last value. */
  function LastWins(items: seq<seq<Capture>>): map<string, Value> {
    if items == [] then map[]
    else
      var last := items[|items| - 1];
      LastWins(items[..|items| - 1])[TextAt(last, 0) := ValueAt(last, 1)]
  }

  lemma LastWinsAppend(items: seq<seq<Capture>>, item: seq<Capture>)
    ensures LastWins(items + [item]) == LastWins(items)[TextAt(item, 0) := ValueAt(item, 1)]
  {
    assert (items + [item])[..|items|] == items;
  }

  ghost function VariablesOf(list: Result<(Header, seq<seq<Capture>>), ParseError>):
    Result<(string, map<string, Value>), ParseError>
  {
    match list
    case Err(error) => Err(error)
    case Ok((h, items)) => Ok((h.ups, LastWins(items)))
  }

  predicate IsNamed(items: seq<seq<Capture>>, name: string) {
    exists i | 0 <= i < |items| :: TextAt(items[i], 0) == name
  }

  /** The item at `i` is the last one with its name. */
  predicate IsLast(items: seq<seq<Capture>>, i: int) {
    0 <= i < |items| && forall j | i < j < |items| :: TextAt(items[j], 0) != TextAt(items[i], 0)
  }

  /** The map has just the names of the items, each with the value of the last item of that name. */
  ghost predicate AreVariables(items: seq<seq<Capture>>, variables: map<string, Value>) {
    && (forall name: string :: name in variables <==> IsNamed(items, name))
    && (forall i | IsLast(items, i) ::
          TextAt(items[i], 0) in variables && variables[TextAt(items[i], 0)] == ValueAt(items[i], 1))
  }

  lemma {:induction false} LastWinsNames(items: seq<seq<Capture>>, name: string)
    ensures name in LastWins(items) <==> IsNamed(items, name)
  {
    if items != [] {
      var n := |items| - 1;
      LastWinsNames(items[..n], name);
      assert forall i | 0 <= i < n :: items[i] == items[..n][i];
    }
  }

  lemma {:induction false} LastWinsValue(items: seq<seq<Capture>>, i: int)
    requires IsLast(items, i)
    ensures TextAt(items[i], 0) in LastWins(items) && LastWins(items)[TextAt(items[i], 0)] == ValueAt(items[i], 1)
  {
    var n := |items| - 1;
    if i < n {
      assert items[..n][i] == items[i];
      assert IsLast(items[..n], i);
      LastWinsValue(items[..n], i);
    }
  }

  lemma LastWinsMeans(items: seq<seq<Capture>>)
    ensures AreVariables(items, LastWins(items))
  {
    forall name: string ensures name in LastWins(items) <==> IsNamed(items, name) {
      LastWinsNames(items, name);
    }
    forall i | IsLast(items, i)
      ensures TextAt(items[i], 0) in LastWins(items) && LastWins(items)[TextAt(items[i], 0)] == ValueAt(items[i], 1)
    {
      LastWinsValue(items, i);
    }
  }

  /** VAR and RW: insert every item into a map. */
  method DeserializeVariables(lexer: Lexer, kind: ListKind, ghost isIp: string -> bool)
    returns (r: Result<(string, map<string, Value>), ParseError>)
    requires lexer.Valid()
    requires kind.VarKind? || kind.RwKind?
    modifies lexer`readHead
    ensures r == VariablesOf(ListOf(old(lexer.Rest()), kind, isIp))
    ensures match ListOf(old(lexer.Rest()), kind, isIp)
            case Err(error) => r == Err(error)
            case Ok((h, items)) => r.Ok? && r.value.0 == h.ups && AreVariables(items, r.value.1)
  {
    var variables: map<string, Value> := map[];
    ghost var items: seq<seq<Capture>> := [];
    var header :- ParseLine(lexer, HeaderRules(kind));
    var h := HeaderOf(header);
    ghost var whole := Items(lexer.Rest(), kind, h, isIp);
    assert whole.Ok? ==> [] + whole.value.0 == whole.value.0;
    var peeked := lexer.PeekAsStr();
    while peeked == Some(Keyword(kind))
      invariant lexer.Valid()
      invariant peeked == PeekedText(lexer.Rest())
      invariant whole == After(items, Items(lexer.Rest(), kind, h, isIp))
      invariant variables == LastWins(items)
      decreases |lexer.buffer| - lexer.readHead
    {
      ghost var before := lexer.Rest();
      var item :- ParseLine(lexer, ItemRules(kind, h));
      ItemsAfter(items, before, kind, h, isIp);
      LastWinsAppend(items, item);
      items := items + [item];
      variables := variables[TextAt(item, 0) := ValueAt(item, 1)];
      peeked := lexer.PeekAsStr();
    }
    assert whole == Ok((items, lexer.Rest())) by {
      assert items + [] == items;
    }
    var _ :- ParseFooter(lexer, kind, h);
    LastWinsMeans(items);
    return Ok((h.ups, variables));
  }
}
