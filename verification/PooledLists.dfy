/** A pooled list request from end to end: the connection pool, the framing of the reply and the
    list parser together. */
module PooledLists {
  import opened Wrappers
  import opened Framing
  import opened Lexing
  import opened ListResponses
  import opened ListRoundTrip
  import opened ListOverWire
  import opened Pool
  import opened PoolInvariants
  import PoolRuns

  /** A printed list is one well-framed response if and only if no quoted text holds what ends it. */
  lemma PrintedListIsResponse(text: string, kind: ListKind, h: Header, items: seq<Item>, isIp: string -> bool)
    requires ValidHeader(kind, h) && ValidItems(kind, items, isIp) && text == PrintList(kind, h, items)
    ensures (exists lines :: IsResponse(lines) && Concat(lines) == text) <==> !ItemsMark(kind, h, items)
  {
    assert text[0..|text|] == text;
    ReplyIsResponse(text, 0, |text|);
    ListIsTaken(text, 0, text, kind, h, items, isIp);
  }

  /** In every run, on whatever connection it goes out, a pooled list request that the daemon answers
      with a printed list gets exactly that list, and the list parses to the printed items. */
  lemma PooledListArrives(limit: nat, run: seq<Action>, a: Action, text: string,
                          kind: ListKind, h: Header, items: seq<Item>, isIp: string -> bool)
    requires PoolRuns.CanRun(Initial(limit), run)
    requires Enabled(PoolRuns.After(Initial(limit), run), a) && a.ExchangeDone? && !Drops(a.outcome)
    requires a.outcome.answer.Whole? && Concat(a.outcome.answer.lines) == text
    requires ValidHeader(kind, h) && ValidItems(kind, items, isIp) && text == PrintList(kind, h, items)
    ensures var s := PoolRuns.After(Initial(limit), run);
            ReplyTo(s.conns[s.tasks[a.t].conn], a.outcome.answer) == Response(text)
    ensures ListOf(Lexemes(text, 0), kind, isIp) == Ok((h, ReadBackAll(kind, items)))
  {
    PoolRuns.OwnResponse(limit, run, a);
    PrintedListStarts(kind, h, items);
    ListReadsBack(kind, h, items, isIp);
  }

  lemma AnswerWithList(c: Conn, text: string, kind: ListKind, h: Header, items: seq<Item>, isIp: string -> bool)
    returns (answer: Answer)
    requires c.unread == [] && !c.eof
    requires ValidHeader(kind, h) && ValidItems(kind, items, isIp) && text == PrintList(kind, h, items)
    requires !ItemsMark(kind, h, items)
    ensures answer.Whole? && Concat(answer.lines) == text
    ensures Answers(c, answer) && ReplyTo(c, answer) == Response(text)
  {
    PrintedListIsResponse(text, kind, h, items, isIp);
    var lines :| IsResponse(lines) && Concat(lines) == text;
    answer := Whole(lines);
    assert Stream(c, answer) == text && text[0..|text|] == text;
    ListArrives(text, 0, text, kind, h, items, isIp);
    PrintedListStarts(kind, h, items);
  }

  /** Such an answer is possible, in every reachable state and for every request in flight on an
      open stream, whenever the list has no mark. */
  lemma PooledListCanArrive(limit: nat, run: seq<Action>, t: TaskId, text: string,
                            kind: ListKind, h: Header, items: seq<Item>, isIp: string -> bool)
    returns (a: Action)
    requires PoolRuns.CanRun(Initial(limit), run)
    requires var s := PoolRuns.After(Initial(limit), run);
             At(s, t) && s.tasks[t].Exchanging? && !s.conns[s.tasks[t].conn].eof
    requires ValidHeader(kind, h) && ValidItems(kind, items, isIp) && text == PrintList(kind, h, items)
    requires !ItemsMark(kind, h, items)
    ensures a.ExchangeDone? && a.t == t && a.outcome.Completed? && a.outcome.answer.Whole?
    ensures Enabled(PoolRuns.After(Initial(limit), run), a) && Concat(a.outcome.answer.lines) == text
  {
    var s := PoolRuns.After(Initial(limit), run);
    PoolRuns.ReachableIsSafe(limit, run);
    assert HolderIsKnown(s, t) && Usable(s, s.tasks[t].conn);
    var answer := AnswerWithList(s.conns[s.tasks[t].conn], text, kind, h, items, isIp);
    a := ExchangeDone(t, Completed(answer));
  }
}
