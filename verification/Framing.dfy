/** How a client cuts one response out of the byte stream of a connection. */
module Framing {
  import opened Wrappers

  /** What a request ends with. A time-out also stands for a stream that stays silent. */
  datatype Reply =
    | Response(text: string)
    | ProtocolError(text: string)
    | RequestTimeout

  predicate StartsList(line: string) {
    "BEGIN LIST" <= line
  }

  predicate EndsList(line: string) {
    "END LIST" <= line
  }

  predicate IsError(line: string) {
    "ERR" <= line
  }

  // ---------- Specification ----------

  /** Where the line that begins at `i` ends, its line feed included. Without a line feed, a closed
      stream yields what is left, possibly nothing; an open one keeps the reader waiting. */
  function LineEnd(b: string, i: nat, closed: bool): (end: Option<nat>)
    requires i <= |b|
    ensures end.Some? ==> i <= end.value <= |b|
    ensures end.Some? && i < |b| ==> i < end.value
    decreases |b| - i
  {
    if i == |b| then
      if closed then Some(i) else None
    else if b[i] == '\n' then Some(i + 1)
    else LineEnd(b, i + 1, closed)
  }

  /** Where the first line that ends a list ends. */
  function ListEnd(b: string, i: nat, closed: bool): (end: Option<nat>)
    requires i <= |b|
    ensures end.Some? ==> i <= end.value <= |b|
    decreases |b| - i
  {
    match LineEnd(b, i, closed)
    case None => None
    case Some(end) =>
      if EndsList(b[i..end]) then Some(end)
      else if end == i then None
      else ListEnd(b, end, closed)
  }

  /** Where the reply that begins at `i` ends; None if the reader waits for the time-out. */
  function ReplyEnd(b: string, i: nat, closed: bool): (end: Option<nat>)
    requires i <= |b|
    ensures end.Some? ==> i <= end.value <= |b|
  {
    match LineEnd(b, i, closed)
    case None => None
    case Some(end) => if StartsList(b[i..end]) then ListEnd(b, end, closed) else Some(end)
  }

  function Classify(text: string): Reply {
    if !StartsList(text) && IsError(text) then ProtocolError(text) else Response(text)
  }

  function ReplyAt(b: string, i: nat, closed: bool): Reply
    requires i <= |b|
  {
    match ReplyEnd(b, i, closed)
    case None => RequestTimeout
    case Some(end) => Classify(b[i..end])
  }

  // ---------- The reader ----------

  /** What receiving ends with: a reply, or a read that fails. */
  datatype Receipt = Received(reply: Reply) | IoError

  /** The buffered read half of a connection: the bytes that arrive before the time-out, whether
      the peer closes the stream behind them or reading fails there, and how far they have been
      consumed. */
  class Reader {
    const stream: string
    const closed: bool
    const broken: bool
    var pos: nat

    ghost predicate Valid()
      reads this
    {
      pos <= |stream| && !(closed && broken)
    }

    constructor (stream: string, closed: bool, broken: bool)
      requires !(closed && broken)
      ensures Valid() && this.stream == stream && this.closed == closed && this.broken == broken && pos == 0
    {
      this.stream := stream;
      this.closed := closed;
      this.broken := broken;
      this.pos := 0;
    }

    /** Appends the next line to `buf` and returns its length; None is a read that fails or does not
        finish in time. */
    method ReadLine(buf: string) returns (r: Option<nat>, text: string)
      requires Valid()
      modifies this`pos
      ensures Valid()
      ensures r.Some? <==> LineEnd(stream, old(pos), closed).Some?
      ensures r.Some? ==> LineEnd(stream, old(pos), closed) == Some(pos) && r.value == pos - old(pos)
      ensures r.Some? ==> text == buf + stream[old(pos)..pos]
    {
      var end := pos;
      while end < |stream|
        invariant pos == old(pos) <= end <= |stream|
        invariant LineEnd(stream, pos, closed) == LineEnd(stream, end, closed)
      {
        end := end + 1;
        if stream[end - 1] == '\n' {
          text := buf + stream[pos..end];
          r := Some(end - pos);
          pos := end;
          return;
        }
      }
      if closed {
        text := buf + stream[pos..end];
        r := Some(end - pos);
        pos := end;
        return;
      }
      return None, buf;
    }

    /** Without another line, a request ends with the error of the read or with the time-out. */
    function Unfinished(): Receipt {
      if broken then IoError else Received(RequestTimeout)
    }

    function ReceiptOf(reply: Reply): Receipt {
      if reply.RequestTimeout? then Unfinished() else Received(reply)
    }

    /** The framing loop with its `startPos`: reads on to the end of a list. */
    method ReadList(buf: string, ghost start: nat) returns (receipt: Receipt)
      requires Valid() && start <= pos && buf == stream[start..pos]
      modifies this`pos
      ensures Valid()
      ensures match ListEnd(stream, old(pos), closed)
              case None => receipt == Unfinished()
              case Some(end) => pos == end && receipt == Received(Response(stream[start..end]))
    {
      var startPos, responseBuf := |buf|, buf;
      while true
        invariant Valid() && old(pos) <= pos && startPos == pos - start
        invariant responseBuf == stream[start..pos]
        invariant ListEnd(stream, old(pos), closed) == ListEnd(stream, pos, closed)
        decreases |stream| - pos
      {
        ghost var before := pos;
        var read, text := ReadLine(responseBuf);
        if read.None? {
          return Unfinished();
        }
        responseBuf := text;
        assert responseBuf == stream[start..pos];
        var line := responseBuf[startPos..];
        assert line == stream[before..pos];
        if EndsList(line) {
          return Received(Response(responseBuf));
        }
        if read.value == 0 {
          // At the end of the stream every further read yields nothing: only the time-out ends
          // the loop.
          return Received(RequestTimeout);
        }
        startPos := startPos + read.value;
      }
    }

    /** The receiving part of a request. */
    method ReceiveReply() returns (receipt: Receipt)
      requires Valid()
      modifies this`pos
      ensures Valid()
      ensures receipt == ReceiptOf(ReplyAt(stream, old(pos), closed))
      ensures receipt.Received? && !receipt.reply.RequestTimeout? ==>
                ReplyEnd(stream, old(pos), closed) == Some(pos)
    {
      ghost var start := pos;
      var first, responseBuf := ReadLine([]);
      if first.None? {
        return Unfinished();
      }
      assert responseBuf == stream[start..pos];
      if StartsList(responseBuf) {
        ListStarts(stream, start, pos, closed);
        receipt := ReadList(responseBuf, start);
      } else if IsError(responseBuf) {
        receipt := Received(ProtocolError(responseBuf));
      } else {
        receipt := Received(Response(responseBuf));
      }
    }
  }

  /** What begins as a list is a response, however it goes on. */
  lemma ListStarts(b: string, start: nat, mid: nat, closed: bool)
    requires start <= mid <= |b| && StartsList(b[start..mid])
    ensures ListEnd(b, mid, closed).Some? ==>
              Classify(b[start..ListEnd(b, mid, closed).value]) == Response(b[start..ListEnd(b, mid, closed).value])
  {
    if ListEnd(b, mid, closed).Some? {
      var end := ListEnd(b, mid, closed).value;
      StillStartsList(b[start..mid], b[mid..end]);
      assert b[start..mid] + b[mid..end] == b[start..end];
    }
  }

  lemma StillStartsList(a: string, b: string)
    requires StartsList(a)
    ensures StartsList(a + b)
  {
  }

  // ---------- Well-framed responses ----------

  /** One line with its line feed. */
  predicate IsLine(l: string) {
    l != [] && l[|l| - 1] == '\n' && forall i | 0 <= i < |l| - 1 :: l[i] != '\n'
  }

  /** A single line, or a list: only its first line starts a list and only its last one ends it. */
  predicate IsResponse(lines: seq<string>) {
    && lines != []
    && (forall i | 0 <= i < |lines| :: IsLine(lines[i]))
    && (if StartsList(lines[0]) then IsListTail(lines[1..]) else |lines| == 1)
  }

  predicate IsListTail(lines: seq<string>) {
    lines != [] && forall i | 0 <= i < |lines| :: EndsList(lines[i]) <==> i == |lines| - 1
  }

  function Concat(parts: seq<string>): string {
    if parts == [] then [] else parts[0] + Concat(parts[1..])
  }

  /** A line is cut at its line feed, whatever surrounds it. */
  lemma {:induction false} LineEndOf(b: string, i: nat, end: nat, closed: bool)
    requires i < end <= |b| && IsLine(b[i..end])
    ensures LineEnd(b, i, closed) == Some(end)
    decreases end - i
  {
    assert b[i] == b[i..end][0] && b[end - 1] == b[i..end][end - i - 1];
    if i + 1 < end {
      assert b[i + 1..end] == b[i..end][1..];
      LineEndOf(b, i + 1, end, closed);
    }
  }

  /** The line begins with the three letters of a protocol error. */
  predicate BeginsErr(line: string) {
    |line| >= 3 && line[0] == 'E' && line[1] == 'R' && line[2] == 'R'
  }

  /** The line begins with the words that start a list. */
  predicate BeginsList(line: string) {
    && |line| >= 10
    && line[0] == 'B' && line[1] == 'E' && line[2] == 'G' && line[3] == 'I' && line[4] == 'N' && line[5] == ' '
    && line[6] == 'L' && line[7] == 'I' && line[8] == 'S' && line[9] == 'T'
  }

  lemma PrefixLetters(line: string)
    ensures IsError(line) <==> BeginsErr(line)
    ensures StartsList(line) <==> BeginsList(line)
  {
    if BeginsErr(line) {
      assert line[..3] == "ERR";
    }
    if BeginsList(line) {
      assert line[..10] == "BEGIN LIST";
    }
  }

  /** What a reply of any number of lines is taken for. */
  lemma ClassifyMeans(text: string)
    ensures Classify(text) == ProtocolError(text) <==> BeginsErr(text)
    ensures Classify(text) == Response(text) <==> !BeginsErr(text)
  {
    PrefixLetters(text);
  }

  /** A line is answered as a protocol error exactly if it begins with the letters of one, and
      otherwise, unless it starts a list, as a response. */
  lemma ErrorLineIsProtocolError(b: string, i: nat, end: nat, closed: bool)
    requires i <= end <= |b| && IsLine(b[i..end])
    ensures ReplyAt(b, i, closed) == ProtocolError(b[i..end]) <==> BeginsErr(b[i..end])
    ensures !BeginsErr(b[i..end]) && !BeginsList(b[i..end]) ==> ReplyAt(b, i, closed) == Response(b[i..end])
    ensures ReplyAt(b, i, closed).ProtocolError? ==> BeginsErr(b[i..end])
  {
    LineEndOf(b, i, end, closed);
    PrefixLetters(b[i..end]);
    if BeginsList(b[i..end]) {
      ListStarts(b, i, end, closed);
    }
  }

  /** The first of the concatenated parts, and what follows it, where they stand in `b`. */
  lemma FirstPart(b: string, i: nat, parts: seq<string>)
    requires parts != [] && i + |Concat(parts)| <= |b| && b[i..i + |Concat(parts)|] == Concat(parts)
    ensures var mid := i + |parts[0]|;
            mid <= i + |Concat(parts)| && b[i..mid] == parts[0]
            && mid + |Concat(parts[1..])| == i + |Concat(parts)|
            && b[mid..mid + |Concat(parts[1..])|] == Concat(parts[1..])
  {
    var whole := Concat(parts);
    SplitSlice(b, i, i + |parts[0]|, i + |whole|);
    assert whole[..|parts[0]|] == parts[0];
    assert whole[|parts[0]|..] == Concat(parts[1..]);
  }

  lemma SplitSlice(b: string, i: nat, m: nat, j: nat)
    requires i <= m <= j <= |b|
    ensures b[i..m] == b[i..j][..m - i] && b[m..j] == b[i..j][m - i..]
  {
  }

  lemma {:induction false} ListEndOf(b: string, i: nat, lines: seq<string>, closed: bool)
    requires IsListTail(lines) && forall k | 0 <= k < |lines| :: IsLine(lines[k])
    requires i + |Concat(lines)| <= |b| && b[i..i + |Concat(lines)|] == Concat(lines)
    ensures ListEnd(b, i, closed) == Some(i + |Concat(lines)|)
    decreases lines
  {
    var end := i + |lines[0]|;
    FirstPart(b, i, lines);
    LineEndOf(b, i, end, closed);
    if |lines| > 1 {
      ListEndOf(b, end, lines[1..], closed);
    } else {
      assert lines[1..] == [];
    }
  }

  /** A well-framed response is taken whole and alone, whatever precedes and follows it. */
  lemma ResponseIsTaken(b: string, i: nat, lines: seq<string>, closed: bool)
    requires IsResponse(lines)
    requires i + |Concat(lines)| <= |b| && b[i..i + |Concat(lines)|] == Concat(lines)
    ensures ReplyEnd(b, i, closed) == Some(i + |Concat(lines)|)
  {
    var end := i + |lines[0]|;
    FirstPart(b, i, lines);
    LineEndOf(b, i, end, closed);
    if StartsList(lines[0]) {
      ListEndOf(b, end, lines[1..], closed);
    } else {
      assert lines[1..] == [];
    }
  }

  // ---------- Every reply on an open stream is a well-framed response ----------

  lemma {:induction false} LineEndIsLine(b: string, i: nat)
    requires i <= |b| && LineEnd(b, i, false).Some?
    ensures IsLine(b[i..LineEnd(b, i, false).value])
    decreases |b| - i
  {
    var end := LineEnd(b, i, false).value;
    if b[i] != '\n' {
      LineEndIsLine(b, i + 1);
      assert b[i..end] == [b[i]] + b[i + 1..end];
    }
  }

  lemma {:induction false} ListEndIsTail(b: string, i: nat) returns (lines: seq<string>)
    requires i <= |b| && ListEnd(b, i, false).Some?
    ensures IsListTail(lines) && forall k | 0 <= k < |lines| :: IsLine(lines[k])
    ensures Concat(lines) == b[i..ListEnd(b, i, false).value]
    decreases |b| - i
  {
    var end := LineEnd(b, i, false).value;
    LineEndIsLine(b, i);
    var line := b[i..end];
    if EndsList(line) {
      lines := [line];
      assert Concat([line]) == line + Concat([]);
    } else {
      var more := ListEndIsTail(b, end);
      lines := [line] + more;
      assert lines[1..] == more;
      assert b[i..ListEnd(b, i, false).value] == line + b[end..ListEnd(b, i, false).value];
    }
  }

  /** On an open stream a reply ends at `end` exactly if a well-framed response does. */
  lemma ReplyIsResponse(b: string, i: nat, end: nat)
    requires i <= end <= |b|
    ensures ReplyEnd(b, i, false) == Some(end)
            <==> exists lines :: IsResponse(lines) && Concat(lines) == b[i..end]
  {
    if ReplyEnd(b, i, false) == Some(end) {
      var first := LineEnd(b, i, false).value;
      LineEndIsLine(b, i);
      var line := b[i..first];
      var more := [];
      if StartsList(line) {
        more := ListEndIsTail(b, first);
      }
      var lines := [line] + more;
      assert lines[1..] == more && b[i..end] == line + b[first..end];
      assert IsResponse(lines) && Concat(lines) == b[i..end];
    }
    forall lines | IsResponse(lines) && Concat(lines) == b[i..end]
      ensures ReplyEnd(b, i, false) == Some(end)
    {
      ResponseIsTaken(b, i, lines, false);
    }
  }

  // ---------- A daemon that closes the connection ----------

  lemma {:induction false} CutLine(b: string, i: nat, k: nat)
    requires i <= k <= |b| && LineEnd(b, i, false).Some?
    ensures LineEnd(b[..k], i, true) ==
            Some(if k < LineEnd(b, i, false).value then k else LineEnd(b, i, false).value)
    decreases k - i
  {
    if i < k && b[i] != '\n' {
      CutLine(b, i + 1, k);
    }
  }

  lemma {:induction false} CutList(b: string, i: nat, k: nat)
    requires i <= k <= |b| && ListEnd(b, i, false) == Some(|b|)
    ensures ListEnd(b[..k], i, true).Some? ==> ListEnd(b[..k], i, true) == Some(k)
    decreases k - i
  {
    CutLine(b, i, k);
    var end := LineEnd(b, i, false).value;
    if end <= k {
      assert b[..k][i..end] == b[i..end];
      if !EndsList(b[i..end]) {
        CutList(b, end, k);
      }
    }
  }

  /** If the stream closes inside a response, a reply, if there is one, takes all that arrived. */
  lemma CutResponseIsTakenWhole(lines: seq<string>, k: nat)
    requires IsResponse(lines) && k <= |Concat(lines)|
    ensures var cut := Concat(lines)[..k];
            ReplyEnd(cut, 0, true).Some? ==> ReplyEnd(cut, 0, true) == Some(k)
  {
    var b := Concat(lines);
    assert b[0..|b|] == b;
    ResponseIsTaken(b, 0, lines, false);
    CutLine(b, 0, k);
    var end := LineEnd(b, 0, false).value;
    if end <= k {
      assert b[..k][0..end] == b[0..end];
      if StartsList(b[0..end]) {
        CutList(b, end, k);
      }
    }
  }

  /** A list that is cut off ends, for the reader, exactly if enough of its last line arrived to be
      recognised. */
  lemma {:induction false} CutListEnds(b: string, i: nat, lines: seq<string>, k: nat)
    requires IsListTail(lines) && forall j | 0 <= j < |lines| :: IsLine(lines[j])
    requires i <= k <= |b| == i + |Concat(lines)| && b[i..|b|] == Concat(lines)
    ensures ListEnd(b[..k], i, true).Some? <==> k >= |b| - |lines[|lines| - 1]| + |"END LIST"|
    decreases lines
  {
    var end := i + |lines[0]|;
    FirstPart(b, i, lines);
    LineEndOf(b, i, end, false);
    CutLine(b, i, k);
    LastPart(lines);
    if end <= k {
      CutSlice(b, i, end, k);
      EndsAsPrefix(lines[0], |lines[0]|);
      if |lines| > 1 {
        CutListEnds(b, end, lines[1..], k);
      }
    } else {
      CutSlice(b, i, k, k);
      SplitSlice(b, i, k, end);
      EndsAsPrefix(lines[0], k - i);
      CutAtEnd(b[..k]);
    }
  }

  lemma CutSlice(b: string, i: nat, m: nat, k: nat)
    requires i <= m <= k <= |b|
    ensures b[..k][i..m] == b[i..m]
  {
  }

  lemma {:induction false} LastPart(parts: seq<string>)
    requires parts != []
    ensures |Concat(parts)| >= |parts[0]| && (|parts| > 1 ==> |Concat(parts)| >= |parts[0]| + |parts[|parts| - 1]|)
    ensures |parts| == 1 ==> Concat(parts) == parts[0]
  {
    if |parts| > 1 {
      LastPart(parts[1..]);
    }
  }

  lemma CutAtEnd(b: string)
    ensures ListEnd(b, |b|, true) == None
  {
    assert b[|b|..|b|] == [];
  }

  lemma EndsAsPrefix(line: string, n: nat)
    requires n <= |line|
    ensures EndsList(line[..n]) <==> EndsList(line) && n >= |"END LIST"|
  {
    if EndsList(line) && n >= 8 {
      assert line[..n][..8] == line[..8];
    }
    if EndsList(line[..n]) {
      assert line[..8] == line[..n][..8];
    }
  }

  /** If the stream closes inside a response there is a reply exactly if what arrived does not start
      a list, or goes far enough into the last line for the reader to recognise the end of the list.
      Otherwise the request times out. */
  lemma CutResponseIsAnswered(lines: seq<string>, k: nat)
    requires IsResponse(lines) && k <= |Concat(lines)|
    ensures var cut := Concat(lines)[..k];
            ReplyEnd(cut, 0, true).Some?
            <==> !StartsList(cut) || k >= |Concat(lines)| - |lines[|lines| - 1]| + |"END LIST"|
  {
    var b := Concat(lines);
    var cut, end := b[..k], |lines[0]|;
    assert b[0..|b|] == b;
    FirstPart(b, 0, lines);
    LineEndOf(b, 0, end, false);
    CutLine(b, 0, k);
    LastPart(lines);
    if end <= k {
      assert cut[0..end] == lines[0];
      StartsAsPrefix(b, k);
      StartsAsPrefix(b, end);
      if StartsList(lines[0]) {
        assert b[end..] == b[end..end + |Concat(lines[1..])|];
        CutListEnds(b, end, lines[1..], k);
      }
    } else {
      assert cut[0..k] == cut;
      CutAtEnd(cut);
    }
  }

  lemma StartsAsPrefix(b: string, n: nat)
    requires n <= |b|
    ensures StartsList(b[..n]) <==> StartsList(b) && n >= |"BEGIN LIST"|
  {
    if StartsList(b) && n >= 10 {
      assert b[..n][..10] == b[..10];
    }
    if StartsList(b[..n]) {
      assert b[..10] == b[..n][..10];
    }
  }

  /** A list of no devices whose stream closes before the last line arrives: the request times out. */
  lemma CutListTimesOut()
    ensures var lines := ["BEGIN LIST UPS\n", "END LIST UPS\n"];
            IsResponse(lines) && ReplyAt(Concat(lines)[..|lines[0]|], 0, true) == RequestTimeout
  {
    var first, last := "BEGIN LIST UPS\n", "END LIST UPS\n";
    var lines := [first, last];
    assert lines[1..] == [last];
    assert IsLine(first) && IsLine(last);
    assert StartsList(first) by {
      assert first[..10] == "BEGIN LIST";
    }
    assert EndsList(last) by {
      assert last[..8] == "END LIST";
    }
    LastPart([last]);
    assert Concat(lines) == first + last;
    assert Concat(lines)[..|first|] == first;
    CutResponseIsAnswered(lines, |first|);
  }

  // ---------- A sequence of requests ----------

  /** The replies to the next `k` requests on one open stream. */
  function RepliesFrom(b: string, i: nat, k: nat): seq<Reply>
    requires i <= |b|
    decreases k
  {
    if k == 0 then []
    else match ReplyEnd(b, i, false)
      case None => [RequestTimeout]
      case Some(end) => [Classify(b[i..end])] + RepliesFrom(b, end, k - 1)
  }

  /** The responses stand in `b` from `i` on, one behind the other. */
  predicate InPlace(b: string, i: nat, responses: seq<seq<string>>)
    decreases responses
  {
    responses == [] ||
    (var first := Concat(responses[0]);
     i + |first| <= |b| && b[i..i + |first|] == first && InPlace(b, i + |first|, responses[1..]))
  }

  lemma {:induction false} ConcatInPlace(b: string, i: nat, all: string, responses: seq<seq<string>>)
    requires all == ConcatAll(responses) && i + |all| <= |b| && b[i..i + |all|] == all
    ensures InPlace(b, i, responses)
    decreases responses
  {
    if responses != [] {
      var first, rest := Concat(responses[0]), ConcatAll(responses[1..]);
      SlicesOfSum(b, i, all, first, rest);
      ConcatInPlace(b, i + |first|, rest, responses[1..]);
    }
  }

  lemma {:induction false} InPlaceReplies(b: string, i: nat, responses: seq<seq<string>>)
    requires i <= |b| && InPlace(b, i, responses) && forall k | 0 <= k < |responses| :: IsResponse(responses[k])
    ensures |RepliesFrom(b, i, |responses|)| == |responses|
    ensures forall k | 0 <= k < |responses| :: RepliesFrom(b, i, |responses|)[k] == Classify(Concat(responses[k]))
    decreases responses
  {
    if responses != [] {
      var end := i + |Concat(responses[0])|;
      ResponseIsTaken(b, i, responses[0], false);
      assert forall k | 0 <= k < |responses| - 1 :: responses[1..][k] == responses[k + 1];
      InPlaceReplies(b, end, responses[1..]);
      NextReply(b, i, end, responses);
    }
  }

  /** If the daemon sends one well-framed response for each request, the k-th request is answered
      by exactly the k-th response. */
  lemma KthReplyIsKthResponse(b: string, i: nat, responses: seq<seq<string>>)
    requires forall k | 0 <= k < |responses| :: IsResponse(responses[k])
    requires i + |ConcatAll(responses)| <= |b| && b[i..i + |ConcatAll(responses)|] == ConcatAll(responses)
    ensures |RepliesFrom(b, i, |responses|)| == |responses|
    ensures forall k | 0 <= k < |responses| :: RepliesFrom(b, i, |responses|)[k] == Classify(Concat(responses[k]))
  {
    ConcatInPlace(b, i, ConcatAll(responses), responses);
    InPlaceReplies(b, i, responses);
  }

  lemma NextReply(b: string, i: nat, end: nat, responses: seq<seq<string>>)
    requires responses != [] && i <= end <= |b| && ReplyEnd(b, i, false) == Some(end)
    requires b[i..end] == Concat(responses[0])
    requires |RepliesFrom(b, end, |responses| - 1)| == |responses| - 1
    requires forall k | 0 <= k < |responses| - 1 ::
               RepliesFrom(b, end, |responses| - 1)[k] == Classify(Concat(responses[1..][k]))
    ensures |RepliesFrom(b, i, |responses|)| == |responses|
    ensures forall k | 0 <= k < |responses| :: RepliesFrom(b, i, |responses|)[k] == Classify(Concat(responses[k]))
  {
    var replies, more := RepliesFrom(b, i, |responses|), RepliesFrom(b, end, |responses| - 1);
    assert replies == [Classify(b[i..end])] + more;
    forall k | 0 <= k < |responses| ensures replies[k] == Classify(Concat(responses[k])) {
      if k > 0 {
        assert replies[k] == more[k - 1] && responses[1..][k - 1] == responses[k];
      }
    }
  }

  lemma SlicesOfSum(b: string, i: nat, all: string, first: string, rest: string)
    requires all == first + rest && i + |all| <= |b| && b[i..i + |all|] == all
    ensures var mid := i + |first|;
            mid + |rest| == i + |all| && b[i..mid] == first && b[mid..mid + |rest|] == rest
  {
    var mid := i + |first|;
    assert b[i..mid] == all[..|first|];
    assert b[mid..mid + |rest|] == all[|first|..];
  }

  function ConcatAll(responses: seq<seq<string>>): string {
    if responses == [] then [] else Concat(responses[0]) + ConcatAll(responses[1..])
  }
}
