/** What the write lock sections of the status sync leave behind. */
module StatusSyncPass {
  import opened Wrappers
  import opened Values
  import opened UpsStatuses
  import opened AttachedClients
  import opened Events
  import opened Daemons

  /** The status that a value means has the flags whose words are in its text; a number has none. */
  lemma StatusOfWords(value: Value, k: nat)
    ensures k in StatusOf(value) <==> value.Text? && k < |NAMES| && HasWord(value.text, NAMES[k])
  {
    if value.Text? {
      FlagsAreNamedWords(value.text, k);
    }
  }

  // ---------- Full sync ----------

  /** A device that answered has the answered variables, commands and clients; one that did not is
      silent and has lost what was known about it. */
  ghost predicate IsPolled(before: DeviceEntry, after: DeviceEntry, answer: Option<PollAnswer>, r: Resolver) {
    && after.name == before.name && after.desc == before.desc
    && match answer
       case None =>
         && after.status == {NOCOMM} && after.attached == before.attached
         && after.variables == map[] && after.commands == [] && after.rwVariables == map[]
       case Some(a) =>
         && after.variables == a.variables && after.commands == a.commands && after.rwVariables == before.rwVariables
         && after.status == (if UPS_STATUS in a.variables then StatusOf(a.variables[UPS_STATUS]) else before.status)
         && HasClients(before.attached, after.attached, a.ips, r)
  }

  /** The attached addresses are the answered ones; a client that stays is as it was, and a new one has
      the name that the lookup yields. */
  ghost predicate HasClients(before: seq<ClientInfo>, after: seq<ClientInfo>, ips: seq<Addr>, r: Resolver) {
    && (forall addr :: addr in Addrs(after) <==> addr in ips)
    && (forall c | c in before && c.addr in ips :: c in after)
    && (forall c | c in after && c.addr !in Addrs(before) :: IsNamed(c, r))
  }

  lemma ReconciledHasClients(attached: seq<ClientInfo>, ips: seq<Addr>, r: Resolver)
    ensures HasClients(attached, Reconciled(attached, ips, r), ips, r)
  {
    AttachedIsReported(attached, ips, r);
    forall c | c in attached && c.addr in ips ensures c in Reconciled(attached, ips, r) {
      KeptClientsAreUnchanged(attached, ips, r, c);
    }
    forall c | c in Reconciled(attached, ips, r) && c.addr !in Addrs(attached) ensures IsNamed(c, r) {
      NewClientsAreNamed(attached, ips, r, c);
    }
  }

  lemma TurnPolls(devices: Devices, p: Poll, r: Resolver)
    requires p.device in devices
    ensures p.device in PollApplied(devices, p, r)
    ensures IsPolled(devices[p.device], PollApplied(devices, p, r)[p.device], p.answer, r)
  {
    if p.answer.Some? {
      ReconciledHasClients(devices[p.device].attached, p.answer.value.ips, r);
    }
  }

  predicate IsLastPoll(polls: seq<Poll>, n: DeviceName, i: int) {
    0 <= i < |polls| && polls[i].device == n && forall j | i < j < |polls| :: polls[j].device != n
  }

  lemma {:induction false} PollsKeepKnown(devices: Devices, polls: seq<Poll>, r: Resolver)
    ensures PollsApplied(devices, polls, r).Keys == devices.Keys
  {
    if polls != [] {
      PollsKeepKnown(devices, polls[..|polls| - 1], r);
    }
  }

  /** After a full sync, the last poll of a device decides its entry. */
  lemma {:induction false} EntryAfterPolls(devices: Devices, polls: seq<Poll>, r: Resolver, n: DeviceName, i: int)
    requires n in devices && IsLastPoll(polls, n, i)
    ensures n in PollsApplied(devices, polls[..i], r) && n in PollsApplied(devices, polls, r)
    ensures IsPolled(PollsApplied(devices, polls[..i], r)[n], PollsApplied(devices, polls, r)[n], polls[i].answer, r)
  {
    var last := |polls| - 1;
    PollsKeepKnown(devices, polls[..last], r);
    if i == last {
      TurnPolls(PollsApplied(devices, polls[..last], r), polls[last], r);
    } else {
      assert polls[..last][i] == polls[i] && polls[..last][..i] == polls[..i];
      assert IsLastPoll(polls[..last], n, i);
      EntryAfterPolls(devices, polls[..last], r, n, i);
    }
  }

  /** A device that is not polled stays as it was. */
  lemma {:induction false} UnpolledIsKept(devices: Devices, polls: seq<Poll>, r: Resolver, n: DeviceName)
    requires n in devices && forall i | 0 <= i < |polls| :: polls[i].device != n
    ensures n in PollsApplied(devices, polls, r) && PollsApplied(devices, polls, r)[n] == devices[n]
  {
    if polls != [] {
      UnpolledIsKept(devices, polls[..|polls| - 1], r, n);
    }
  }

  /** With each device polled once, its entry follows from the one it had. */
  lemma EntryAfterPoll(devices: Devices, polls: seq<Poll>, r: Resolver, n: DeviceName, i: int)
    requires n in devices && IsLastPoll(polls, n, i) && forall j | 0 <= j < i :: polls[j].device != n
    ensures n in PollsApplied(devices, polls, r)
    ensures IsPolled(devices[n], PollsApplied(devices, polls, r)[n], polls[i].answer, r)
  {
    EntryAfterPolls(devices, polls, r, n, i);
    UnpolledIsKept(devices, polls[..i], r, n);
  }

  // ---------- Partial sync ----------

  predicate Answers(response: Option<UpsVar>, n: DeviceName) {
    response.Some? && response.value.device == n
  }

  predicate AnswersVar(response: Option<UpsVar>, n: DeviceName, v: string) {
    Answers(response, n) && response.value.name == v
  }

  predicate IsLastReply(responses: seq<Option<UpsVar>>, n: DeviceName, i: int) {
    0 <= i < |responses| && Answers(responses[i], n) && forall j | i < j < |responses| :: !Answers(responses[j], n)
  }

  predicate IsLastValue(responses: seq<Option<UpsVar>>, n: DeviceName, v: string, i: int) {
    && 0 <= i < |responses| && AnswersVar(responses[i], n, v)
    && forall j | i < j < |responses| :: !AnswersVar(responses[j], n, v)
  }

  function Variable(devices: Devices, n: DeviceName, v: string): Option<Value>
    requires n in devices
  {
    if v in devices[n].variables then Some(devices[n].variables[v]) else None
  }

  /** After a partial sync, the last reply that names a device decides its status, ... */
  lemma {:induction false} StatusAfterReplies(devices: Devices, responses: seq<Option<UpsVar>>, n: DeviceName, i: int)
    requires n in devices && IsLastReply(responses, n, i)
    ensures var after := VarsApplied(devices, responses);
            n in after && after[n].status == StatusOf(responses[i].value.value)
  {
    var last := |responses| - 1;
    RepliesKeepRest(devices, responses[..last], n);
    if i < last {
      assert responses[..last][i] == responses[i];
      assert IsLastReply(responses[..last], n, i);
      StatusAfterReplies(devices, responses[..last], n, i);
    }
  }

  /** ... and the last one that names a variable of it decides that variable. */
  lemma {:induction false} ValueAfterReplies(devices: Devices, responses: seq<Option<UpsVar>>, n: DeviceName,
                                             v: string, i: int)
    requires n in devices && IsLastValue(responses, n, v, i)
    ensures var after := VarsApplied(devices, responses);
            n in after && Variable(after, n, v) == Some(responses[i].value.value)
  {
    var last := |responses| - 1;
    RepliesKeepRest(devices, responses[..last], n);
    if i < last {
      assert responses[..last][i] == responses[i];
      assert IsLastValue(responses[..last], n, v, i);
      ValueAfterReplies(devices, responses[..last], n, v, i);
    }
  }

  /** Nothing but status and variables changes. */
  lemma {:induction false} RepliesKeepRest(devices: Devices, responses: seq<Option<UpsVar>>, n: DeviceName)
    requires n in devices
    ensures var after := VarsApplied(devices, responses);
            && n in after
            && after[n] == devices[n].(status := after[n].status, variables := after[n].variables)
  {
    if responses != [] {
      RepliesKeepRest(devices, responses[..|responses| - 1], n);
    }
  }

  /** What no reply names stays as it was. */
  lemma {:induction false} UnansweredIsKept(devices: Devices, responses: seq<Option<UpsVar>>, n: DeviceName, v: string)
    requires n in devices
    ensures n in VarsApplied(devices, responses)
    ensures (forall i | 0 <= i < |responses| :: !AnswersVar(responses[i], n, v)) ==>
              Variable(VarsApplied(devices, responses), n, v) == Variable(devices, n, v)
    ensures (forall i | 0 <= i < |responses| :: !Answers(responses[i], n)) ==>
              VarsApplied(devices, responses)[n] == devices[n]
  {
    if responses != [] {
      var most := responses[..|responses| - 1];
      UnansweredIsKept(devices, most, n, v);
      assert forall i | 0 <= i < |most| :: most[i] == responses[i];
    }
  }
}
