/** Edge events between two statuses of a UPS. */
module UpsEvents {
  import opened Wrappers
  import opened UpsStatuses

  datatype UpsEvent =
    | AlarmOn | AlarmOff | Boosting | BoostingEnded | BypassOn | BypassOff
    | Calibrating | CalibrationCompleted | Charging | ChargingEnded | Discharging | DischargingEnded
    | FSD | LowBattery | LowBatteryEnded | DeviceOff | DeviceOn | Online | OnBattery
    | Overloaded | OverloadEnded | ReplaceBattery | ReplaceBatteryEnded
    | Testing | TestCompleted | Trimming | TrimmingEnded | NoComm | Comm

  /** The event of a flag that goes away. */
  function OffEvent(flag: nat): Option<UpsEvent> {
    if flag == ALARM then Some(AlarmOff)
    else if flag == BOOST then Some(BoostingEnded)
    else if flag == BYPASS then Some(BypassOff)
    else if flag == CALIBRATING then Some(CalibrationCompleted)
    else if flag == CHARGING then Some(ChargingEnded)
    else if flag == DISCHARGE then Some(DischargingEnded)
    else if flag == LOW_BATTERY then Some(LowBatteryEnded)
    else if flag == OFFLINE then Some(DeviceOn)
    else if flag == OVERLOADED then Some(OverloadEnded)
    else if flag == REPLACE_BATTERY then Some(ReplaceBatteryEnded)
    else if flag == TEST then Some(TestCompleted)
    else if flag == TRIM then Some(TrimmingEnded)
    else None
  }

  /** The event of a flag that appears. */
  function OnEvent(flag: nat): Option<UpsEvent> {
    if flag == ALARM then Some(AlarmOn)
    else if flag == BOOST then Some(Boosting)
    else if flag == BYPASS then Some(BypassOn)
    else if flag == CALIBRATING then Some(Calibrating)
    else if flag == CHARGING then Some(Charging)
    else if flag == COMM then Some(Comm)
    else if flag == DISCHARGE then Some(Discharging)
    else if flag == FORCED_SHUTDOWN then Some(FSD)
    else if flag == LOW_BATTERY then Some(LowBattery)
    else if flag == NOCOMM then Some(NoComm)
    else if flag == OFFLINE then Some(DeviceOff)
    else if flag == ONLINE then Some(Online)
    else if flag == ON_BATTERY then Some(OnBattery)
    else if flag == OVERLOADED then Some(Overloaded)
    else if flag == REPLACE_BATTERY then Some(ReplaceBattery)
    else if flag == TEST then Some(Testing)
    else if flag == TRIM then Some(Trimming)
    else None
  }

  /** An event is raised exactly if the flag that it stands for changed its way. */
  ghost predicate Raised(e: UpsEvent, before: UpsStatus, after: UpsStatus) {
    || (exists k :: k in before && k !in after && OffEvent(k) == Some(e))
    || (exists k :: k in after && k !in before && OnEvent(k) == Some(e))
  }

  function EventsOf(flags: seq<nat>, event: nat -> Option<UpsEvent>): set<UpsEvent> {
    if flags == [] then {}
    else (if event(flags[0]).Some? then {event(flags[0]).value} else {}) + EventsOf(flags[1..], event)
  }

  lemma {:induction false} EventsOfHas(flags: seq<nat>, event: nat -> Option<UpsEvent>, e: UpsEvent)
    ensures e in EventsOf(flags, event) <==> exists k :: k in flags && event(k) == Some(e)
  {
    if flags != [] {
      EventsOfHas(flags[1..], event, e);
      assert flags == [flags[0]] + flags[1..];
    }
  }

  lemma EventsStep(all: set<UpsEvent>, flag: nat, rest: seq<nat>, event: nat -> Option<UpsEvent>)
    ensures all + EventsOf([flag] + rest, event)
            == (if event(flag).Some? then all + {event(flag).value} else all) + EventsOf(rest, event)
  {
    assert ([flag] + rest)[1..] == rest;
  }

  /** One loop over changed flags: inserts the events that they stand for. */
  method InsertAll(events: set<UpsEvent>, changed: UpsStatus, event: nat -> Option<UpsEvent>)
    returns (all: set<UpsEvent>)
    ensures forall e :: e in all <==> e in events || exists k :: k in changed && event(k) == Some(e)
  {
    all := events;
    var iter := new Iter(changed);
    var status := iter.Next();
    while status.Some?
      invariant all + EventsOf(Remaining(status, iter.state), event) == events + EventsOf(BitsFrom(changed, 0), event)
      decreases status.Some?, |iter.state|
    {
      EventsStep(all, FirstBit(status.value, 0), BitsFrom(iter.state, 0), event);
      var raised := event(FirstBit(status.value, 0));
      if raised.Some? {
        all := all + {raised.value};
      }
      status := iter.Next();
    }
    forall e ensures e in all <==> e in events || exists k :: k in changed && event(k) == Some(e) {
      EventsOfHas(BitsFrom(changed, 0), event, e);
      BitsAreExact(changed, 0);
    }
  }

  /** `UpsEvents::new`. */
  method New(oldStatus: UpsStatus, newStatus: UpsStatus) returns (events: set<UpsEvent>)
    ensures forall e :: e in events <==> Raised(e, oldStatus, newStatus)
  {
    events := InsertAll({}, Unset(oldStatus, newStatus), OffEvent);
    events := InsertAll(events, Unset(newStatus, oldStatus), OnEvent);
  }

  // ---------- Events by the words of the protocol ----------

  /** The word whose appearance raises the event. */
  function WordOn(e: UpsEvent): Option<string> {
    match e
    case AlarmOn => Some("ALARM")
    case Boosting => Some("BOOST")
    case BypassOn => Some("BYPASS")
    case Calibrating => Some("CAL")
    case Charging => Some("CHRG")
    case Discharging => Some("DISCHRG")
    case FSD => Some("FSD")
    case LowBattery => Some("LB")
    case DeviceOff => Some("OFF")
    case Online => Some("OL")
    case OnBattery => Some("OB")
    case Overloaded => Some("OVER")
    case ReplaceBattery => Some("RB")
    case Testing => Some("TEST")
    case Trimming => Some("TRIM")
    case NoComm => Some("NOCOMM")
    case Comm => Some("COMM")
    case _ => None
  }

  /** The word whose disappearance raises the event. */
  function WordOff(e: UpsEvent): Option<string> {
    match e
    case AlarmOff => Some("ALARM")
    case BoostingEnded => Some("BOOST")
    case BypassOff => Some("BYPASS")
    case CalibrationCompleted => Some("CAL")
    case ChargingEnded => Some("CHRG")
    case DischargingEnded => Some("DISCHRG")
    case LowBatteryEnded => Some("LB")
    case DeviceOn => Some("OFF")
    case OverloadEnded => Some("OVER")
    case ReplaceBatteryEnded => Some("RB")
    case TestCompleted => Some("TEST")
    case TrimmingEnded => Some("TRIM")
    case _ => None
  }

  lemma OnEventWord(e: UpsEvent, k: nat)
    ensures OnEvent(k) == Some(e) <==> WordOn(e).Some? && k < |NAMES| && NAMES[k] == WordOn(e).value
  {
  }

  lemma OffEventWord(e: UpsEvent, k: nat)
    ensures OffEvent(k) == Some(e) <==> WordOff(e).Some? && k < |NAMES| && NAMES[k] == WordOff(e).value
  {
  }

  lemma OnWordIsName(e: UpsEvent) returns (k: nat)
    requires WordOn(e).Some?
    ensures k < |NAMES| && NAMES[k] == WordOn(e).value
  {
    FlagWords();
    k := NameIndex(WordOn(e).value, 0);
  }

  lemma OffWordIsName(e: UpsEvent) returns (k: nat)
    requires WordOff(e).Some?
    ensures k < |NAMES| && NAMES[k] == WordOff(e).value
  {
    FlagWords();
    k := NameIndex(WordOff(e).value, 0);
  }

  /** The word is in the text `a` and not in `b`. */
  ghost predicate OnlyIn(w: string, a: string, b: string) {
    HasWord(a, w) && !HasWord(b, w)
  }

  lemma AppearedWord(before: string, after: string, e: UpsEvent)
    ensures (exists k :: k in Parse(after) && k !in Parse(before) && OnEvent(k) == Some(e))
            <==> WordOn(e).Some? && OnlyIn(WordOn(e).value, after, before)
  {
    if WordOn(e).Some? {
      var j := OnWordIsName(e);
      FlagsAreNamedWords(before, j);
      FlagsAreNamedWords(after, j);
      OnEventWord(e, j);
    }
    if k :| k in Parse(after) && k !in Parse(before) && OnEvent(k) == Some(e) {
      OnEventWord(e, k);
      FlagsAreNamedWords(before, k);
      FlagsAreNamedWords(after, k);
    }
  }

  lemma GoneWord(before: string, after: string, e: UpsEvent)
    ensures (exists k :: k in Parse(before) && k !in Parse(after) && OffEvent(k) == Some(e))
            <==> WordOff(e).Some? && OnlyIn(WordOff(e).value, before, after)
  {
    if WordOff(e).Some? {
      var j := OffWordIsName(e);
      FlagsAreNamedWords(before, j);
      FlagsAreNamedWords(after, j);
      OffEventWord(e, j);
    }
    if k :| k in Parse(before) && k !in Parse(after) && OffEvent(k) == Some(e) {
      OffEventWord(e, k);
      FlagsAreNamedWords(before, k);
      FlagsAreNamedWords(after, k);
    }
  }

  /** Between two status texts just those events are raised whose word is in one text and not in the
      other, in the direction of the event. */
  lemma EventsAreWords(before: string, after: string, e: UpsEvent)
    ensures Raised(e, Parse(before), Parse(after))
            <==> || (WordOn(e).Some? && OnlyIn(WordOn(e).value, after, before))
                 || (WordOff(e).Some? && OnlyIn(WordOff(e).value, before, after))
  {
    AppearedWord(before, after, e);
    GoneWord(before, after, e);
  }

  // ---------- Events over a chain of statuses ----------

  /** The twelve flags with an event for either way. */
  predicate Paired(flag: nat) {
    OnEvent(flag).Some? && OffEvent(flag).Some?
  }

  lemma PairedFlags(flag: nat)
    ensures Paired(flag)
            <==> flag in {ALARM, BOOST, BYPASS, CALIBRATING, CHARGING, DISCHARGE, LOW_BATTERY, OFFLINE,
                          OVERLOADED, REPLACE_BATTERY, TEST, TRIM}
  {
  }

  /** Each event tells its flag and its way. */
  lemma EventsAreDistinct(j: nat, k: nat)
    ensures OnEvent(j).Some? && OnEvent(j) == OnEvent(k) ==> j == k
    ensures OffEvent(j).Some? && OffEvent(j) == OffEvent(k) ==> j == k
    ensures OnEvent(j).Some? ==> OnEvent(j) != OffEvent(k)
  {
  }

  lemma RaisedMeans(flag: nat, before: UpsStatus, after: UpsStatus)
    requires Paired(flag)
    ensures Raised(OnEvent(flag).value, before, after) <==> flag in after && flag !in before
    ensures Raised(OffEvent(flag).value, before, after) <==> flag in before && flag !in after
  {
    forall k: nat ensures (OnEvent(k) == OnEvent(flag) || OffEvent(k) == OffEvent(flag) ==> k == flag)
                          && OffEvent(k) != OnEvent(flag) && OnEvent(k) != OffEvent(flag) {
      EventsAreDistinct(k, flag);
      EventsAreDistinct(flag, k);
    }
  }

  /** How many of the changes along a chain raise the event. */
  ghost function Count(chain: seq<UpsStatus>, e: UpsEvent): nat {
    if |chain| < 2 then 0 else (if Raised(e, chain[0], chain[1]) then 1 else 0) + Count(chain[1..], e)
  }

  function BitOf(s: UpsStatus, flag: nat): int {
    if flag in s then 1 else 0
  }

  /** Over any chain of statuses, the on-events of a paired flag outnumber its off-events by the
      change of the flag from the first status to the last. */
  lemma {:induction false} OnMinusOff(chain: seq<UpsStatus>, flag: nat)
    requires chain != [] && Paired(flag)
    ensures Count(chain, OnEvent(flag).value) - Count(chain, OffEvent(flag).value)
            == BitOf(chain[|chain| - 1], flag) - BitOf(chain[0], flag)
  {
    if |chain| > 1 {
      RaisedMeans(flag, chain[0], chain[1]);
      OnMinusOff(chain[1..], flag);
    }
  }
}
