/** The status flags of a UPS and their text form. A status word is the set of the numbers of its
    bits, so that the bit operations of the word are the operations of sets. */
module UpsStatuses {
  import opened Wrappers

  const BITS := 32

  type UpsStatus = s: set<nat> | forall i | i in s :: i < BITS

  /** The flags from bit 0 on, by the words that stand for them. */
  const NAMES: seq<string> :=
    ["ALARM", "BOOST", "BYPASS", "CAL", "CHRG", "COMM", "DISCHRG", "FSD", "LB", "NOCOMM", "OFF", "OL",
     "OB", "OVER", "RB", "TEST", "TICK", "TOCK", "TRIM"]

  const ALARM := 0
  const BOOST := 1
  const BYPASS := 2
  const CALIBRATING := 3
  const CHARGING := 4
  const COMM := 5
  const DISCHARGE := 6
  const FORCED_SHUTDOWN := 7
  const LOW_BATTERY := 8
  const NOCOMM := 9
  const OFFLINE := 10
  const ONLINE := 11
  const ON_BATTERY := 12
  const OVERLOADED := 13
  const REPLACE_BATTERY := 14
  const TEST := 15
  const TICK := 16
  const TOCK := 17
  const TRIM := 18

  lemma NamesAreDistinct(j: nat, k: nat)
    requires j < k < |NAMES|
    ensures NAMES[j] != NAMES[k] && NAMES[j] != [] && NAMES[k] != []
  {
  }

  /** Each flag by its word. */
  lemma FlagWords()
    ensures |NAMES| == 19
    ensures NAMES[ALARM] == "ALARM" && NAMES[BOOST] == "BOOST" && NAMES[BYPASS] == "BYPASS"
    ensures NAMES[CALIBRATING] == "CAL" && NAMES[CHARGING] == "CHRG" && NAMES[COMM] == "COMM"
    ensures NAMES[DISCHARGE] == "DISCHRG" && NAMES[FORCED_SHUTDOWN] == "FSD" && NAMES[LOW_BATTERY] == "LB"
    ensures NAMES[NOCOMM] == "NOCOMM" && NAMES[OFFLINE] == "OFF" && NAMES[ONLINE] == "OL"
    ensures NAMES[ON_BATTERY] == "OB" && NAMES[OVERLOADED] == "OVER" && NAMES[REPLACE_BATTERY] == "RB"
    ensures NAMES[TEST] == "TEST" && NAMES[TICK] == "TICK" && NAMES[TOCK] == "TOCK" && NAMES[TRIM] == "TRIM"
  {
  }

  // ---------- Bit operations ----------

  predicate Has(s: UpsStatus, rhs: UpsStatus) {
    s * rhs == rhs
  }

  function Set(s: UpsStatus, value: UpsStatus): UpsStatus {
    s + value
  }

  function Unset(s: UpsStatus, value: UpsStatus): UpsStatus {
    s - value
  }

  // ---------- Iteration ----------

  /** `trailing_zeros`: the first set bit from `i` on, 32 if there is none. */
  function FirstBit(s: UpsStatus, i: nat): (k: nat)
    requires i <= BITS
    ensures i <= k <= BITS && (k < BITS ==> k in s)
    ensures forall j | i <= j < k :: j !in s
    decreases BITS - i
  {
    if i == BITS || i in s then i else FirstBit(s, i + 1)
  }

  /** The set bits from `i` on. */
  function BitsFrom(s: UpsStatus, i: nat): seq<nat>
    requires i <= BITS
    decreases BITS - i
  {
    if i == BITS then [] else (if i in s then [i] else []) + BitsFrom(s, i + 1)
  }

  /** Each set bit comes once, in ascending order. */
  lemma {:induction false} BitsAreExact(s: UpsStatus, i: nat)
    requires i <= BITS
    ensures forall k :: k in BitsFrom(s, i) <==> i <= k && k in s
    ensures forall j, k | 0 <= j < k < |BitsFrom(s, i)| :: BitsFrom(s, i)[j] < BitsFrom(s, i)[k]
    decreases BITS - i
  {
    if i < BITS {
      BitsAreExact(s, i + 1);
      var rest := BitsFrom(s, i + 1);
      assert forall k | 0 <= k < |rest| :: rest[k] in rest;
      assert i in s ==> BitsFrom(s, i) == [i] + rest;
      assert i !in s ==> BitsFrom(s, i) == rest;
    }
  }

  lemma {:induction false} BitsFromFirst(s: UpsStatus, i: nat)
    requires i <= BITS
    ensures var k := FirstBit(s, i); BitsFrom(s, i) == if k == BITS then [] else [k] + BitsFrom(s, k + 1)
    decreases BITS - i
  {
    if i < BITS && i !in s {
      BitsFromFirst(s, i + 1);
    }
  }

  lemma {:induction false} SameBitsFrom(s: UpsStatus, t: UpsStatus, i: nat)
    requires i <= BITS && forall k | i <= k < BITS :: k in s <==> k in t
    ensures BitsFrom(s, i) == BitsFrom(t, i)
    decreases BITS - i
  {
    if i < BITS {
      SameBitsFrom(s, t, i + 1);
    }
  }

  lemma {:induction false} NoBitsBetween(s: UpsStatus, i: nat, n: nat)
    requires i <= n <= BITS && forall k | i <= k < n :: k !in s
    ensures BitsFrom(s, i) == BitsFrom(s, n)
    decreases n - i
  {
    if i < n {
      NoBitsBetween(s, i + 1, n);
    }
  }

  /** Iteration takes the lowest bit off the state until none is left. */
  class Iter {
    var state: UpsStatus

    constructor (status: UpsStatus)
      ensures state == status
    {
      state := status;
    }

    method Next() returns (r: Option<UpsStatus>)
      modifies this
      ensures old(state) == {} ==> r == None && state == {}
      ensures old(state) != {} ==> r == Some({FirstBit(old(state), 0)}) && |state| < |old(state)|
      ensures Remaining(r, state) == BitsFrom(old(state), 0)
    {
      if state == {} {
        NoBits();
        r := None;
      } else {
        OneBit(FirstBit(state, 0));
        var mask := FirstBit(state, 0);
        TakeFirstBit(state);
        var yieldVal := state * {mask};
        assert yieldVal == {mask};
        state := Unset(state, yieldVal);
        r := Some(yieldVal);
      }
    }
  }

  /** The bits that an iteration has still to yield after it has yielded `r`. */
  function Remaining(r: Option<UpsStatus>, state: UpsStatus): seq<nat> {
    if r.None? then [] else [FirstBit(r.value, 0)] + BitsFrom(state, 0)
  }

  lemma TakeFirstBit(s: UpsStatus)
    requires s != {}
    ensures var k := FirstBit(s, 0);
            k in s && BitsFrom(s, 0) == [k] + BitsFrom(Unset(s, {k}), 0)
  {
    var some :| some in s;
    var k := FirstBit(s, 0);
    var t := Unset(s, {k});
    BitsFromFirst(s, 0);
    SameBitsFrom(s, t, k + 1);
    NoBitsBetween(t, 0, k + 1);
  }

  lemma OneBit(k: nat)
    requires k < BITS
    ensures FirstBit({k}, 0) == k
  {
    assert FirstBit({k}, 0) in {k};
  }

  lemma NoBits()
    ensures BitsFrom({}, 0) == []
  {
    NoBitsBetween({}, 0, BITS);
  }

  // ---------- Text ----------

  /** The characters that Unicode calls white space. */
  predicate IsSpace(c: char) {
    var n := c as int;
    || 0x9 <= n <= 0xD || n == 0x20 || n == 0x85 || n == 0xA0 || n == 0x1680
    || 0x2000 <= n <= 0x200A || n == 0x2028 || n == 0x2029 || n == 0x202F || n == 0x205F || n == 0x3000
  }

  function NameIndex(word: string, k: nat): (i: nat)
    requires k <= |NAMES|
    ensures k <= i <= |NAMES| && (i < |NAMES| ==> NAMES[i] == word)
    ensures forall j | k <= j < i :: NAMES[j] != word
    decreases |NAMES| - k
  {
    if k == |NAMES| || NAMES[k] == word then k else NameIndex(word, k + 1)
  }

  /** The flag that a word stands for; none for any other word. */
  function FlagOf(word: string): UpsStatus {
    var i := NameIndex(word, 0);
    if i < |NAMES| then {i} else {}
  }

  lemma FlagOfIs(word: string, k: nat)
    ensures k in FlagOf(word) <==> k < |NAMES| && NAMES[k] == word
  {
    var i := NameIndex(word, 0);
    if k < i < |NAMES| {
      NamesAreDistinct(k, i);
    }
    if i < k < |NAMES| {
      NamesAreDistinct(i, k);
    }
  }

  /** The flags of the words of `t` from `i` on, the first of which began at `start`. */
  function StatusFrom(t: string, start: nat, i: nat, flag: string -> UpsStatus): UpsStatus
    requires start <= i <= |t|
    decreases |t| - i
  {
    if i == |t| then flag(t[start..i])
    else if IsSpace(t[i]) then flag(t[start..i]) + StatusFrom(t, i + 1, i + 1, flag)
    else StatusFrom(t, start, i + 1, flag)
  }

  function Parse(t: string): UpsStatus {
    StatusFrom(t, 0, 0, FlagOf)
  }

  lemma {:induction false} WordThenRest(t: string, start: nat, i: nat, end: nat, flag: string -> UpsStatus)
    requires flag([]) == {}
    requires start <= i <= end <= |t| && (forall j | i <= j < end :: !IsSpace(t[j]))
    requires end == |t| || IsSpace(t[end])
    ensures StatusFrom(t, start, i, flag) == flag(t[start..end]) + StatusFrom(t, end, end, flag)
    decreases end - i
  {
    if i < end {
      WordThenRest(t, start, i + 1, end, flag);
    } else {
      NoWordAt(t, end, flag);
    }
  }

  lemma NoWordAt(t: string, i: nat, flag: string -> UpsStatus)
    requires i <= |t| && flag([]) == {}
    ensures flag(t[i..i]) == {}
    ensures i == |t| ==> StatusFrom(t, i, i, flag) == {}
    ensures i < |t| && IsSpace(t[i]) ==> StatusFrom(t, i, i, flag) == StatusFrom(t, i + 1, i + 1, flag)
  {
    assert t[i..i] == [];
  }

  lemma EmptyIsNoFlag()
    ensures FlagOf([]) == {}
  {
    var k := NameIndex([], 0);
    if 0 < k < |NAMES| {
      NamesAreDistinct(0, k);
    }
    assert NAMES[0] != [];
  }

  /** `UpsStatus::new`: the words between white space, each matched against the names. */
  method New(value: string) returns (result: UpsStatus)
    ensures result == Parse(value)
  {
    EmptyIsNoFlag();
    result := CollectFlags(value, FlagOf);
  }

  method CollectFlags(value: string, flag: string -> UpsStatus) returns (result: UpsStatus)
    requires flag([]) == {}
    ensures result == StatusFrom(value, 0, 0, flag)
  {
    result := {};
    var i := 0;
    while true
      invariant i <= |value|
      invariant StatusFrom(value, 0, 0, flag) == result + StatusFrom(value, i, i, flag)
      decreases |value| - i
    {
      while i < |value| && IsSpace(value[i])
        invariant i <= |value|
        invariant StatusFrom(value, 0, 0, flag) == result + StatusFrom(value, i, i, flag)
      {
        NoWordAt(value, i, flag);
        i := i + 1;
      }
      if i == |value| {
        NoWordAt(value, i, flag);
        return;
      }
      var end := i;
      while end < |value| && !IsSpace(value[end])
        invariant i <= end <= |value|
        invariant forall j | i <= j < end :: !IsSpace(value[j])
      {
        end := end + 1;
      }
      WordThenRest(value, i, i, end, flag);
      result := Set(result, flag(value[i..end]));
      i := end;
    }
  }

  // ---------- What a status text means ----------

  /** `t[p..q]` is a word: between white space or the ends, and without white space. */
  predicate WordAt(t: string, p: nat, q: nat) {
    && p < q <= |t|
    && (p == 0 || IsSpace(t[p - 1])) && (q == |t| || IsSpace(t[q]))
    && forall j | p <= j < q :: !IsSpace(t[j])
  }

  ghost predicate HasWord(t: string, w: string) {
    exists p: nat, q: nat :: WordAt(t, p, q) && t[p..q] == w
  }

  lemma {:induction false} WordCounts(t: string, start: nat, i: nat, p: nat, q: nat, flag: string -> UpsStatus)
    requires start <= i <= |t| && WordAt(t, p, q) && ((p == start && i <= q) || i < p)
    ensures flag(t[p..q]) <= StatusFrom(t, start, i, flag)
    decreases |t| - i
  {
    if i < |t| && IsSpace(t[i]) {
      if i < p {
        WordCounts(t, i + 1, i + 1, p, q, flag);
      }
    } else if i < |t| {
      WordCounts(t, start, i + 1, p, q, flag);
    }
  }

  lemma {:induction false} FlagHasWord(t: string, start: nat, i: nat, k: nat, flag: string -> UpsStatus)
    returns (p: nat, q: nat)
    requires start <= i <= |t| && (start == 0 || IsSpace(t[start - 1])) && k in StatusFrom(t, start, i, flag)
    requires (forall j | start <= j < i :: !IsSpace(t[j])) && flag([]) == {}
    ensures WordAt(t, p, q) && k in flag(t[p..q])
    decreases |t| - i
  {
    if (i == |t| || IsSpace(t[i])) && k in flag(t[start..i]) {
      NoWordAt(t, i, flag);
      p, q := start, i;
    } else if IsSpace(t[i]) {
      p, q := FlagHasWord(t, i + 1, i + 1, k, flag);
    } else {
      p, q := FlagHasWord(t, start, i + 1, k, flag);
    }
  }

  /** A parsed status has exactly the flags whose names are words of the text; order, repeats and
      other words do not matter. */
  lemma FlagsAreNamedWords(t: string, k: nat)
    ensures k in Parse(t) <==> k < |NAMES| && HasWord(t, NAMES[k])
  {
    if k in Parse(t) {
      EmptyIsNoFlag();
      var p, q := FlagHasWord(t, 0, 0, k, FlagOf);
      FlagOfIs(t[p..q], k);
    }
    if k < |NAMES| && HasWord(t, NAMES[k]) {
      var p: nat, q: nat :| WordAt(t, p, q) && t[p..q] == NAMES[k];
      WordCounts(t, 0, 0, p, q, FlagOf);
      FlagOfIs(NAMES[k], k);
    }
  }

  lemma {:induction false} StatusOfSuffix(x: string, t: string, start: nat, i: nat, flag: string -> UpsStatus)
    requires start <= i <= |t|
    ensures StatusFrom(x + t, |x| + start, |x| + i, flag) == StatusFrom(t, start, i, flag)
    decreases |t| - i
  {
    assert (x + t)[|x| + start..|x| + i] == t[start..i];
    if i < |t| {
      assert (x + t)[|x| + i] == t[i];
      StatusOfSuffix(x, t, i + 1, i + 1, flag);
      StatusOfSuffix(x, t, start, i + 1, flag);
    }
  }

  lemma {:induction false} StatusOfJoin(a: string, c: char, b: string, start: nat, i: nat, flag: string -> UpsStatus)
    requires start <= i <= |a| && IsSpace(c)
    ensures StatusFrom(a + [c] + b, start, i, flag) == StatusFrom(a, start, i, flag) + StatusFrom(b, 0, 0, flag)
    decreases |a| - i
  {
    var t := a + [c] + b;
    assert t[start..i] == a[start..i];
    if i < |a| {
      assert t[i] == a[i];
      StatusOfJoin(a, c, b, i + 1, i + 1, flag);
      StatusOfJoin(a, c, b, start, i + 1, flag);
    } else {
      StatusOfSuffix(a + [c], b, 0, 0, flag);
    }
  }

  /** Parsing two texts with white space between them unites their flags. */
  lemma ParseIsHomomorphic(a: string, c: char, b: string)
    requires IsSpace(c)
    ensures Parse(a + [c] + b) == Set(Parse(a), Parse(b))
  {
    StatusOfJoin(a, c, b, 0, 0, FlagOf);
  }

  // ---------- Printing ----------

  function Name(k: nat): string {
    if k < |NAMES| then NAMES[k] else "UnknownStatus"
  }

  function StateStr(value: UpsStatus): string {
    if value == {} then ""
    else
      var k := FirstBit(value, 0);
      if value == {k} then Name(k) else "UnknownStatus"
  }

  function SpaceJoined(bits: seq<nat>): string {
    if bits == [] then []
    else if |bits| == 1 then Name(bits[0])
    else Name(bits[0]) + (" " + SpaceJoined(bits[1..]))
  }

  lemma StateStrOfFlag(s: UpsStatus)
    requires |s| <= 1
    ensures StateStr(s) == SpaceJoined(BitsFrom(s, 0))
    ensures s != {} ==> BitsFrom(s, 0) == [FirstBit(s, 0)] && s == {FirstBit(s, 0)}
  {
    NoBits();
    if s != {} {
      TakeFirstBit(s);
      OnlyElement(s, FirstBit(s, 0));
      assert Unset(s, {FirstBit(s, 0)}) == {};
    }
  }

  lemma OnlyElement(s: UpsStatus, k: nat)
    requires |s| <= 1 && k in s
    ensures s == {k}
  {
    assert |s - {k}| == |s| - 1;
  }

  lemma StateStrOfBit(k: nat)
    requires k < BITS
    ensures StateStr({k}) == Name(k)
  {
    OneBit(k);
  }

  lemma StateStrIsFirst(bits: seq<nat>)
    requires bits != [] && bits[0] < BITS
    ensures SpaceJoined(bits) == StateStr({bits[0]}) + (if |bits| > 1 then " " + SpaceJoined(bits[1..]) else [])
  {
    StateStrOfBit(bits[0]);
  }

  /** What one turn of the printing loop adds. */
  lemma PrintedTurn(text: string, bits: seq<nat>, value: UpsStatus)
    requires bits != [] && bits[0] < BITS && value == {bits[0]}
    ensures text + SpaceJoined(bits)
            == text + StateStr(value) + (if |bits| > 1 then " " else "") + SpaceJoined(bits[1..])
  {
    StateStrIsFirst(bits);
    var name := StateStr(value);
    var rest := SpaceJoined(bits[1..]);
    if |bits| > 1 {
      Regroup(text, name, " " + rest);
      Regroup(text + name, " ", rest);
    } else {
      Regroup(text, name, []);
    }
  }

  /** `Display`: the names of the set flags, one space between each two. */
  method Display(s: UpsStatus) returns (text: string)
    ensures text == SpaceJoined(BitsFrom(s, 0))
  {
    if |s| <= 1 {
      StateStrOfFlag(s);
      return StateStr(s);
    }
    text := "";
    ghost var whole := SpaceJoined(BitsFrom(s, 0));
    var iter := new Iter(s);
    var value := iter.Next();
    OneBit(FirstBit(s, 0));
    while value.Some?
      invariant value.Some? ==> value.value == {FirstBit(value.value, 0)}
      invariant text + SpaceJoined(Remaining(value, iter.state)) == whole
      decreases value.Some?, |iter.state|
    {
      ghost var bits := Remaining(value, iter.state);
      PrintedTurn(text, bits, value.value);
      text := text + StateStr(value.value);
      NoBits();
      if iter.state != {} {
        OneBit(FirstBit(iter.state, 0));
      }
      var peek := iter.Next();
      if peek.Some? {
        text := text + " ";
      }
      value := peek;
    }
  }

  lemma NameHasNoSpace(k: nat)
    ensures forall j | 0 <= j < |Name(k)| :: !IsSpace(Name(k)[j])
  {
  }

  lemma ParseName(k: nat)
    ensures Parse(Name(k)) == if k < |NAMES| then {k} else {}
  {
    var w := Name(k);
    NameHasNoSpace(k);
    EmptyIsNoFlag();
    WordThenRest(w, 0, 0, |w|, FlagOf);
    NoWordAt(w, |w|, FlagOf);
    assert w[0..|w|] == w;
    if k < |NAMES| {
      FlagOfIs(w, k);
    } else {
      NamesAreShort(NameIndex(w, 0));
    }
  }

  lemma NamesAreShort(i: nat)
    ensures i < |NAMES| ==> NAMES[i] != "UnknownStatus"
  {
    assert i < |NAMES| ==> |NAMES[i]| <= 7;
  }

  function Named(bits: seq<nat>): UpsStatus {
    if bits == [] then {} else (if bits[0] < |NAMES| then {bits[0]} else {}) + Named(bits[1..])
  }

  lemma {:induction false} ParseJoined(bits: seq<nat>)
    ensures Parse(SpaceJoined(bits)) == Named(bits)
  {
    if bits == [] {
      EmptyIsNoFlag();
      NoWordAt([], 0, FlagOf);
    } else {
      ParseName(bits[0]);
      if |bits| > 1 {
        ParseJoined(bits[1..]);
        Regroup(Name(bits[0]), " ", SpaceJoined(bits[1..]));
        ParseIsHomomorphic(Name(bits[0]), ' ', SpaceJoined(bits[1..]));
      }
    }
  }

  lemma {:induction false} NamedHas(bits: seq<nat>, k: nat)
    ensures k in Named(bits) <==> k in bits && k < |NAMES|
  {
    if bits != [] {
      NamedHas(bits[1..], k);
      assert bits == [bits[0]] + bits[1..];
    }
  }

  /** Printing a status and parsing the text gives its named flags back: all of it if and only if
      it has no other bits. */
  lemma PrintedStatusReadsBack(s: UpsStatus)
    ensures var t := SpaceJoined(BitsFrom(s, 0));
            && (forall k: nat :: k in Parse(t) <==> k in s && k < |NAMES|)
            && (Parse(t) == s <==> forall k | k in s :: k < |NAMES|)
  {
    var bits := BitsFrom(s, 0);
    ParseJoined(bits);
    BitsAreExact(s, 0);
    forall k: nat ensures k in Parse(SpaceJoined(bits)) <==> k in s && k < |NAMES| {
      NamedHas(bits, k);
    }
  }
}
