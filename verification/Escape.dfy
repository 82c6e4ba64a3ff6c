/** Escaping and unescaping of double-quoted protocol text.

    Wire text is a `string` in which each character stands for one byte (code 0 to 255).
    Both loops copy whole slices; they are proved against definitions that work byte by byte. */
module Escape {
  import opened Wrappers

  // ---------- Per-byte definitions ----------

  predicate IsSpecial(c: char) {
    c == '"' || c == '\\'
  }

  function Escaped(text: string): string {
    if text == [] then []
    else (if IsSpecial(text[0]) then ['\\', text[0]] else [text[0]]) + Escaped(text[1..])
  }

  /** Every backslash is followed by the byte it escapes. */
  ghost predicate Paired(raw: string) {
    if raw == [] then true
    else if raw[0] == '\\' then |raw| >= 2 && Paired(raw[2..])
    else Paired(raw[1..])
  }

  function Unescaped(raw: string): string {
    if raw == [] then []
    else if raw[0] == '\\' then
      if |raw| >= 2 then [raw[1]] + Unescaped(raw[2..]) else []
    else [raw[0]] + Unescaped(raw[1..])
  }

  /** Only ASCII bytes are escaped. */
  predicate EscapesAscii(raw: string) {
    if raw == [] then true
    else if raw[0] == '\\' then
      |raw| >= 2 ==> raw[1] < 128 as char && EscapesAscii(raw[2..])
    else EscapesAscii(raw[1..])
  }

  // ---------- Byte strings that hold UTF-8 text ----------

  predicate IsContinuation(c: char) {
    128 as char <= c < 192 as char
  }

  /** A continuation byte has a multi-byte character before it, and the first byte of a
      multi-byte character has a continuation byte behind it. */
  ghost predicate Utf8At(s: string, i: nat)
    requires i < |s|
  {
    && s[i] < 256 as char
    && (IsContinuation(s[i]) ==> 0 < i && s[i - 1] >= 128 as char)
    && (s[i] >= 192 as char ==> i + 1 < |s| && IsContinuation(s[i + 1]))
  }

  /** The part of UTF-8 well-formedness that decides where a Rust string slice may start or end. */
  ghost predicate Utf8Shape(s: string) {
    forall i: nat | i < |s| :: Utf8At(s, i)
  }

  predicate IsCharBoundary(s: string, i: nat) {
    i == 0 || i == |s| || (i < |s| && !IsContinuation(s[i]))
  }

  /** `&s[from..to]`; None is the panic on an index that is no character boundary. */
  function StrSlice(s: string, from: nat, to: nat): Option<string>
    requires from <= to <= |s|
  {
    if IsCharBoundary(s, from) && IsCharBoundary(s, to) then Some(s[from..to]) else None
  }

  /** The UTF-8 bytes of `char::from(byte)`: a byte of 128 or more becomes two bytes. */
  function CharFromByte(c: char): string
    requires c < 256 as char
  {
    if c < 128 as char then [c]
    else [(192 + c as int / 64) as char, (128 + c as int % 64) as char]
  }

  // ---------- Escaping ----------

  lemma {:induction false} EscapedAppend(a: string, b: string)
    ensures Escaped(a + b) == Escaped(a) + Escaped(b)
  {
    if a == [] {
      assert a + b == b;
    } else {
      EscapedAppend(a[1..], b);
      assert (a + b)[0] == a[0] && (a + b)[1..] == a[1..] + b;
      Regroup(if IsSpecial(a[0]) then ['\\', a[0]] else [a[0]], Escaped(a[1..]), Escaped(b));
    }
  }

  lemma {:induction false} EscapedPlain(a: string)
    requires forall i | 0 <= i < |a| :: !IsSpecial(a[i])
    ensures Escaped(a) == a
  {
    if a != [] {
      EscapedPlain(a[1..]);
    }
  }

  /** A run without special bytes is copied as it is. */
  lemma EscapedRun(text: string, from: nat, to: nat)
    requires from <= to <= |text|
    requires forall i | from <= i < to :: !IsSpecial(text[i])
    ensures Escaped(text[..to]) == Escaped(text[..from]) + text[from..to]
  {
    assert text[..to] == text[..from] + text[from..to];
    EscapedAppend(text[..from], text[from..to]);
    EscapedPlain(text[from..to]);
  }

  lemma EscapedSpecial(text: string, idx: nat)
    requires idx < |text| && IsSpecial(text[idx])
    ensures Escaped(text[..idx + 1]) == Escaped(text[..idx]) + ['\\'] + [text[idx]]
  {
    assert text[..idx + 1] == text[..idx] + [text[idx]];
    EscapedAppend(text[..idx], [text[idx]]);
  }

  method EscapeNutStr(text: string) returns (r: string)
    ensures r == Escaped(text)
  {
    var escaped: string := [];
    var sliceStart := 0;
    for idx := 0 to |text|
      invariant sliceStart <= idx
      invariant forall i | sliceStart <= i < idx :: !IsSpecial(text[i])
      invariant escaped == Escaped(text[..sliceStart])
      invariant escaped == [] ==> sliceStart == 0
    {
      if text[idx] == '"' || text[idx] == '\\' {
        EscapedRun(text, sliceStart, idx);
        EscapedSpecial(text, idx);
        if sliceStart < idx {
          escaped := escaped + text[sliceStart..idx];
        }
        escaped := escaped + ['\\'];
        escaped := escaped + [text[idx]];
        sliceStart := idx + 1;
      }
    }
    EscapedRun(text, sliceStart, |text|);
    assert text[..|text|] == text;
    if escaped == [] {
      r := text;
    } else {
      if sliceStart < |text| {
        escaped := escaped + text[sliceStart..];
      }
      r := escaped;
    }
  }

  // ---------- Unescaping ----------

  lemma {:induction false} UnescapedPlain(a: string)
    requires forall i | 0 <= i < |a| :: a[i] != '\\'
    ensures Unescaped(a) == a && Paired(a) && EscapesAscii(a)
  {
    if a != [] {
      UnescapedPlain(a[1..]);
    }
  }

  lemma {:induction false} UnescapedAppend(a: string, b: string)
    requires Paired(a)
    ensures Unescaped(a + b) == Unescaped(a) + Unescaped(b)
    ensures Paired(a + b) <==> Paired(b)
    ensures EscapesAscii(a + b) <==> EscapesAscii(a) && EscapesAscii(b)
  {
    if a == [] {
      assert a + b == b;
    } else {
      var n := if a[0] == '\\' then 2 else 1;
      UnescapedAppend(a[n..], b);
      assert (a + b)[0] == a[0] && (a + b)[n - 1] == a[n - 1] && (a + b)[n..] == a[n..] + b;
      assert Unescaped(a) == [a[n - 1]] + Unescaped(a[n..]);
      assert Unescaped(a + b) == [a[n - 1]] + Unescaped(a[n..] + b);
      Regroup([a[n - 1]], Unescaped(a[n..]), Unescaped(b));
    }
  }

  /** What a run without backslashes adds to the text unescaped so far. */
  lemma UnescapedRun(text: string, from: nat, to: nat)
    requires from <= to <= |text| && Paired(text[..from])
    requires forall i | from <= i < to :: text[i] != '\\'
    ensures Paired(text[..to])
    ensures Unescaped(text[..to]) == Unescaped(text[..from]) + text[from..to]
    ensures EscapesAscii(text[..to]) <==> EscapesAscii(text[..from])
  {
    assert text[..to] == text[..from] + text[from..to];
    UnescapedPlain(text[from..to]);
    UnescapedAppend(text[..from], text[from..to]);
  }

  /** One escape pair at `idx` adds the byte behind the backslash, and the next slice starts on a
      character boundary exactly if that byte is ASCII. */
  lemma UnescapedPair(text: string, idx: nat)
    requires Utf8Shape(text)
    requires idx < |text| && text[idx] == '\\' && Paired(text[idx..]) && Paired(text[..idx])
    ensures idx + 2 <= |text| && Paired(text[idx + 2..]) && Paired(text[..idx + 2])
    ensures Unescaped(text[..idx + 2]) == Unescaped(text[..idx]) + [text[idx + 1]]
    ensures EscapesAscii(text[..idx + 2]) <==>
            EscapesAscii(text[..idx]) && text[idx + 1] < 128 as char
    ensures IsCharBoundary(text, idx + 2) <==> text[idx + 1] < 128 as char
    ensures IsCharBoundary(text, idx) && text[idx + 1] < 256 as char
  {
    assert text[idx..][2..] == text[idx + 2..];
    assert Utf8At(text, idx) && Utf8At(text, idx + 1);
    if idx + 2 < |text| {
      assert Utf8At(text, idx + 2);
    }
    assert text[..idx + 2] == text[..idx] + text[idx..idx + 2];
    var pair := text[idx..idx + 2];
    assert pair[2..] == [];
    UnescapedAppend(text[..idx], pair);
  }

  lemma AsciiPrefix(text: string, k: nat)
    requires k <= |text| && Paired(text[..k])
    ensures EscapesAscii(text) ==> EscapesAscii(text[..k])
  {
    assert text == text[..k] + text[k..];
    UnescapedAppend(text[..k], text[k..]);
  }

  /** What the unescape loop knows when the slices up to `from` have been copied. */
  ghost predicate Copied(text: string, from: nat, escaped: string) {
    && from <= |text|
    && Paired(text[..from])
    && (IsCharBoundary(text, from) <==> EscapesAscii(text[..from]))
    && (EscapesAscii(text[..from]) ==> escaped == Unescaped(text[..from]))
    && (escaped == [] <==> from == 0)
  }

  /** The content of a quoted token, unescaped; None is the panic of a slice that starts inside
      a multi-byte character. */
  method ExtractQuoted(text: string) returns (r: Option<string>)
    requires Paired(text) && Utf8Shape(text)
    ensures r.Some? <==> EscapesAscii(text)
    ensures r.Some? ==> r.value == Unescaped(text)
  {
    var escaped: string := [];
    var sliceStart, idx := 0, 0;
    while idx < |text|
      invariant sliceStart <= idx <= |text| && Paired(text[idx..])
      invariant Copied(text, sliceStart, escaped)
      invariant forall i | sliceStart <= i < idx :: text[i] != '\\'
    {
      if text[idx] == '\\' {
        UnescapedRun(text, sliceStart, idx);
        UnescapedPair(text, idx);
        if sliceStart < idx {
          var part := StrSlice(text, sliceStart, idx);
          if part.None? {
            AsciiPrefix(text, sliceStart);
            return None;
          }
          escaped := escaped + part.value;
        }
        escaped := escaped + CharFromByte(text[idx + 1]);
        sliceStart := idx + 2;
        idx := idx + 2;
      } else {
        assert text[idx..][1..] == text[idx + 1..];
        idx := idx + 1;
      }
    }
    UnescapedRun(text, sliceStart, |text|);
    assert text[..|text|] == text;
    if escaped == [] {
      return Some(text);
    }
    if sliceStart < |text| {
      var part := StrSlice(text, sliceStart, |text|);
      if part.None? {
        return None;
      }
      escaped := escaped + part.value;
    }
    return Some(escaped);
  }

  // ---------- Round trip ----------

  lemma {:induction false} EscapeRoundTrip(text: string)
    ensures Paired(Escaped(text)) && EscapesAscii(Escaped(text))
    ensures Unescaped(Escaped(text)) == text
  {
    if text != [] {
      EscapeRoundTrip(text[1..]);
      var head := if IsSpecial(text[0]) then ['\\', text[0]] else [text[0]];
      assert Escaped(text)[|head|..] == Escaped(text[1..]);
    }
  }

  const QUOTE := '"'
  const BACKSLASH := '\\'

  predicate IsPlain(text: string) {
    QUOTE !in text && BACKSLASH !in text
  }

  /** Double quotes and backslashes get a backslash, and no other byte does; a backslash is taken off
      whatever byte follows it. */
  lemma EscapesTwoBytes(plain: string, c: char, rest: string)
    requires IsPlain(plain)
    ensures Escaped(plain) == plain
    ensures Escaped(plain + [QUOTE] + rest) == plain + [BACKSLASH, QUOTE] + Escaped(rest)
    ensures Escaped(plain + [BACKSLASH] + rest) == plain + [BACKSLASH, BACKSLASH] + Escaped(rest)
    ensures Unescaped(plain + [BACKSLASH, c] + rest) == plain + [c] + Unescaped(rest)
  {
    EscapedPlain(plain);
    UnescapedPlain(plain);
    EscapedOne(plain, QUOTE, rest);
    EscapedOne(plain, BACKSLASH, rest);
    var pair := [BACKSLASH, c];
    assert (pair + rest)[2..] == rest;
    UnescapedAppend(plain, pair + rest);
    Regroup(plain, pair, rest);
    Regroup(plain, [c], Unescaped(rest));
  }

  lemma EscapedOne(plain: string, c: char, rest: string)
    requires IsSpecial(c)
    ensures Escaped(plain + [c] + rest) == Escaped(plain) + [BACKSLASH, c] + Escaped(rest)
  {
    assert ([c] + rest)[1..] == rest;
    EscapedAppend(plain, [c] + rest);
    Regroup(plain, [c], rest);
    Regroup(Escaped(plain), [BACKSLASH, c], Escaped(rest));
  }

  /** A backslash before a character of two bytes: the unescape loop would split the character. */
  lemma UnescapeCanPanic()
    ensures var raw := ['\\', 0xC3 as char, 0xA9 as char]; Utf8Shape(raw) && Paired(raw) && !EscapesAscii(raw)
  {
    var raw := ['\\', 0xC3 as char, 0xA9 as char];
    assert raw[2..] == [0xA9 as char];
    assert Utf8At(raw, 0) && Utf8At(raw, 1) && Utf8At(raw, 2);
  }
}
