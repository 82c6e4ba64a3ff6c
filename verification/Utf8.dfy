/** UTF-8, as `from_utf8` accepts it: shortest forms of Unicode scalar values only. */
module Utf8 {
  import opened Wrappers

  type byte = b: int | 0 <= b < 256

  /** A continuation byte that carries the low six bits of `n`. */
  function Continuation(n: nat): byte {
    0x80 + n % 64
  }

  predicate IsContinuation(b: byte) {
    0x80 <= b < 0xC0
  }

  function EncodeChar(c: char): (bytes: seq<byte>)
    ensures bytes != []
  {
    var n := c as int;
    if n < 0x80 then [n]
    else if n < 0x800 then [0xC0 + n / 64, Continuation(n)]
    else if n < 0x1_0000 then [0xE0 + n / 64 / 64, Continuation(n / 64), Continuation(n)]
    else [0xF0 + n / 64 / 64 / 64, Continuation(n / 64 / 64), Continuation(n / 64), Continuation(n)]
  }

  function Encode(s: string): seq<byte> {
    if s == [] then [] else EncodeChar(s[0]) + Encode(s[1..])
  }

  predicate IsScalar(n: int) {
    0 <= n < 0xD800 || 0xE000 <= n < 0x11_0000
  }

  /** The length of the sequence that a lead byte announces; 0 if it cannot lead. */
  function LeadLength(b: byte): nat {
    if b < 0x80 then 1 else if b < 0xC2 then 0 else if b < 0xE0 then 2
    else if b < 0xF0 then 3 else if b < 0xF5 then 4 else 0
  }

  /** What a lead byte contributes to a sequence of the length. */
  function LeadBits(b: byte, k: nat): int {
    if k == 1 then b else if k == 2 then b as int - 0xC0 else if k == 3 then b as int - 0xE0 else b as int - 0xF0
  }

  /** The number after `k` bytes, each further byte adding six bits. */
  function Bits(b: seq<byte>, lead: int, k: nat): int
    requires 1 <= k <= |b|
  {
    if k == 1 then lead else Bits(b, lead, k - 1) * 64 + (b[k - 1] as int - 0x80)
  }

  predicate IsShortest(n: int, k: nat) {
    (k == 3 ==> n >= 0x800) && (k == 4 ==> n >= 0x1_0000)
  }

  /** The scalar value of the first sequence and its length, if it is well formed. */
  function DecodeChar(b: seq<byte>): (r: Option<(char, nat)>)
    requires b != []
    ensures r.Some? ==> 0 < r.value.1 <= |b|
  {
    var k := LeadLength(b[0]);
    if k == 0 || |b| < k || exists i | 1 <= i < k :: !IsContinuation(b[i]) then None
    else
      var n := Bits(b, LeadBits(b[0], k), k);
      if IsScalar(n) && IsShortest(n, k) then Some((n as char, k)) else None
  }

  /** `from_utf8`. */
  function Decode(b: seq<byte>): Option<string>
    decreases |b|
  {
    if b == [] then Some([])
    else match DecodeChar(b)
      case None => None
      case Some((c, k)) =>
        match Decode(b[k..])
        case None => None
        case Some(rest) => Some([c] + rest)
  }

  /** Six bits more. */
  lemma SixBits(hi: int, lo: int)
    requires 0 <= hi && 0 <= lo < 64
    ensures (hi * 64 + lo) / 64 == hi && (hi * 64 + lo) % 64 == lo
  {
  }

  lemma SplitSix(n: nat)
    ensures n == n / 64 * 64 + n % 64 && 0 <= n % 64 < 64
  {
  }

  lemma BitsOfEncoded(c: char, rest: seq<byte>)
    ensures var b := EncodeChar(c) + rest;
            var k := |EncodeChar(c)|;
            LeadLength(b[0]) == k && Bits(b, LeadBits(b[0], k), k) == c as int
            && forall i | 1 <= i < k :: IsContinuation(b[i])
  {
    var n := c as int;
    var b := EncodeChar(c) + rest;
    SplitSix(n);
    SplitSix(n / 64);
    SplitSix(n / 64 / 64);
    if 0x80 <= n < 0x800 {
      assert Bits(b, n / 64, 1) == n / 64;
    } else if 0x800 <= n < 0x1_0000 {
      assert Bits(b, n / 64 / 64, 2) == n / 64;
    } else if 0x1_0000 <= n {
      assert Bits(b, n / 64 / 64 / 64, 2) == n / 64 / 64;
      assert Bits(b, n / 64 / 64 / 64, 3) == n / 64;
    }
  }

  lemma DecodeEncodedChar(c: char, rest: seq<byte>)
    ensures DecodeChar(EncodeChar(c) + rest) == Some((c, |EncodeChar(c)|))
  {
    BitsOfEncoded(c, rest);
  }

  lemma EncodeDecodedChar(b: seq<byte>)
    requires b != [] && DecodeChar(b).Some?
    ensures EncodeChar(DecodeChar(b).value.0) == b[..DecodeChar(b).value.1]
  {
    var k := DecodeChar(b).value.1;
    var lead := LeadBits(b[0], k);
    assert Bits(b, lead, 1) == lead;
    if k >= 2 {
      assert IsContinuation(b[1]);
      assert Bits(b, lead, 2) == lead * 64 + (b[1] as int - 0x80);
      SixBits(lead, b[1] as int - 0x80);
    }
    if k >= 3 {
      assert IsContinuation(b[2]);
      assert Bits(b, lead, 3) == Bits(b, lead, 2) * 64 + (b[2] as int - 0x80);
      SixBits(Bits(b, lead, 2), b[2] as int - 0x80);
    }
    if k == 4 {
      assert IsContinuation(b[3]);
      SixBits(Bits(b, lead, 3), b[3] as int - 0x80);
    }
  }

  /** Decoding gives an encoded text back. */
  lemma {:induction false} DecodeOfEncode(s: string)
    ensures Decode(Encode(s)) == Some(s)
  {
    if s != [] {
      var first, rest := EncodeChar(s[0]), Encode(s[1..]);
      DecodeEncodedChar(s[0], rest);
      assert (first + rest)[|first|..] == rest;
      DecodeOfEncode(s[1..]);
      assert [s[0]] + s[1..] == s;
    }
  }

  lemma EncodeCons(c: char, rest: string)
    ensures Encode([c] + rest) == EncodeChar(c) + Encode(rest)
  {
    assert ([c] + rest)[1..] == rest;
  }

  /** Accepted bytes are exactly the encoding of their text. */
  lemma {:induction false} EncodeOfDecode(b: seq<byte>)
    requires Decode(b).Some?
    ensures Encode(Decode(b).value) == b
    decreases |b|
  {
    if b != [] {
      EncodeDecodedChar(b);
      var (c, k) := DecodeChar(b).value;
      EncodeOfDecode(b[k..]);
      EncodeCons(c, Decode(b[k..]).value);
      assert b == b[..k] + b[k..];
    }
  }
}
