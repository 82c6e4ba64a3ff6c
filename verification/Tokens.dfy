/** Access tokens, user sessions and their signatures, as bytes. */
module Tokens {
  import opened Wrappers
  import opened Utf8
  import opened UpsStatuses

  const U64_LIMIT := 0x1_0000_0000_0000_0000

  type U64 = n: int | 0 <= n < U64_LIMIT

  // ---------- Little-endian numbers ----------

  function Le(n: nat, k: nat): (bytes: seq<byte>)
    ensures |bytes| == k
  {
    if k == 0 then [] else [n % 256] + Le(n / 256, k - 1)
  }

  function FromLe(bytes: seq<byte>): nat {
    if bytes == [] then 0 else bytes[0] + 256 * FromLe(bytes[1..])
  }

  function Power256(k: nat): nat {
    if k == 0 then 1 else 256 * Power256(k - 1)
  }

  lemma PowerOfEight()
    ensures Power256(8) == U64_LIMIT
  {
    assert Power256(4) == 0x1_0000_0000;
  }

  lemma {:induction false} LeReadsBack(n: nat, k: nat)
    requires n < Power256(k)
    ensures FromLe(Le(n, k)) == n
  {
    if k > 0 {
      LeReadsBack(n / 256, k - 1);
      assert Le(n, k)[1..] == Le(n / 256, k - 1);
    }
  }

  lemma {:induction false} LeOfRead(bytes: seq<byte>)
    ensures Le(FromLe(bytes), |bytes|) == bytes && FromLe(bytes) < Power256(|bytes|)
  {
    if bytes != [] {
      LeOfRead(bytes[1..]);
      assert bytes == [bytes[0]] + bytes[1..];
    }
  }

  function ReadU64(bytes: seq<byte>): (n: U64)
    requires |bytes| == 8
  {
    LeOfRead(bytes);
    PowerOfEight();
    FromLe(bytes)
  }

  lemma U64ReadsBack(n: U64)
    ensures ReadU64(Le(n, 8)) == n
  {
    PowerOfEight();
    LeReadsBack(n, 8);
  }

  // ---------- Access tokens ----------

  datatype AccessToken = AccessToken(permissions: byte, validUntil: U64, issuedAt: U64, nonce: U64)

  datatype AccessTokenError = InvalidLength | InvalidVersion | InvalidTimestamps

  const TOKEN_BYTE_LEN := 26
  const VERSION: byte := 1

  function TokenBytes(t: AccessToken): (bytes: seq<byte>)
    ensures |bytes| == TOKEN_BYTE_LEN
  {
    [VERSION, t.permissions] + Le(t.issuedAt, 8) + Le(t.validUntil, 8) + Le(t.nonce, 8)
  }

  /** `as_bytes` of a token. */
  method TokenAsBytes(t: AccessToken) returns (bytes: seq<byte>)
    ensures bytes == TokenBytes(t)
  {
    bytes := [];
    bytes := bytes + [VERSION];
    bytes := bytes + [t.permissions];
    bytes := bytes + Le(t.issuedAt, 8);
    bytes := bytes + Le(t.validUntil, 8);
    bytes := bytes + Le(t.nonce, 8);
  }

  function ReadToken(bytes: seq<byte>): Result<AccessToken, AccessTokenError> {
    if |bytes| != TOKEN_BYTE_LEN then Err(InvalidLength)
    else
      var issuedAt, validUntil, nonce := ReadU64(bytes[2..10]), ReadU64(bytes[10..18]), ReadU64(bytes[18..26]);
      if bytes[0] != VERSION then Err(InvalidVersion)
      else if issuedAt > validUntil then Err(InvalidTimestamps)
      else Ok(AccessToken(bytes[1], validUntil, issuedAt, nonce))
  }

  /** `AccessTokenBuilder::build` at the time `now`. */
  function Build(permissions: byte, lifetime: U64, now: U64, nonce: U64): AccessToken {
    AccessToken(permissions, if now + lifetime < U64_LIMIT then now + lifetime else U64_LIMIT - 1, now, nonce)
  }

  predicate IsActive(t: AccessToken, now: U64) {
    t.issuedAt <= now < t.validUntil
  }

  /** The seconds that are left. */
  function Ttl(t: AccessToken, now: U64): nat {
    if now < t.validUntil then t.validUntil - now else 0
  }

  /** A built token carries what it was built from, is active from its issue on for its lifetime, or
      to the end of time if that comes first, and has the rest of that time left. */
  lemma BuiltTokenLives(permissions: byte, lifetime: U64, now: U64, nonce: U64, at: U64)
    ensures var read := ReadToken(TokenBytes(Build(permissions, lifetime, now, nonce)));
            && read.Ok?
            && read.value.permissions == permissions && read.value.nonce == nonce && read.value.issuedAt == now
            && (IsActive(read.value, at) <==> now <= at < now + lifetime && at < U64_LIMIT - 1)
            && (now <= at ==> Ttl(read.value, at) == (if now + lifetime < U64_LIMIT
                                                      then if at < now + lifetime then now + lifetime - at else 0
                                                      else U64_LIMIT - 1 - at))
  {
    TokenReadsBack(Build(permissions, lifetime, now, nonce));
  }

  /** Eight bytes as a number, the lowest first. */
  lemma EightBytes(b: seq<byte>, d: seq<int>)
    requires |b| == |d| == 8 && forall i | 0 <= i < 8 :: d[i] == b[i] as int
    ensures ReadU64(b) as int
            == d[0] + 0x100 * d[1] + 0x1_0000 * d[2] + 0x100_0000 * d[3] + 0x1_0000_0000 * d[4]
               + 0x100_0000_0000 * d[5] + 0x1_0000_0000_0000 * d[6] + 0x100_0000_0000_0000 * d[7]
  {
    FromLeStep(b, 0);
    FromLeStep(b, 1);
    FromLeStep(b, 2);
    FromLeStep(b, 3);
    FromLeStep(b, 4);
    FromLeStep(b, 5);
    FromLeStep(b, 6);
    FromLeStep(b, 7);
    assert b[0..] == b && b[8..] == [];
  }

  lemma FromLeStep(b: seq<byte>, i: nat)
    requires i < |b|
    ensures FromLe(b[i..]) == b[i] as int + 0x100 * FromLe(b[i + 1..])
  {
    assert b[i..][1..] == b[i + 1..];
  }

  /** Where the fields of a token stand. */
  lemma TokenLayout(t: AccessToken)
    ensures var b := TokenBytes(t);
            && b[0] == 1 && b[1] == t.permissions
            && ReadU64(b[2..10]) == t.issuedAt && ReadU64(b[10..18]) == t.validUntil && ReadU64(b[18..26]) == t.nonce
  {
    var b := TokenBytes(t);
    assert b[2..10] == Le(t.issuedAt, 8);
    assert b[10..18] == Le(t.validUntil, 8);
    assert b[18..26] == Le(t.nonce, 8);
    U64ReadsBack(t.issuedAt);
    U64ReadsBack(t.validUntil);
    U64ReadsBack(t.nonce);
  }

  /** The bytes of a token read back to it exactly if it is not issued after its expiry, ... */
  lemma TokenReadsBack(t: AccessToken)
    ensures ReadToken(TokenBytes(t)) == if t.issuedAt <= t.validUntil then Ok(t) else Err(InvalidTimestamps)
  {
    var b := TokenBytes(t);
    assert b[2..10] == Le(t.issuedAt, 8);
    assert b[10..18] == Le(t.validUntil, 8);
    assert b[18..26] == Le(t.nonce, 8);
    U64ReadsBack(t.issuedAt);
    U64ReadsBack(t.validUntil);
    U64ReadsBack(t.nonce);
  }

  /** ... which the builder guarantees, even where the expiry saturates. */
  lemma BuiltTokenReadsBack(permissions: byte, lifetime: U64, now: U64, nonce: U64)
    ensures var t := Build(permissions, lifetime, now, nonce);
            ReadToken(TokenBytes(t)) == Ok(t) && t.validUntil - now <= lifetime
  {
    TokenReadsBack(Build(permissions, lifetime, now, nonce));
  }

  /** Accepted bytes are the bytes of their token. */
  lemma AcceptedTokenReencodes(bytes: seq<byte>)
    requires ReadToken(bytes).Ok?
    ensures TokenBytes(ReadToken(bytes).value) == bytes
  {
    LeOfRead(bytes[2..10]);
    LeOfRead(bytes[10..18]);
    LeOfRead(bytes[18..26]);
    assert bytes == [bytes[0], bytes[1]] + bytes[2..10] + bytes[10..18] + bytes[18..26];
  }

  // ---------- User sessions ----------

  /** A name that is not empty after trimming. */
  predicate IsUsername(name: string) {
    exists i | 0 <= i < |name| :: !IsSpace(name[i])
  }

  datatype UserSession = UserSession(username: string, token: AccessToken)

  datatype UserSessionError =
    | TooShort
    | EmptyUsername
    | InvalidUtf8
    | InvalidToken(error: AccessTokenError)

  function SessionBytes(s: UserSession): seq<byte> {
    TokenBytes(s.token) + Encode(s.username)
  }

  /** `as_bytes` of a session. */
  method SessionAsBytes(s: UserSession) returns (bytes: seq<byte>)
    ensures bytes == SessionBytes(s)
  {
    bytes := TokenAsBytes(s.token);
    bytes := bytes + Encode(s.username);
  }

  function ReadSession(bytes: seq<byte>): Result<UserSession, UserSessionError> {
    if |bytes| < TOKEN_BYTE_LEN then Err(TooShort)
    else if |bytes| == TOKEN_BYTE_LEN then Err(EmptyUsername)
    else match ReadToken(bytes[..TOKEN_BYTE_LEN])
      case Err(e) => Err(InvalidToken(e))
      case Ok(token) =>
        match Decode(bytes[TOKEN_BYTE_LEN..])
        case None => Err(InvalidUtf8)
        case Some(name) => if IsUsername(name) then Ok(UserSession(name, token)) else Err(EmptyUsername)
  }

  lemma EncodeNotEmpty(s: string)
    requires s != []
    ensures Encode(s) != []
  {
  }

  /** The bytes of a session read back to it exactly if its token's do and its name is not blank. */
  lemma SessionReadsBack(s: UserSession)
    ensures ReadSession(SessionBytes(s)) == Ok(s)
            <==> s.token.issuedAt <= s.token.validUntil && IsUsername(s.username)
  {
    var b := SessionBytes(s);
    assert b[..TOKEN_BYTE_LEN] == TokenBytes(s.token);
    assert b[TOKEN_BYTE_LEN..] == Encode(s.username);
    TokenReadsBack(s.token);
    DecodeOfEncode(s.username);
    if s.username != [] {
      EncodeNotEmpty(s.username);
    }
  }

  lemma AcceptedSessionReencodes(bytes: seq<byte>)
    requires ReadSession(bytes).Ok?
    ensures SessionBytes(ReadSession(bytes).value) == bytes
    ensures var s := ReadSession(bytes).value; s.token.issuedAt <= s.token.validUntil && IsUsername(s.username)
  {
    AcceptedTokenReencodes(bytes[..TOKEN_BYTE_LEN]);
    EncodeOfDecode(bytes[TOKEN_BYTE_LEN..]);
    assert bytes == bytes[..TOKEN_BYTE_LEN] + bytes[TOKEN_BYTE_LEN..];
  }

  // ---------- Signatures ----------

  const SIGNATURE_SIZE := 32

  /** A keyed hash with 32 bytes of output; which one does not matter here. */
  type Mac = (seq<byte>, seq<byte>) -> seq<byte>

  ghost predicate IsMac(mac: Mac) {
    forall key, text :: |mac(key, text)| == SIGNATURE_SIZE
  }

  datatype SignatureError<E> = SignedTooShort | InvalidSignature | TokenError(error: E)

  /** `sign_token` on the bytes of a token. */
  function Sign(mac: Mac, key: seq<byte>, payload: seq<byte>): seq<byte> {
    payload + mac(key, payload)
  }

  /** `from_bytes`: the signature is checked before the payload is read. */
  function Open<T, E>(mac: Mac, key: seq<byte>, bytes: seq<byte>, read: seq<byte> -> Result<T, E>)
    : Result<T, SignatureError<E>>
  {
    if |bytes| <= SIGNATURE_SIZE then Err(SignedTooShort)
    else
      var payload, signature := bytes[..|bytes| - SIGNATURE_SIZE], bytes[|bytes| - SIGNATURE_SIZE..];
      if signature != mac(key, payload) then Err(InvalidSignature)
      else match read(payload)
        case Err(e) => Err(TokenError(e))
        case Ok(t) => Ok(t)
  }

  /** Opening signed bytes is reading their payload. */
  lemma OpenSigned<T, E>(mac: Mac, key: seq<byte>, payload: seq<byte>, read: seq<byte> -> Result<T, E>)
    requires IsMac(mac) && payload != []
    ensures Open(mac, key, Sign(mac, key, payload), read)
            == match read(payload) { case Ok(t) => Ok(t) case Err(e) => Err(TokenError(e)) }
  {
    var bytes := Sign(mac, key, payload);
    assert |mac(key, payload)| == SIGNATURE_SIZE;
    assert bytes[..|bytes| - SIGNATURE_SIZE] == payload;
    assert bytes[|bytes| - SIGNATURE_SIZE..] == mac(key, payload);
  }

  /** Bytes open exactly if they end with the MAC of what stands before it and that can be read. */
  lemma OpensExactly<T, E>(mac: Mac, key: seq<byte>, bytes: seq<byte>, read: seq<byte> -> Result<T, E>, t: T)
    requires IsMac(mac)
    ensures Open(mac, key, bytes, read) == Ok(t)
            <==> exists payload | payload != [] :: bytes == payload + mac(key, payload) && read(payload) == Ok(t)
  {
    if Open(mac, key, bytes, read) == Ok(t) {
      var payload := bytes[..|bytes| - SIGNATURE_SIZE];
      assert bytes == payload + mac(key, payload);
    }
    if payload :| payload != [] && bytes == payload + mac(key, payload) && read(payload) == Ok(t) {
      OpenSigned(mac, key, payload, read);
    }
  }

  /** What was signed with one key is refused under another, unless the MACs agree. */
  lemma OtherKeyIsRefused<T, E>(mac: Mac, key: seq<byte>, other: seq<byte>, payload: seq<byte>,
                                read: seq<byte> -> Result<T, E>)
    requires IsMac(mac) && payload != []
    ensures Open(mac, other, Sign(mac, key, payload), read) == Err(InvalidSignature)
            <==> mac(key, payload) != mac(other, payload)
  {
    var bytes := Sign(mac, key, payload);
    assert |mac(key, payload)| == SIGNATURE_SIZE;
    assert bytes[..|bytes| - SIGNATURE_SIZE] == payload;
    assert bytes[|bytes| - SIGNATURE_SIZE..] == mac(key, payload);
  }

  /** For every key and any MAC, a built token that is signed and opened again is the same token. */
  lemma SignedTokenOpens(mac: Mac, key: seq<byte>, permissions: byte, lifetime: U64, now: U64, nonce: U64)
    requires IsMac(mac)
    ensures var t := Build(permissions, lifetime, now, nonce);
            Open(mac, key, Sign(mac, key, TokenBytes(t)), ReadToken) == Ok(t)
  {
    var t := Build(permissions, lifetime, now, nonce);
    BuiltTokenReadsBack(permissions, lifetime, now, nonce);
    OpenSigned(mac, key, TokenBytes(t), ReadToken);
  }

  /** So is a session of any name that is not blank. */
  lemma SignedSessionOpens(mac: Mac, key: seq<byte>, s: UserSession)
    requires IsMac(mac)
    ensures Open(mac, key, Sign(mac, key, SessionBytes(s)), ReadSession) == Ok(s)
            <==> s.token.issuedAt <= s.token.validUntil && IsUsername(s.username)
  {
    SessionReadsBack(s);
    OpenSigned(mac, key, SessionBytes(s), ReadSession);
  }

  /** Bytes that open to a token are exactly what signing it gives, and likewise for sessions: no
      second form is accepted. */
  lemma OpenedIsSigned(mac: Mac, key: seq<byte>, bytes: seq<byte>)
    ensures var t := Open(mac, key, bytes, ReadToken);
            t.Ok? ==> bytes == Sign(mac, key, TokenBytes(t.value))
    ensures var s := Open(mac, key, bytes, ReadSession);
            s.Ok? ==> bytes == Sign(mac, key, SessionBytes(s.value))
  {
    if |bytes| > SIGNATURE_SIZE {
      var payload := bytes[..|bytes| - SIGNATURE_SIZE];
      assert bytes == payload + bytes[|bytes| - SIGNATURE_SIZE..];
      if ReadToken(payload).Ok? {
        AcceptedTokenReencodes(payload);
      }
      if ReadSession(payload).Ok? {
        AcceptedSessionReencodes(payload);
      }
    }
  }
}
