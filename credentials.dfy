/**
 * The credential store: bcrypt password hashing and JWT session tokens.
 * Both libraries are foreign code, so they enter the model as function values
 * the server is configured with, constrained only by the soundness predicates
 * below. The clock is the caller's `now`, in milliseconds since the epoch.
 */
module Credentials {
  import opened Wrappers
  import Http

  /** bcrypt: `hash(password, salt)` with a salt drawn at random, and `compare(password, hash)`. */
  datatype PasswordHasher = PasswordHasher(hash: (string, nat) -> string, compare: (string, string) -> bool)

  /** The one thing login relies on: a password matches a hash made from it, whatever the salt. */
  ghost predicate HasherSound(h: PasswordHasher) {
    forall password, salt :: h.compare(password, h.hash(password, salt))
  }

  /** The claims `jwt.sign({ id, username }, secret, { expiresIn: '1h' })` signs; `iat` and `exp` are in seconds. */
  datatype Claims = Claims(id: nat, username: string, iat: int, exp: int)

  /**
   * jsonwebtoken with the server's secret: `sign` yields the compact token,
   * `decode` checks the signature and parses the payload (None for a bad
   * signature or a malformed token). Expiry is checked by Verify.
   */
  datatype TokenCodec = TokenCodec(sign: Claims -> string, decode: string -> Option<Claims>)

  /**
   * What the model assumes of jsonwebtoken: a signed token decodes to its
   * claims, a compact token never contains a space, and the empty string is
   * rejected ("jwt must be provided").
   */
  ghost predicate CodecSound(c: TokenCodec) {
    && (forall cl :: c.decode(c.sign(cl)) == Some(cl))
    && (forall cl :: Http.NoSpace(c.sign(cl)))
    && c.decode("") == None
  }

  const TOKEN_LIFETIME_SECONDS: int := 60 * 60

  /** `Math.floor(Date.now() / 1000)`: jsonwebtoken's clock. */
  function Seconds(nowMs: int): int {
    nowMs / 1000
  }

  /** `jwt.sign` at time `nowMs`: `iat` is the current second and `exp` one hour later. */
  function Issue(c: TokenCodec, id: nat, username: string, nowMs: int): string {
    c.sign(Claims(id, username, Seconds(nowMs), Seconds(nowMs) + TOKEN_LIFETIME_SECONDS))
  }

  /**
   * `jwt.verify(token, secret)` at time `nowMs`: fails on a missing token, on
   * one that does not decode, and once the current second reaches `exp`.
   */
  function Verify(c: TokenCodec, token: Option<string>, nowMs: int): (r: Option<Claims>)
    ensures r.Some? ==> token.Some? && c.decode(token.value) == r && Seconds(nowMs) < r.value.exp
    ensures token.Some? && c.decode(token.value).Some? && Seconds(nowMs) < c.decode(token.value).value.exp ==> r.Some?
  {
    match token
    case None => None
    case Some(t) =>
      match c.decode(t)
      case None => None
      case Some(claims) => if Seconds(nowMs) < claims.exp then Some(claims) else None
  }

  /**
   * A token issued at `issuedMs` verifies at `nowMs` exactly while the current
   * second is before the issuing second plus one hour, and then carries the
   * user's id and username.
   */
  lemma IssuedTokenVerifiesUntilExpiry(c: TokenCodec, id: nat, username: string, issuedMs: int, nowMs: int)
    requires CodecSound(c)
    ensures Verify(c, Some(Issue(c, id, username, issuedMs)), nowMs).Some?
            <==> Seconds(nowMs) < Seconds(issuedMs) + TOKEN_LIFETIME_SECONDS
    ensures Verify(c, Some(Issue(c, id, username, issuedMs)), nowMs).Some? ==>
              var claims := Verify(c, Some(Issue(c, id, username, issuedMs)), nowMs).value;
              claims.id == id && claims.username == username
  {
    var claims := Claims(id, username, Seconds(issuedMs), Seconds(issuedMs) + TOKEN_LIFETIME_SECONDS);
    assert c.decode(c.sign(claims)) == Some(claims);
  }

  /** Still accepted 59 minutes after issue. */
  lemma AcceptedAfter59Minutes(c: TokenCodec, id: nat, username: string, issuedMs: int)
    requires CodecSound(c)
    ensures Verify(c, Some(Issue(c, id, username, issuedMs)), issuedMs + 59 * 60 * 1000).Some?
  {
    IssuedTokenVerifiesUntilExpiry(c, id, username, issuedMs, issuedMs + 59 * 60 * 1000);
    SecondsShift(issuedMs, 59 * 60);
  }

  /** Rejected 60 minutes after issue and at every later time. */
  lemma RejectedFromOneHour(c: TokenCodec, id: nat, username: string, issuedMs: int, nowMs: int)
    requires CodecSound(c)
    requires nowMs >= issuedMs + 60 * 60 * 1000
    ensures Verify(c, Some(Issue(c, id, username, issuedMs)), nowMs).None?
  {
    IssuedTokenVerifiesUntilExpiry(c, id, username, issuedMs, nowMs);
    SecondsShift(issuedMs, 60 * 60);
    SecondsMonotone(issuedMs + 60 * 60 * 1000, nowMs);
  }

  lemma SecondsShift(ms: int, s: int)
    ensures Seconds(ms + s * 1000) == Seconds(ms) + s
  {
    var q, r := ms / 1000, ms % 1000;
    assert ms + s * 1000 == (q + s) * 1000 + r;
  }

  lemma SecondsMonotone(a: int, b: int)
    requires a <= b
    ensures Seconds(a) <= Seconds(b)
  {
  }
}
