/** Time constants (milliseconds) and signed tokens. A token is an abstract record of
    claims and an expiry instant; signing and checking the signature are not
    modelled, a token that fails the signature check (or is missing or garbled)
    is `Unverifiable`. */
module Jwt {
  import opened Wrappers

  const SECOND: nat := 1000
  const MINUTE: nat := 60 * SECOND
  const HOUR: nat := 60 * MINUTE
  const DAY: nat := 24 * HOUR

  /** An identifier as it appears in a token or in a URL: a MongoDB ObjectId, or any
      other string (such as the fixed administrator's 'admin'), which the store
      refuses to cast to an ObjectId. */
  datatype ObjectRef = Oid(n: nat) | Name(s: string)

  /** The claims the routes put into tokens. Each is optional because different
      routes sign different subsets: trainer tokens carry `id`, every other token
      carries `userId`. */
  datatype Claims = Claims(
    userId: Option<ObjectRef>,
    id: Option<ObjectRef>,
    role: Option<string>,
    email: Option<string>,
    name: Option<string>,
    isOAuth: Option<bool>)

  datatype Token = Signed(claims: Claims, expiresAt: int) | Unverifiable

  /** The `name` of the error `jwt.verify` throws. */
  datatype JwtError = JsonWebTokenError | TokenExpiredError

  /** The `{ userId, role }` claims most routes sign. */
  function UserClaims(userId: ObjectRef, role: string): Claims {
    Claims(Some(userId), None, Some(role), None, None, None)
  }

  /** The clock as jsonwebtoken reads it: `Math.floor(Date.now() / 1000)` seconds, here
      written back in milliseconds (Dafny's `/` floors for a positive divisor). */
  function WholeSeconds(now: int): (t: int)
    ensures t <= now < t + SECOND && t % SECOND == 0
  {
    (now / SECOND) * SECOND
  }

  /** `jwt.sign(claims, secret, { expiresIn })` at time `now`: `iat` is the clock in
      whole seconds and `exp` is `iat` plus the lifetime. */
  function Sign(claims: Claims, now: int, lifetime: nat): (t: Token)
    ensures t.Signed? && t.claims == claims
    ensures now - SECOND < t.expiresAt - lifetime <= now
  {
    Signed(claims, WholeSeconds(now) + lifetime)
  }

  /** `jwt.verify(token, secret)` at time `now`: the claims, or the error it throws.
      A token is expired once the clock, in whole seconds, reaches its `exp`. */
  function Verify(t: Token, now: int): Result<Claims, JwtError> {
    match t
    case Unverifiable => Err(JsonWebTokenError)
    case Signed(c, exp) => if WholeSeconds(now) >= exp then Err(TokenExpiredError) else Ok(c)
  }

  /** A signed token yields its claims exactly until the whole-second clock passes `iat`
      plus the lifetime, and from then on fails with TokenExpiredError, never
      JsonWebTokenError. */
  lemma SignThenVerify(c: Claims, issued: int, lifetime: nat, now: int)
    ensures Verify(Sign(c, issued, lifetime), now).Ok? <==> WholeSeconds(now) < WholeSeconds(issued) + lifetime
    ensures Verify(Sign(c, issued, lifetime), now).Ok? ==> Verify(Sign(c, issued, lifetime), now).value == c
    ensures !Verify(Sign(c, issued, lifetime), now).Ok? ==> Verify(Sign(c, issued, lifetime), now) == Err(TokenExpiredError)
  {
  }

  /** With a lifetime of whole seconds, as every route uses, a token is valid exactly
      before `iat` plus the lifetime, which lies at most 999 ms before `issued` plus
      the lifetime: a token signed at 999 ms for one second has expired at 1000 ms. */
  lemma WholeSecondLifetime(c: Claims, issued: int, lifetime: nat, now: int)
    requires lifetime % SECOND == 0
    ensures Verify(Sign(c, issued, lifetime), now).Ok? <==> now < WholeSeconds(issued) + lifetime
    ensures Verify(Sign(c, issued, lifetime), now).Ok? ==> now < issued + lifetime
    ensures now < issued + lifetime - (SECOND - 1) ==> Verify(Sign(c, issued, lifetime), now).Ok?
  {
    var e := WholeSeconds(issued) + lifetime;
    assert e % SECOND == 0 by {
      assert e == (issued / SECOND + lifetime / SECOND) * SECOND;
    }
    if WholeSeconds(now) < e {
      assert now / SECOND < e / SECOND;
      assert now / SECOND + 1 <= e / SECOND;
    }
  }
}
