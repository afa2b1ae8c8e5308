/** One-time MFA codes: their shape, how they are issued onto a user record, and the
    two ways the routes check a supplied code against the stored one. */
module MfaCode {
  import opened Wrappers
  import opened Text
  import opened Jwt
  import opened UserModel

  const CODE_MIN: nat := 100000
  const CODE_MAX: nat := 999999

  /** Lifetime of the code (and of the temporary token) issued at password login. */
  const LOGIN_CODE_LIFETIME: nat := 30 * MINUTE
  /** Lifetime of every other code: resend, setup, disable, delete, OAuth login. */
  const CODE_LIFETIME: nat := 15 * MINUTE

  /** Six decimal digits without a leading zero. */
  predicate IsMfaCode(s: string) {
    |s| == 6 && AllDigits(s) && s[0] != '0'
  }

  /** `Math.floor(100000 + Math.random() * 900000).toString()` for the number drawn. */
  function CodeText(n: nat): string
    requires CODE_MIN <= n <= CODE_MAX
  {
    Decimal(n)
  }

  lemma SixDigitBounds()
    ensures Pow10(5) == CODE_MIN && Pow10(6) == CODE_MAX + 1
  {
    assert Pow10(1) == 10 && Pow10(2) == 100 && Pow10(3) == 1000 && Pow10(4) == 10000;
  }

  lemma CodeTextShape(n: nat)
    requires CODE_MIN <= n <= CODE_MAX
    ensures IsMfaCode(CodeText(n))
    ensures RadixValue(CodeText(n), 10) == n
  {
    SixDigitBounds();
    DecimalRoundTrip(n);
    DecimalIsPadded(n, 6);
    PaddedRoundTrip(n, 6);
  }

  /** Every digit string is the padded form of the number it denotes. */
  lemma {:induction false} PaddedOfValue(s: string)
    requires AllDigits(s)
    ensures RadixValue(s, 10) < Pow10(|s|)
    ensures Padded(RadixValue(s, 10), |s|) == s
    decreases |s|
  {
    if s != [] {
      var init := s[..|s| - 1];
      assert AllDigits(init) by {
        forall i | 0 <= i < |init| ensures IsDigit(init[i]) { assert init[i] == s[i]; }
      }
      PaddedOfValue(init);
      var v := RadixValue(s, 10);
      var d := CharDigit(s[|s| - 1]);
      assert IsDigit(s[|s| - 1]);
      assert d < 10;
      assert v / 10 == RadixValue(init, 10) && v % 10 == d;
      assert DigitChar(d) == s[|s| - 1];
      assert s == init + [s[|s| - 1]];
    }
  }

  /** A digit string with a non-zero first digit denotes at least `10^(|s|-1)`. */
  lemma {:induction false} LeadingDigitBound(s: string)
    requires s != [] && AllDigits(s) && s[0] != '0'
    ensures RadixValue(s, 10) >= Pow10(|s| - 1)
    decreases |s|
  {
    if |s| > 1 {
      var init := s[..|s| - 1];
      assert AllDigits(init) by {
        forall i | 0 <= i < |init| ensures IsDigit(init[i]) { assert init[i] == s[i]; }
      }
      assert init[0] == s[0];
      LeadingDigitBound(init);
    } else {
      assert IsDigit(s[0]);
    }
  }

  /** The strings that `generateMfaCode` can return are exactly the six-digit codes. */
  lemma CodesAreGenerated(s: string)
    ensures IsMfaCode(s) <==> exists n :: CODE_MIN <= n <= CODE_MAX && CodeText(n) == s
  {
    if IsMfaCode(s) {
      var n := RadixValue(s, 10);
      PaddedOfValue(s);
      LeadingDigitBound(s);
      SixDigitBounds();
      DecimalIsPadded(n, 6);
      assert CodeText(n) == s;
    }
    if exists n :: CODE_MIN <= n <= CODE_MAX && CodeText(n) == s {
      var n :| CODE_MIN <= n <= CODE_MAX && CodeText(n) == s;
      CodeTextShape(n);
    }
  }

  /** `generateMfaCode()`: a code drawn at random from 100000..999999. */
  method GenerateMfaCode() returns (code: string)
    ensures IsMfaCode(code)
    ensures exists n :: CODE_MIN <= n <= CODE_MAX && CodeText(n) == code
  {
    var n: nat :| CODE_MIN <= n <= CODE_MAX;
    CodeTextShape(n);
    code := CodeText(n);
  }

  // ---------------------------------------------------------------- issuing

  /** The record after a code was assigned with its expiry. */
  function IssueCode(u: User, code: string, now: int, lifetime: nat): User {
    u.(mfaCode := Some(code), mfaCodeExpires := Some(now + lifetime))
  }

  /** The record after both code fields were cleared. */
  function ClearCode(u: User): User {
    u.(mfaCode := None, mfaCodeExpires := None)
  }

  /** Code and expiry are present together, and a present code has the generated
      shape. Every issuing and clearing route keeps this. */
  predicate ChallengeInvariant(u: User) {
    (u.mfaCode.Some? <==> u.mfaCodeExpires.Some?) && (u.mfaCode.Some? ==> IsMfaCode(u.mfaCode.value))
  }

  lemma ChallengeInvariantKept(u: User, code: string, now: int, lifetime: nat)
    requires IsMfaCode(code)
    ensures ChallengeInvariant(IssueCode(u, code, now, lifetime))
    ensures ChallengeInvariant(ClearCode(u))
    ensures IssueCode(u, code, now, lifetime).(mfaCode := u.mfaCode, mfaCodeExpires := u.mfaCodeExpires) == u
    ensures ClearCode(u).(mfaCode := u.mfaCode, mfaCodeExpires := u.mfaCodeExpires) == u
  {
  }

  // ---------------------------------------------------------------- checking

  /** The outcome of the check chain of `/verify-mfa` and `/delete-account`. */
  datatype CodeCheck = NoCode | Expired | Mismatch | Accepted

  /** In this order: no stored code, the stored code expired (expiry before now:
      a code is still good at the very instant it expires), the supplied code
      differs, accepted. */
  function CheckCode(u: User, supplied: Option<string>, now: int): CodeCheck {
    if !Truthy(u.mfaCode) then NoCode
    else if u.mfaCodeExpires.None? || now > u.mfaCodeExpires.value then Expired
    else if supplied != u.mfaCode then Mismatch
    else Accepted
  }

  /** The chain of `/verify-and-enable-mfa` and `/verify-and-disable-mfa`, which
      reports a missing code as an expired one. */
  function CheckToggleCode(u: User, supplied: Option<string>, now: int): (r: CodeCheck)
    ensures r != NoCode
  {
    match CheckCode(u, supplied, now)
    case NoCode => Expired
    case other => other
  }

  /** The one condition for acceptance, in both directions. */
  lemma AcceptedIff(u: User, supplied: Option<string>, now: int)
    ensures CheckCode(u, supplied, now) == Accepted <==>
      Truthy(u.mfaCode) && u.mfaCodeExpires.Some? && now <= u.mfaCodeExpires.value && supplied == u.mfaCode
    ensures CheckToggleCode(u, supplied, now) == Accepted <==> CheckCode(u, supplied, now) == Accepted
  {
  }

  /** A freshly issued code is accepted exactly until its lifetime has passed
      (inclusive) and only when it is the code supplied; once accepted and cleared,
      nothing is accepted any more. */
  lemma IssuedCodeLifecycle(u: User, code: string, issued: int, lifetime: nat, supplied: Option<string>, now: int)
    requires IsMfaCode(code)
    ensures CheckCode(IssueCode(u, code, issued, lifetime), supplied, now) == Accepted <==>
      now <= issued + lifetime && supplied == Some(code)
    ensures CheckCode(ClearCode(IssueCode(u, code, issued, lifetime)), supplied, now) == NoCode
  {
  }

  /** After a new code was issued, an earlier one is accepted only if the random draw
      happened to repeat it. */
  lemma ReissueSupersedes(u: User, previous: string, reissued: string, now: int, later: int)
    requires IsMfaCode(reissued)
    ensures CheckCode(IssueCode(u, reissued, now, CODE_LIFETIME), Some(previous), later) == Accepted ==> previous == reissued
  {
  }

  /** `/verify`'s condition on the older MFA routes: the stored code equals the
      supplied one and its expiry is strictly later than now. */
  predicate StrictlyValid(u: User, code: string, now: int) {
    u.mfaCode == Some(code) && u.mfaCodeExpires.Some? && u.mfaCodeExpires.value > now
  }

  /** The two checks agree except at the instant of expiry, which only the newer
      routes accept. */
  lemma StrictAndInclusiveChecks(u: User, code: string, now: int)
    requires ChallengeInvariant(u)
    ensures StrictlyValid(u, code, now) ==> CheckCode(u, Some(code), now) == Accepted
    ensures CheckCode(u, Some(code), now) == Accepted && !StrictlyValid(u, code, now) ==>
      u.mfaCodeExpires == Some(now)
  {
  }

  /** The boundary instant itself: a code issued at `issued` is accepted by the newer
      check and refused by the strict one at `issued + lifetime`. */
  lemma BoundaryDisagreement(u: User, code: string, issued: int, lifetime: nat)
    requires IsMfaCode(code)
    ensures CheckCode(IssueCode(u, code, issued, lifetime), Some(code), issued + lifetime) == Accepted
    ensures !StrictlyValid(IssueCode(u, code, issued, lifetime), code, issued + lifetime)
  {
  }
}
