/**
 * `JwtUtil`: issuing, reading and validating the bearer tokens. The clock is
 * the parameter `now` (milliseconds); the configured key and lifetimes are a
 * `JwtConfig`. Token dates are NumericDate seconds, as the JWT library writes
 * them: a `Date` in milliseconds is truncated to whole seconds on the way in
 * and multiplied back on the way out.
 */
module Jwt {
  import opened Wrappers
  import opened Entity
  import opened Exceptions
  import opened TokenCodec

  /** `jwt.secret` (through the signer), `jwt.expiration` and
      `jwt.refresh-expiration`, both in milliseconds. */
  datatype JwtConfig = JwtConfig(signer: Signer, expiration: nat, refreshExpiration: nat)

  /** A millisecond instant as a NumericDate. */
  function Seconds(ms: nat): nat {
    ms / 1000
  }

  /** `getExpiration().before(now)`: strictly earlier, so a token whose
      expiry instant is exactly `now` still counts as live. */
  predicate Expired(c: Claims, now: nat) {
    c.expiration * 1000 < now
  }

  /** `createToken`: no extra claims, the subject, issued now, expiring
      `ttl` milliseconds later, signed with the configured key. */
  function CreateToken(cfg: JwtConfig, subject: string, ttl: nat, now: nat): string {
    Sign(cfg.signer, Claims(Some(subject), Seconds(now), Seconds(now + ttl)))
  }

  /** A created token verifies under the configured key to exactly the
      claims it was created with. */
  lemma CreatedClaims(cfg: JwtConfig, subject: string, ttl: nat, now: nat)
    ensures Verify(cfg.signer, CreateToken(cfg, subject, ttl, now))
         == Some(Claims(Some(subject), Seconds(now), Seconds(now + ttl)))
  {
    VerifySign(cfg.signer, Claims(Some(subject), Seconds(now), Seconds(now + ttl)));
  }

  /** `generateToken`: an access token for the user's username (email). */
  function GenerateToken(cfg: JwtConfig, u: User, now: nat): string {
    CreateToken(cfg, Username(u), cfg.expiration, now)
  }

  /** `generateRefreshToken`: the same, with the refresh lifetime. */
  function GenerateRefreshToken(cfg: JwtConfig, u: User, now: nat): string {
    CreateToken(cfg, Username(u), cfg.refreshExpiration, now)
  }

  /** An access token carries the username as subject, the issue second,
      and an expiry one access lifetime later. */
  lemma AccessTokenClaims(cfg: JwtConfig, u: User, now: nat)
    ensures Verify(cfg.signer, GenerateToken(cfg, u, now))
         == Some(Claims(Some(Username(u)), Seconds(now), Seconds(now + cfg.expiration)))
  {
    var c := Claims(Some(Username(u)), Seconds(now), Seconds(now + cfg.expiration));
    assert GenerateToken(cfg, u, now) == Sign(cfg.signer, c);
    VerifySign(cfg.signer, c);
  }

  /** A refresh token carries the same subject and issue second, and an
      expiry one refresh lifetime later. */
  lemma RefreshTokenClaims(cfg: JwtConfig, u: User, now: nat)
    ensures Verify(cfg.signer, GenerateRefreshToken(cfg, u, now))
         == Some(Claims(Some(Username(u)), Seconds(now), Seconds(now + cfg.refreshExpiration)))
  {
    var c := Claims(Some(Username(u)), Seconds(now), Seconds(now + cfg.refreshExpiration));
    assert GenerateRefreshToken(cfg, u, now) == Sign(cfg.signer, c);
    VerifySign(cfg.signer, c);
  }

  /**
   * `extractAllClaims`: the library parser. It rejects a string that is not
   * a token, then one whose signature does not verify under the configured
   * key, then (with zero clock skew) one whose expiry is strictly before now.
   */
  function ExtractAllClaims(cfg: JwtConfig, t: string, now: nat): (r: Result<Claims, Exc>)
    ensures r.Success? <==> Verify(cfg.signer, t).Some? && !Expired(Verify(cfg.signer, t).value, now)
    ensures r.Success? ==> t == Sign(cfg.signer, r.value)
    ensures r.Failure? ==> r.error in {LibraryFault(MalformedJwt), LibraryFault(InvalidSignature), LibraryFault(ExpiredJwt)}
  {
    match DecodeClaims(t)
    case None => Failure(LibraryFault(MalformedJwt))
    case Some(c) =>
      if t != Sign(cfg.signer, c) then Failure(LibraryFault(InvalidSignature))
      else if Expired(c, now) then Failure(LibraryFault(ExpiredJwt))
      else Success(c)
  }

  /** `extractUsername`: the "sub" claim of a token the parser accepts. */
  function ExtractUsername(cfg: JwtConfig, t: string, now: nat): (r: Result<Option<string>, Exc>)
    ensures r.Success? <==> ExtractAllClaims(cfg, t, now).Success?
    ensures r.Success? ==> exists c :: t == Sign(cfg.signer, c) && c.subject == r.value && !Expired(c, now)
  {
    var c :- ExtractAllClaims(cfg, t, now);
    Success(c.subject)
  }

  /** `isTokenExpired`. The parser has already refused an expired token, so
      whenever this returns it returns false. */
  function IsTokenExpired(cfg: JwtConfig, t: string, now: nat): (r: Result<bool, Exc>)
    ensures r.Failure? <==> ExtractAllClaims(cfg, t, now).Failure?
    ensures r.Success? ==> r.value == false
  {
    var c :- ExtractAllClaims(cfg, t, now);
    Success(Expired(c, now))
  }

  /**
   * `validateToken`: the token's subject must `equals` the username
   * (case-sensitive) and the token must not be expired. A token the parser
   * refuses, or one without a subject, makes it throw instead of answering.
   */
  function ValidateToken(cfg: JwtConfig, t: string, u: User, now: nat): (r: Result<bool, Exc>)
    ensures r.Failure? <==> ExtractUsername(cfg, t, now).Failure? || ExtractUsername(cfg, t, now).value.None?
    ensures r == Success(true) <==> ExtractUsername(cfg, t, now) == Success(Some(u.email))
  {
    var subject :- ExtractUsername(cfg, t, now);
    if subject.None? then Failure(LibraryFault(NullPointer))
    else if subject.value != Username(u) then Success(false)
    else
      match IsTokenExpired(cfg, t, now)
      case Failure(e) => Failure(e)
      case Success(expired) => Success(!expired)
  }

  /** Round trip: a token issued at `issued` with lifetime `ttl` is accepted
      exactly until its expiry second, and then names its subject. */
  lemma ExtractCreated(cfg: JwtConfig, subject: string, ttl: nat, issued: nat, now: nat)
    ensures ExtractUsername(cfg, CreateToken(cfg, subject, ttl, issued), now).Success?
        <==> now <= Seconds(issued + ttl) * 1000
    ensures now <= Seconds(issued + ttl) * 1000 ==>
      ExtractUsername(cfg, CreateToken(cfg, subject, ttl, issued), now) == Success(Some(subject))
  {
    CreatedClaims(cfg, subject, ttl, issued);
  }

  /** The boundary: a genuine token whose expiry instant is exactly `now`
      is still parsed, and `isTokenExpired` answers false for it. */
  lemma ExpiryBoundaryAccepted(cfg: JwtConfig, t: string, c: Claims, now: nat)
    requires Verify(cfg.signer, t) == Some(c)
    requires c.expiration * 1000 == now
    ensures ExtractAllClaims(cfg, t, now) == Success(c)
    ensures IsTokenExpired(cfg, t, now) == Success(false)
  {
  }

  /** Because dates are whole seconds, a token is accepted through the
      last full second of its lifetime and refused after its nominal end. */
  lemma {:induction false} LifetimeWindow(cfg: JwtConfig, subject: string, ttl: nat, issued: nat, now: nat)
    ensures now + 999 <= issued + ttl ==> ExtractUsername(cfg, CreateToken(cfg, subject, ttl, issued), now).Success?
    ensures now > issued + ttl ==> ExtractUsername(cfg, CreateToken(cfg, subject, ttl, issued), now).Failure?
  {
    ExtractCreated(cfg, subject, ttl, issued, now);
    var e := issued + ttl;
    assert e - 999 <= Seconds(e) * 1000 <= e;
  }

  /** Access and refresh tokens carry no kind: issued with the same dates
      they are the same string. */
  lemma {:induction false} TokenKindsIndistinguishable(cfg: JwtConfig, u: User, nowA: nat, nowR: nat)
    requires Seconds(nowA) == Seconds(nowR)
    requires Seconds(nowA + cfg.expiration) == Seconds(nowR + cfg.refreshExpiration)
    ensures GenerateToken(cfg, u, nowA) == GenerateRefreshToken(cfg, u, nowR)
  {
  }

  /** A token issued for a user validates against that user while live, and
      against no user with another email. */
  lemma ValidateGenerated(cfg: JwtConfig, u: User, v: User, issued: nat, now: nat)
    requires now <= Seconds(issued + cfg.expiration) * 1000
    ensures ValidateToken(cfg, GenerateToken(cfg, u, issued), u, now) == Success(true)
    ensures v.email != u.email ==> ValidateToken(cfg, GenerateToken(cfg, u, issued), v, now) == Success(false)
  {
    ExtractCreated(cfg, u.email, cfg.expiration, issued, now);
  }
}
