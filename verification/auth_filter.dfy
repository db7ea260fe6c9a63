/**
 * `JwtAuthenticationFilter.doFilterInternal` as a function from the
 * request's Authorization header, the request's security context, the user
 * directory and the clock to the context the rest of the chain sees.
 */
module AuthFilter {
  import opened Wrappers
  import opened Entity
  import opened Exceptions
  import opened Directory
  import opened TokenCodec
  import opened Jwt
  import opened UserDetails

  /** A `UsernamePasswordAuthenticationToken` built from a principal. */
  datatype Authentication = Authentication(principal: User, credentials: Option<string>, authorities: seq<string>)

  /** The request's security context: empty, or holding an authentication. */
  datatype SecurityContext = SecurityContext(authentication: Option<Authentication>)

  /** The context after the filter, and how often it passed the request on. */
  datatype FilterResult = FilterResult(context: SecurityContext, chainCalls: nat)

  const BearerPrefix: string := "Bearer "

  /** The token of an `Authorization` header that starts with exactly
      "Bearer " (case-sensitive): the header minus its first seven characters. */
  function BearerToken(header: Option<string>): (r: Option<string>)
    ensures r.Some? <==> header.Some? && |header.value| >= 7 && header.value[..7] == BearerPrefix
    ensures r.Some? ==> header.value == BearerPrefix + r.value
  {
    match header
    case None => None
    case Some(h) => if |h| >= |BearerPrefix| && h[..|BearerPrefix|] == BearerPrefix then Some(h[7..]) else None
  }

  /** Prefixing a token with "Bearer " is undone by `BearerToken`. */
  lemma BearerOf(token: string)
    ensures BearerToken(Some(BearerPrefix + token)) == Some(token)
  {
    assert (BearerPrefix + token)[..7] == BearerPrefix;
  }

  /** The authentication the filter installs: the user, null credentials,
      the user's authorities. */
  function Grant(u: User): Authentication {
    Authentication(u, None, Authorities(u))
  }

  /**
   * Reference condition under which a bearer token identifies user `u`: it
   * is signed under the configured key, not expired at `now`, its subject is
   * `u`'s email, and `u` is the row the directory finds for that email.
   */
  ghost predicate IdentifiesToken(cfg: JwtConfig, jwt: string, d: Directory, now: nat, u: User) {
    && Verify(cfg.signer, jwt).Some?
    && !Expired(Verify(cfg.signer, jwt).value, now)
    && Verify(cfg.signer, jwt).value.subject == Some(u.email)
    && FindByEmail(d, u.email).Found?
    && FindByEmail(d, u.email).user == u
  }

  /** The header identifies `u` when it carries a bearer token that does. */
  ghost predicate Identifies(cfg: JwtConfig, header: Option<string>, d: Directory, now: nat, u: User) {
    BearerToken(header).Some? && IdentifiesToken(cfg, BearerToken(header).value, d, now, u)
  }

  /**
   * The guarded block's steps on a token: its subject, the row loaded for
   * that subject, and validation against the row. Any failure yields no
   * user, as the block's catch-all swallows it.
   */
  function TokenUser(cfg: JwtConfig, jwt: string, d: Directory, now: nat): (r: Option<User>)
    ensures r.Some? ==> IdentifiesToken(cfg, jwt, d, now, r.value)
    ensures forall u :: IdentifiesToken(cfg, jwt, d, now, u) ==> r == Some(u)
  {
    match ExtractUsername(cfg, jwt, now)
    case Failure(_) => None
    case Success(userEmail) =>
      if userEmail.None? then None
      else
        match LoadUserByUsername(d, userEmail.value)
        case Failure(_) => None
        case Success(user) =>
          match ValidateToken(cfg, jwt, user, now)
          case Success(true) => Some(user)
          case _ => None
  }

  /**
   * `doFilterInternal`. Every failure inside the guarded block (a refused
   * token, an unknown user) is swallowed: the context stays as it was and
   * the request goes on. The chain is invoked once on every path. The
   * source parses the token before it looks at the context; as a failed
   * parse leaves the context alone too, the context is consulted first here.
   */
  function DoFilterInternal(cfg: JwtConfig, header: Option<string>, ctx: SecurityContext, d: Directory, now: nat): (r: FilterResult)
    ensures r.chainCalls == 1
    ensures ctx.authentication.Some? ==> r.context == ctx
    ensures BearerToken(header).None? ==> r.context == ctx
    ensures r.context != ctx ==>
      && ctx.authentication.None?
      && r.context.authentication.Some?
      && r.context.authentication.value.credentials.None?
      && r.context.authentication.value.authorities == Authorities(r.context.authentication.value.principal)
      && Identifies(cfg, header, d, now, r.context.authentication.value.principal)
    ensures forall u :: ctx.authentication.None? && Identifies(cfg, header, d, now, u) ==>
      r.context == SecurityContext(Some(Grant(u)))
  {
    match BearerToken(header)
    case None => FilterResult(ctx, 1)
    case Some(jwt) =>
      var next :=
        if ctx.authentication.Some? then ctx
        else
          match TokenUser(cfg, jwt, d, now)
          case None => ctx
          case Some(user) => SecurityContext(Some(Grant(user)));
      FilterResult(next, 1)
  }
}
