/**
 * End-to-end consequences that cross components: what the HTTP boundary
 * answers for the service failures, and how a federated sign-in turns into
 * an authenticated request.
 */
module Flows {
  import opened Wrappers
  import opened Entity
  import opened Exceptions
  import opened Directory
  import opened TokenCodec
  import opened Jwt
  import opened Passwords
  import opened AuthDto
  import opened AuthService
  import opened ExceptionHandler
  import opened AuthFilter
  import opened OAuth2
  import opened SuccessHandler

  /** A duplicate signup email is a 400, not a 409 or a 404. */
  lemma DuplicateSignupIs400(d: Directory, enc: PasswordEncoder, email: string, password: string, name: string, now: nat)
    requires ExistsByEmail(d, email)
    ensures Handle(Signup(d, enc, email, password, name, now).error) == Response(400, ErrorMessage(Literal(DuplicateEmailMessage)))
  {
  }

  /** A failed login is a 401 with the fixed text, whether the email is
      unknown or the password wrong. */
  lemma FailedLoginIs401(cfg: JwtConfig, d: Directory, enc: PasswordEncoder, email: string, password: string, now: nat)
    requires Valid(d)
    requires Login(cfg, d, enc, email, password, now).Failure?
    ensures Handle(Login(cfg, d, enc, email, password, now).error) == Response(401, ErrorMessage(Literal(BadCredentialsMessage)))
  {
  }

  /** A live token whose user is gone is refused with a 400, not a 404. */
  lemma RefreshForMissingUserIs400(cfg: JwtConfig, d: Directory, subject: string, ttl: nat, issued: nat, now: nat)
    requires Valid(d) && !ExistsByEmail(d, subject)
    requires now <= Seconds(issued + ttl) * 1000
    ensures var t := CreateToken(cfg, subject, ttl, issued);
      && Refresh(cfg, d, t, now).Failure?
      && Handle(Refresh(cfg, d, t, now).error) == Response(400, ErrorMessage(Literal(UserNotFoundMessage)))
  {
    ExtractCreated(cfg, subject, ttl, issued, now);
  }

  /** A blank-or-short password is reported once, with the message of the
      constraint checked last. */
  lemma {:induction false} ShortPasswordReport(email: Option<string>, p: string, name: Option<string>, wellFormed: string -> bool)
    requires NotBlank(Some(p)) && Utf16Length(p) < 6
    ensures var fields := FieldMap(SignupViolations(SignupRequest(email, Some(p), name), wellFormed));
      && "password" in fields
      && fields["password"] == "Password must be at least 6 characters"
  {
    var req := SignupRequest(email, Some(p), name);
    var v := SignupViolations(req, wellFormed);
    var e1 := Check("email", NotBlank(req.email), "Email is required")
      + Check("email", EmailFormat(req.email, wellFormed), "Invalid email format");
    var size := FieldError("password", "Password must be at least 6 characters");
    var tail := Check("name", NotBlank(req.name), "Name is required");
    assert NotBlank(req.password) && !MinSize6(req.password);
    assert v == e1 + [] + [size] + tail;
    var i := |e1|;
    assert v[i] == size;
    forall j | i < j < |v| ensures v[j].field != "password" {
      assert v[j] in tail;
    }
    FieldMapLastWins(v, i);
  }

  /** A live access token in a bearer header signs an anonymous request
      in as the account the directory holds for the token's subject. */
  lemma {:induction false} BearerAccessTokenSignsIn(cfg: JwtConfig, dir: Directory, u: User, t: nat, now: nat)
    requires FindByEmail(dir, u.email).Found?
    requires now <= Seconds(t + cfg.expiration) * 1000
    ensures DoFilterInternal(cfg, Some(BearerPrefix + GenerateToken(cfg, u, t)), SecurityContext(None), dir, now).context
         == SecurityContext(Some(Grant(FindByEmail(dir, u.email).user)))
  {
    var token := GenerateToken(cfg, u, t);
    var header := Some(BearerPrefix + token);
    BearerOf(token);
    CreatedClaims(cfg, u.email, cfg.expiration, t);
    var c := Verify(cfg.signer, token).value;
    assert !Expired(c, now);
    assert Identifies(cfg, header, dir, now, FindByEmail(dir, u.email).user);
  }

  /** After a federated sign-in the directory holds exactly one account
      with the principal's email, and it is the principal's row. */
  lemma {:induction false} PrincipalRowFound(d: Directory, registrationId: string, attrs: Attributes, t: nat)
    requires Valid(d)
    requires LoadUser(d, registrationId, attrs, t).Success?
    ensures var res := LoadUser(d, registrationId, attrs, t).value;
      && FindByEmail(res.dir, res.principal.email).Found?
      && FindByEmail(res.dir, res.principal.email).user.id == res.principal.id
  {
    var res := LoadUser(d, registrationId, attrs, t).value;
    var info := UserInfoFor(registrationId, attrs).value;
    var k: nat;
    if exists i :: 0 <= i < |d.rows| && RenamedInPlace(d, res, i) {
      k :| 0 <= k < |d.rows| && RenamedInPlace(d, res, k);
    } else {
      assert CreatedFor(d, res, Email(info).value.value);
      k := |d.rows|;
    }
    assert res.dir.rows[k].email == res.principal.email && res.dir.rows[k].id == res.principal.id;
    FindByEmailUnique(res.dir, res.principal.email);
    var found := FindByEmail(res.dir, res.principal.email);
    assert found.Found?;
    assert found.index == k;
  }

  /** A federated sign-in yields an access token that, presented as a
      bearer header while live, signs the request in as the principal's
      account. */
  lemma {:induction false} FederatedSignInAuthenticates(cfg: JwtConfig, d: Directory, registrationId: string, attrs: Attributes, t: nat, now: nat)
    requires Valid(d)
    requires LoadUser(d, registrationId, attrs, t).Success?
    requires now <= Seconds(t + cfg.expiration) * 1000
    ensures var res := LoadUser(d, registrationId, attrs, t).value;
      var token := OnAuthenticationSuccess(cfg, res.principal, t).query[0].1;
      var after := DoFilterInternal(cfg, Some(BearerPrefix + token), SecurityContext(None), res.dir, now);
      && after.context.authentication.Some?
      && after.context.authentication.value.principal.email == res.principal.email
      && after.context.authentication.value.principal.id == res.principal.id
  {
    var res := LoadUser(d, registrationId, attrs, t).value;
    PrincipalRowFound(d, registrationId, attrs, t);
    BearerAccessTokenSignsIn(cfg, res.dir, res.principal, t, now);
  }
}
