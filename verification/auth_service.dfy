/**
 * `AuthService`: local signup, password login and access-token refresh.
 * The directory is passed in and, for signup, handed back; the clock is
 * `now` in milliseconds.
 */
module AuthService {
  import opened Wrappers
  import opened Entity
  import opened Exceptions
  import opened Directory
  import opened TokenCodec
  import opened Jwt
  import opened Passwords
  import opened UserDetails
  import opened AuthDto

  const DuplicateEmailMessage: string := "이미 등록된 이메일 입니다."
  const SignupSuccessMessage: string := "회원 가입 성공!"
  const UserNotFoundMessage: string := "해당 회원을 찾을 수 없습니다."
  const InvalidRefreshTokenMessage: string := "잘못된 리프레시 토큰입니다."

  datatype SignupOutcome = SignupOutcome(dir: Directory, response: MessageResponse)

  /**
   * `signup` for a request that passed validation. A taken email is refused
   * before anything is written; otherwise one LOCAL account with role USER
   * and the encoded password is appended.
   */
  function Signup(d: Directory, enc: PasswordEncoder, email: string, password: string, name: string, now: nat): (r: Result<SignupOutcome, Exc>)
    ensures r.Failure? <==> ExistsByEmail(d, email)
    ensures r.Failure? ==> r.error == Runtime(Plain, Literal(DuplicateEmailMessage))
    ensures r.Success? ==>
      && r.value.response == MessageResponse(SignupSuccessMessage)
      && |r.value.dir.rows| == |d.rows| + 1
      && r.value.dir.rows[..|d.rows|] == d.rows
      && var u := r.value.dir.rows[|d.rows|];
      && u.email == email && u.name == name && u.id == d.nextId
      && u.role == USER && u.provider == LOCAL && u.providerId.None?
      && Matches(enc, password, u.password)
    ensures r.Success? && Valid(d) ==> Valid(r.value.dir)
  {
    if ExistsByEmail(d, email) then Failure(Runtime(Plain, Literal(DuplicateEmailMessage)))
    else
      match Insert(d, NewUser(email, Encode(enc, password), name, USER, LOCAL, None), now)
      case Failure(e) => Failure(e)
      case Success(s) =>
        assert s.dir.rows[..|d.rows|] == d.rows;
        Success(SignupOutcome(s.dir, MessageResponse(SignupSuccessMessage)))
  }

  /**
   * `authenticationManager.authenticate` with the DAO provider: load by
   * email, then compare passwords. An unknown email is reported as bad
   * credentials, exactly like a wrong password; the four status flags are
   * always true, so no status check refuses.
   */
  function Authenticate(d: Directory, enc: PasswordEncoder, email: string, password: string): (r: Result<User, Exc>)
    ensures r.Success? ==>
      r.value.email == email && Matches(enc, password, r.value.password)
      && exists i :: 0 <= i < |d.rows| && d.rows[i] == r.value
    ensures r.Failure? ==> !r.error.UsernameNotFound?
    ensures Valid(d) ==>
      (r.Success? <==> exists i :: 0 <= i < |d.rows| && d.rows[i].email == email && Matches(enc, password, d.rows[i].password))
    ensures Valid(d) && r.Failure? ==> r.error == BadCredentials
  {
    match LoadUserByUsername(d, email)
    case Failure(e) => if e.UsernameNotFound? then Failure(BadCredentials) else Failure(e)
    case Success(u) => if Matches(enc, password, u.password) then Success(u) else Failure(BadCredentials)
  }

  /** `login`: on success, an access and a refresh token for the user. */
  function Login(cfg: JwtConfig, d: Directory, enc: PasswordEncoder, email: string, password: string, now: nat): (r: Result<AuthResponse, Exc>)
    ensures r.Success? <==> Authenticate(d, enc, email, password).Success?
    ensures r.Failure? ==> r.error == Authenticate(d, enc, email, password).error
    ensures r.Success? ==>
      var u := Authenticate(d, enc, email, password).value;
      && r.value.token == Some(GenerateToken(cfg, u, now))
      && r.value.refreshToken == Some(GenerateRefreshToken(cfg, u, now))
      && r.value.tokenType.None?
      && r.value.email == Some(email) && r.value.name == Some(u.name) && r.value.role == Some(RoleName(u.role))
  {
    var user :- Authenticate(d, enc, email, password);
    Success(BuildAuthResponse(GenerateToken(cfg, user, now), GenerateRefreshToken(cfg, user, now), user.email, user.name, RoleName(user.role)))
  }

  /**
   * `refreshToken`: read the email out of the presented token, find the
   * user, validate, and issue a new access token. The presented token is
   * handed back as the refresh token: it is never rotated.
   */
  function Refresh(cfg: JwtConfig, d: Directory, refreshToken: string, now: nat): (r: Result<AuthResponse, Exc>)
    ensures r.Success? <==>
      && ExtractUsername(cfg, refreshToken, now).Success?
      && ExtractUsername(cfg, refreshToken, now).value.Some?
      && FindByEmail(d, ExtractUsername(cfg, refreshToken, now).value.value).Found?
    ensures r.Success? ==>
      var u := FindByEmail(d, ExtractUsername(cfg, refreshToken, now).value.value).user;
      && r.value.refreshToken == Some(refreshToken)
      && r.value.token == Some(GenerateToken(cfg, u, now))
      && r.value.email == ExtractUsername(cfg, refreshToken, now).value
      && r.value.name == Some(u.name) && r.value.role == Some(RoleName(u.role))
      && r.value.tokenType.None?
    ensures r.Failure? ==> r.error != Runtime(Plain, Literal(InvalidRefreshTokenMessage))
    ensures r.Failure? && ExtractUsername(cfg, refreshToken, now).Success? && Valid(d) ==>
      r.error == Runtime(Plain, Literal(UserNotFoundMessage))
  {
    var email :- ExtractUsername(cfg, refreshToken, now);
    var found := if email.None? then NotFound else FindByEmail(d, email.value);
    match found
    case NotFound => Failure(Runtime(Plain, Literal(UserNotFoundMessage)))
    case NonUnique => Failure(LibraryFault(IncorrectResultSize))
    case Found(_, user) =>
      match ValidateToken(cfg, refreshToken, user, now)
      case Failure(e) => Failure(e)
      case Success(valid) =>
        if valid then
          Success(BuildAuthResponse(GenerateToken(cfg, user, now), refreshToken, user.email, user.name, RoleName(user.role)))
        else
          Failure(Runtime(Plain, Literal(InvalidRefreshTokenMessage)))
  }

  /** A freshly signed-up account can log in with the password it chose. */
  lemma SignupThenLogin(cfg: JwtConfig, d: Directory, enc: PasswordEncoder, email: string, password: string, name: string, t0: nat, now: nat)
    requires Valid(d)
    requires Signup(d, enc, email, password, name, t0).Success?
    ensures Login(cfg, Signup(d, enc, email, password, name, t0).value.dir, enc, email, password, now).Success?
  {
    var d' := Signup(d, enc, email, password, name, t0).value.dir;
    assert d'.rows[|d.rows|].email == email;
  }

  /** A federated account has an empty password and never logs in with one. */
  lemma FederatedAccountNoPasswordLogin(d: Directory, enc: PasswordEncoder, i: nat, password: string)
    requires Valid(d) && i < |d.rows| && d.rows[i].password == ""
    ensures Authenticate(d, enc, d.rows[i].email, password) == Failure(BadCredentials)
  {
    MatchesEncoded(enc, password);
  }

  /** The refresh token from a login refreshes while it is live, hands
      itself back, and yields a new access token for the same user. */
  lemma {:induction false} LoginThenRefresh(cfg: JwtConfig, d: Directory, enc: PasswordEncoder, email: string, password: string, t0: nat, now: nat)
    requires Valid(d)
    requires Login(cfg, d, enc, email, password, t0).Success?
    requires now <= Seconds(t0 + cfg.refreshExpiration) * 1000
    ensures var rt := Login(cfg, d, enc, email, password, t0).value.refreshToken.value;
      && Refresh(cfg, d, rt, now).Success?
      && Refresh(cfg, d, rt, now).value.refreshToken == Some(rt)
      && Refresh(cfg, d, rt, now).value.token == Some(GenerateToken(cfg, Authenticate(d, enc, email, password).value, now))
  {
    var u := Authenticate(d, enc, email, password).value;
    assert u.email == email;
    FindByEmailUnique(d, email);
    var i :| 0 <= i < |d.rows| && d.rows[i] == u;
    assert FindByEmail(d, email).user == u;
    RefreshLiveToken(cfg, d, u, cfg.refreshExpiration, t0, now);
    var rt := Login(cfg, d, enc, email, password, t0).value.refreshToken.value;
    assert rt == CreateToken(cfg, u.email, cfg.refreshExpiration, t0);
  }

  /** A live token created for a stored account's email refreshes to an
      access token for that account and is handed back. */
  lemma RefreshLiveToken(cfg: JwtConfig, d: Directory, u: User, ttl: nat, issued: nat, now: nat)
    requires FindByEmail(d, u.email).Found? && FindByEmail(d, u.email).user == u
    requires now <= Seconds(issued + ttl) * 1000
    ensures var t := CreateToken(cfg, u.email, ttl, issued);
      && Refresh(cfg, d, t, now).Success?
      && Refresh(cfg, d, t, now).value.refreshToken == Some(t)
      && Refresh(cfg, d, t, now).value.token == Some(GenerateToken(cfg, u, now))
  {
    ExtractCreated(cfg, u.email, ttl, issued, now);
  }

  /** An ACCESS token is accepted as a refresh token too: nothing in a token
      says which kind it is. */
  lemma {:induction false} AccessTokenRefreshes(cfg: JwtConfig, d: Directory, u: User, issued: nat, now: nat)
    requires FindByEmail(d, u.email).Found? && FindByEmail(d, u.email).user == u
    requires now <= Seconds(issued + cfg.expiration) * 1000
    ensures Refresh(cfg, d, GenerateToken(cfg, u, issued), now).Success?
    ensures Refresh(cfg, d, GenerateToken(cfg, u, issued), now).value.refreshToken == Some(GenerateToken(cfg, u, issued))
  {
    ExtractCreated(cfg, u.email, cfg.expiration, issued, now);
  }
}
