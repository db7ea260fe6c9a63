/**
 * `AuthDto`: the request bodies with their Bean Validation constraints and
 * the response shapes. A JSON field that is missing or null is `None`.
 */
module AuthDto {
  import opened Wrappers
  import opened Exceptions

  datatype SignupRequest = SignupRequest(email: Option<string>, password: Option<string>, name: Option<string>)

  datatype LoginRequest = LoginRequest(email: Option<string>, password: Option<string>)

  datatype RefreshTokenRequest = RefreshTokenRequest(refreshToken: Option<string>)

  datatype MessageResponse = MessageResponse(message: string)

  /** `AuthResponse`; every field is a nullable Java `String`. */
  datatype AuthResponse = AuthResponse(
    token: Option<string>,
    refreshToken: Option<string>,
    tokenType: Option<string>,
    email: Option<string>,
    name: Option<string>,
    role: Option<string>)

  /** `AuthResponse.builder()...build()`: without `@Builder.Default` the
      builder ignores the field initializer, so `type` stays null. */
  function BuildAuthResponse(token: string, refreshToken: string, email: string, name: string, role: string): AuthResponse {
    AuthResponse(Some(token), Some(refreshToken), None, Some(email), Some(name), Some(role))
  }

  /** `new AuthResponse()`: only the initialised `type` is set. */
  function EmptyAuthResponse(): AuthResponse {
    AuthResponse(None, None, Some("Bearer"), None, None, None)
  }

  /** Whatever it is given, the builder never produces the "Bearer" type the
      class declares as its default: only the no-argument constructor does. */
  lemma BuilderDropsTypeDefault(token: string, refreshToken: string, email: string, name: string, role: string)
    ensures BuildAuthResponse(token, refreshToken, email, name, role).tokenType != EmptyAuthResponse().tokenType
    ensures EmptyAuthResponse().tokenType.Some?
  {
  }

  /** `@NotBlank`: non-null, and something is left after `trim()`, which
      strips every character up to U+0020. */
  predicate NotBlank(s: Option<string>) {
    s.Some? && exists i :: 0 <= i < |s.value| && s.value[i] > ' '
  }

  /** `@Email`: null and the empty string pass; otherwise the format check,
      which the model takes as the parameter `wellFormed`. */
  predicate EmailFormat(s: Option<string>, wellFormed: string -> bool) {
    s.None? || |s.value| == 0 || wellFormed(s.value)
  }

  /** Java's `String.length()`: UTF-16 code units, so a character outside
      the Basic Multilingual Plane counts twice. */
  function Utf16Length(s: string): (r: nat)
    ensures |s| <= r <= 2 * |s|
    ensures r == |s| <==> forall i :: 0 <= i < |s| ==> (s[i] as int) < 0x1_0000
  {
    if |s| == 0 then 0
    else (if (s[0] as int) < 0x1_0000 then 1 else 2) + Utf16Length(s[1..])
  }

  /** `@Size(min = 6)` on a `String`, measured by `length()`: null passes. */
  predicate MinSize6(s: Option<string>) {
    s.None? || Utf16Length(s.value) >= 6
  }

  /** The violations of one field, one per failed constraint. */
  function Check(field: string, ok: bool, message: string): (r: seq<FieldError>)
    ensures |r| <= 1 && (|r| == 0 <==> ok)
    ensures forall e :: e in r ==> e == FieldError(field, message)
  {
    if ok then [] else [FieldError(field, message)]
  }

  /** The signup constraints in declaration order. Bean Validation does not
      fix an order; the handler below is proved order-insensitive except
      for which message of a doubly-violated field survives. */
  function SignupViolations(req: SignupRequest, wellFormed: string -> bool): (r: seq<FieldError>)
    ensures |r| == 0 <==>
      NotBlank(req.email) && EmailFormat(req.email, wellFormed)
      && NotBlank(req.password) && MinSize6(req.password)
      && NotBlank(req.name)
    ensures forall e :: e in r ==> e.field in {"email", "password", "name"}
    ensures (exists e :: e in r && e.field == "password") <==> !(NotBlank(req.password) && MinSize6(req.password))
  {
    Check("email", NotBlank(req.email), "Email is required")
    + Check("email", EmailFormat(req.email, wellFormed), "Invalid email format")
    + Check("password", NotBlank(req.password), "Password is required")
    + Check("password", MinSize6(req.password), "Password must be at least 6 characters")
    + Check("name", NotBlank(req.name), "Name is required")
  }

  /** The login constraints: no minimum password length. */
  function LoginViolations(req: LoginRequest, wellFormed: string -> bool): (r: seq<FieldError>)
    ensures |r| == 0 <==> NotBlank(req.email) && EmailFormat(req.email, wellFormed) && NotBlank(req.password)
    ensures forall e :: e in r ==> e.field in {"email", "password"}
  {
    Check("email", NotBlank(req.email), "Email is required")
    + Check("email", EmailFormat(req.email, wellFormed), "Invalid email format")
    + Check("password", NotBlank(req.password), "Password is required")
  }

  function RefreshViolations(req: RefreshTokenRequest): (r: seq<FieldError>)
    ensures |r| == 0 <==> NotBlank(req.refreshToken)
  {
    Check("refreshToken", NotBlank(req.refreshToken), "Refresh token is required")
  }

  /** Login puts no length rule on the password: every non-blank password
      too short for signup is still a valid login. */
  lemma LoginHasNoMinimumLength(wellFormed: string -> bool, email: string, p: string, name: Option<string>)
    requires wellFormed(email) && NotBlank(Some(email))
    requires NotBlank(Some(p)) && Utf16Length(p) < 6
    ensures |LoginViolations(LoginRequest(Some(email), Some(p)), wellFormed)| == 0
    ensures |SignupViolations(SignupRequest(Some(email), Some(p), name), wellFormed)| > 0
  {
  }
}
