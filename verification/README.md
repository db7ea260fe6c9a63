# Token authentication and federation core, in Dafny

This project models the authentication core of a Spring Boot backend that signs users in three ways:
- with an email and a password;
- with Google or Naver (OAuth2 federation);
- with a bearer JSON Web Token on every later request.

It is written in Dafny and covers these parts of the backend:
- the user entity and its repository;
- the JWT utility and the per-request JWT filter;
- the authentication service (signup, login, token refresh);
- the OAuth2 user service with its Google and Naver payload readers, and the OAuth2 success handler;
- the start-up data initializer;
- the route-authorisation table of the security configuration;
- the global exception handler;
- the request and response DTOs with their validation constraints.

Everything is a pure function over immutable values. The user table is a `Directory`: a sequence of rows plus the next identity value. Every operation that writes returns the new directory. Each Java exception is a value of `Exceptions.Exc`, and each fallible operation returns a `Result`. The clock is a parameter `now` in milliseconds.

Three things are abstract parameters:
- the token key and its message-authentication function (`Signer`);
- the BCrypt hash (`PasswordEncoder`);
- the `@Email` format check.

## Modules
- `Wrappers`: `Option` and `Result`.
- `Exceptions`: the exception classes.
- `Entity`: `Role`, `AuthProvider` and `User`, with the `UserDetails`/`OAuth2User` views and the `@PrePersist`/`@PreUpdate` stamps.
- `Directory`: the table and the repository's three derived queries.
  - A single-result query that matches several rows is `NonUnique`. Spring Data throws `IncorrectResultSizeDataAccessException` in that case.
  - `Insert` models `save` of a new entity. It fails on the unique email column.
  - `Update` models `save` of a loaded entity. It leaves the creation time alone and stamps only a changed row.
- `Decimal` and `TokenCodec`: a symbolic signed token.
  - It carries the "sub", "iat" and "exp" claims of section 4.1 of RFC 7519, with NumericDate seconds.
  - The decoder is proved to invert the encoder.
- `Jwt`: `JwtUtil`.
  - Dates are truncated to whole seconds, as the JWT library does.
  - The library parser refuses a malformed token, a bad signature, and an expiry strictly before `now`, in that order.
- `Passwords`: the BCrypt encoder.
- `UserDetails`: `CustomUserDetailsService`.
- `AuthFilter`: `JwtAuthenticationFilter`.
  - It is a function from (Authorization header, security context, directory, now) to the new context and the number of chain calls.
  - The bearer scheme is section 2.1 of RFC 6750, matched case-sensitively as the code does.
  - The existing context is consulted before the token is parsed. The source parses first, but every parse failure also leaves the context as it was, so the result is the same.
- `AuthDto`: the request records, their constraints as violation lists, and the response shapes.
- `AuthService`: signup, login (the DAO authentication provider included) and refresh.
- `OAuth2`: the attribute map as JSON values, the two payload readers, the registration dispatch and `loadUser`.
- `SuccessHandler`: token issuance and the redirect target after a federated sign-in.
- `DataInitializer`: the seeding of the demo administrator and the demo user.
- `RouteRules`: the ordered `authorizeHttpRequests` table. It is proved equal to a direct statement of the access policy.
- `ExceptionHandler`: exception to (status, body).
- `Flows`: lemmas that cross components. They cover the HTTP answer to service failures and the path from a federated sign-in to an authenticated request.

## Consequences proved
- **Expiry boundary.** The expiry instant itself is still accepted.
- **Seconds truncation.** Because dates are whole seconds, a token is refused only after the last full second of its lifetime (`Jwt.LifetimeWindow`).
- **Refresh.** Refresh never rotates the refresh token, and it accepts an access token as well (`AuthService.AccessTokenRefreshes`).
- **Expired tokens fail; they never return false.** At a single clock reading, the library parser refuses an expired token before `isTokenExpired` can look at it. So `validateToken` fails on such a token rather than answering false, and the refresh branch that answers "잘못된 리프레시 토큰입니다." is not taken (see `AuthService.Refresh`). The source reads the clock more than once, so a token that expires between two of those reads can still reach that branch.
- **Federated accounts.**
  - They are keyed by (provider, provider id). Find-before-create keeps that pair unique, although the schema does not enforce it.
  - A known account keeps its stored email and only takes the provider's current name.
  - A first sign-in whose email is already taken fails on the unique column; there is no linking by email.
- **Response type field.** `AuthResponse` built through its builder has a null `type`. The `"Bearer"` initializer applies only to the no-argument constructor.
- **Redirect address.** The redirect base constant literally begins with the doubled scheme "http://http://". The model stops at the string handed to the URI builder.

## Model

| member | source | states |
|---|---|---|
| Entity.RoleAuthority | src/main/java/com/gyojincompany/home/entity/User.java:71-75 | a caller holds exactly one authority: "ROLE_ADMIN" iff an administrator, "ROLE_USER" iff a user |
| Entity.OnUpdate | src/main/java/com/gyojincompany/home/entity/User.java:66-69 | only the modification time changes |
| Directory.Select | src/main/java/com/gyojincompany/home/repository/UserRepository.java:14-16 | no row iff nothing matches; a found row matches and is the only match; several matches are reported as such |
| Directory.FindByEmail | src/main/java/com/gyojincompany/home/repository/UserRepository.java:14 | a found row has the queried email; nothing is found iff no row has it |
| Directory.ExistsByEmail | src/main/java/com/gyojincompany/home/repository/UserRepository.java:15 | true iff findByEmail finds at least one row |
| Directory.FindByProviderAndProviderId | src/main/java/com/gyojincompany/home/repository/UserRepository.java:16 | a found row matches provider and provider id (null as IS NULL); nothing is found iff no row matches both |
| Directory.FindByEmailUnique | src/main/java/com/gyojincompany/home/entity/User.java:36-37 | with the unique email column a lookup by email is never ambiguous |
| Directory.FindFederatedUnique | src/main/java/com/gyojincompany/home/repository/UserRepository.java:16 | while federated ids are unique, the federated lookup is never ambiguous |
| Directory.Insert | src/main/java/com/gyojincompany/home/entity/User.java:36-64 | fails iff the email is taken, writing nothing; else appends a row with the builder's columns, the next id, and creation and modification times both now; keeps the table valid |
| Directory.Update | src/main/java/com/gyojincompany/home/entity/User.java:54-69 | an entity differing from the stored row at most in the creation time writes nothing; a dirty one fails iff another row holds its email, else replaces only its row, keeps the creation time and stamps the modification time now |
| Directory.ModificationTimeIsDirtyChecked | src/main/java/com/gyojincompany/home/entity/User.java:57-69 | changing only the modification time is written, and the stored row is stamped with the current time |
| UserDetails.LoadUserByUsername | src/main/java/com/gyojincompany/home/security/CustomUserDetailsService.java:26-29 | returns a stored row whose username is the queried email; UsernameNotFound, with the email in its message, iff no row has it |
| UserDetails.LoadsOwnRow | src/main/java/com/gyojincompany/home/entity/User.java:77-80 | on a valid table, loading by a stored account's own username returns exactly that account |
| Passwords.MatchesEncoded | src/main/java/com/gyojincompany/home/config/SecurityConfig.java:88-91 | an encoded password matches its raw password; the empty stored password matches nothing |
| TokenCodec.Verify | src/main/java/com/gyojincompany/home/security/JwtUtil.java:57-62 | any claims returned are exactly those the string is the signed form of |
| TokenCodec.DecodeEncode | src/main/java/com/gyojincompany/home/security/JwtUtil.java:83-90 | the claims decoder inverts the encoder, whatever follows the payload |
| TokenCodec.VerifySign | src/main/java/com/gyojincompany/home/security/JwtUtil.java:83-90 | verifying a signed token under its key yields its claims |
| Jwt.CreatedClaims | src/main/java/com/gyojincompany/home/security/JwtUtil.java:83-91 | a created token verifies to its subject, issue second and expiry second |
| Jwt.AccessTokenClaims | src/main/java/com/gyojincompany/home/security/JwtUtil.java:70-74 | an access token carries the username and the issue second, and expires one access lifetime after issue |
| Jwt.RefreshTokenClaims | src/main/java/com/gyojincompany/home/security/JwtUtil.java:76-81 | a refresh token carries the username and the issue second, and expires one refresh lifetime after issue |
| Jwt.ExtractAllClaims | src/main/java/com/gyojincompany/home/security/JwtUtil.java:57-62 | succeeds iff the token verifies under the key and is not expired; no claims on failure; only the three parser errors |
| Jwt.ExtractUsername | src/main/java/com/gyojincompany/home/security/JwtUtil.java:37-39 | succeeds iff the parse does, with the subject of the signed, live claims |
| Jwt.IsTokenExpired | src/main/java/com/gyojincompany/home/security/JwtUtil.java:66-68 | fails iff the parse fails, and is false whenever it answers |
| Jwt.ValidateToken | src/main/java/com/gyojincompany/home/security/JwtUtil.java:94-98 | fails iff the parse fails or there is no subject; true iff the subject equals the user's email exactly |
| Jwt.ExtractCreated | src/main/java/com/gyojincompany/home/security/JwtUtil.java:37-62 | a created token is accepted exactly until its expiry second and then names its subject |
| Jwt.ExpiryBoundaryAccepted | src/main/java/com/gyojincompany/home/security/JwtUtil.java:57-68 | a genuine token whose expiry instant equals now still parses, and is not reported expired |
| Jwt.LifetimeWindow | src/main/java/com/gyojincompany/home/security/JwtUtil.java:83-91 | accepted through the last full second of the lifetime, refused after its nominal end |
| Jwt.TokenKindsIndistinguishable | src/main/java/com/gyojincompany/home/security/JwtUtil.java:70-81 | an access and a refresh token with the same dates are the same string |
| Jwt.ValidateGenerated | src/main/java/com/gyojincompany/home/security/JwtUtil.java:94-98 | a live token validates for its user and answers false for a user with another email |
| AuthFilter.BearerToken | src/main/java/com/gyojincompany/home/security/JwtAuthenticationFilter.java:35-41 | a token iff the header starts with exactly "Bearer "; the token is the rest of the header |
| AuthFilter.BearerOf | src/main/java/com/gyojincompany/home/security/JwtAuthenticationFilter.java:41 | stripping the prefix undoes prepending it |
| AuthFilter.TokenUser | src/main/java/com/gyojincompany/home/security/JwtAuthenticationFilter.java:42-56 | a user iff the token is signed, live and its subject's stored row is that user; any failure yields none |
| AuthFilter.DoFilterInternal | src/main/java/com/gyojincompany/home/security/JwtAuthenticationFilter.java:27-74 | the chain runs once; an existing authentication or a missing bearer token leaves the context; a change installs, with no credentials and the user's authorities, exactly the user the header identifies, and an identified user is always installed |
| AuthDto.BuilderDropsTypeDefault | src/main/java/com/gyojincompany/home/dto/AuthDto.java:45-53 | a builder-made response never has the "Bearer" type; only the no-argument constructor sets it |
| AuthDto.Utf16Length | src/main/java/com/gyojincompany/home/dto/AuthDto.java:21 | the length in UTF-16 units lies between the character count and twice it, and equals the character count iff no character is outside the Basic Multilingual Plane |
| AuthDto.SignupViolations | src/main/java/com/gyojincompany/home/dto/AuthDto.java:15-26 | no violation iff email non-blank and well-formed, password non-blank and at least 6 UTF-16 units, name non-blank; password violations iff a password constraint fails |
| AuthDto.LoginViolations | src/main/java/com/gyojincompany/home/dto/AuthDto.java:32-39 | no violation iff email non-blank and well-formed and password non-blank |
| AuthDto.RefreshViolations | src/main/java/com/gyojincompany/home/dto/AuthDto.java:59-62 | no violation iff the refresh token is non-blank |
| AuthDto.LoginHasNoMinimumLength | src/main/java/com/gyojincompany/home/dto/AuthDto.java:20-38 | every non-blank password shorter than 6 UTF-16 units passes login validation but not signup validation |
| AuthService.Signup | src/main/java/com/gyojincompany/home/service/AuthService.java:34-54 | fails iff the email is taken; else appends one LOCAL USER row with that email and name, no provider id, and a password that is the encoding of the raw one; returns only the message |
| AuthService.Authenticate | src/main/java/com/gyojincompany/home/service/AuthService.java:57-62 | on a valid table succeeds iff some row has the email and a matching password; an unknown email is BadCredentials like a wrong password |
| AuthService.Login | src/main/java/com/gyojincompany/home/service/AuthService.java:56-75 | succeeds iff authentication does, returning access and refresh tokens for that user with email, name and role name |
| AuthService.Refresh | src/main/java/com/gyojincompany/home/service/AuthService.java:77-95 | succeeds iff the token parses to a subject found in the table; returns a new access token for that row with its email, name and role and the presented token unchanged; the invalid-token failure never occurs at one clock reading |
| AuthService.SignupThenLogin | src/main/java/com/gyojincompany/home/service/AuthService.java:34-75 | a freshly signed-up account can log in with its password |
| AuthService.FederatedAccountNoPasswordLogin | src/main/java/com/gyojincompany/home/security/oauth2/CustomOAuth2UserService.java:51-59 | an account with the empty federated password never logs in with a password |
| AuthService.LoginThenRefresh | src/main/java/com/gyojincompany/home/service/AuthService.java:77-95 | a login's refresh token refreshes while live, is handed back, and yields an access token for the same user |
| AuthService.RefreshLiveToken | src/main/java/com/gyojincompany/home/service/AuthService.java:77-95 | a live token for a stored account's email refreshes to an access token for that account and is handed back |
| AuthService.AccessTokenRefreshes | src/main/java/com/gyojincompany/home/service/AuthService.java:77-83 | a live access token is accepted by refresh as well |
| OAuth2.ReadString | src/main/java/com/gyojincompany/home/security/oauth2/GoogleOAuth2UserInfo.java:13-26 | a present string value is read as itself; a missing key or a JSON null reads as null (Success(None)); the cast fails, with ClassCast, exactly when the key holds something other than a string or null |
| OAuth2.NaverNestsGoogleLayout | src/main/java/com/gyojincompany/home/security/oauth2/NaverOAuth2UserInfo.java:14-30 | a Naver payload reads name and email as a Google payload made of its "response" object, and the id from "id" where Google uses "sub"; Google reads fail only on a cast |
| OAuth2.NaverIgnoresTopLevel | src/main/java/com/gyojincompany/home/security/oauth2/NaverOAuth2UserInfo.java:14-30 | Naver fields depend on the "response" entry alone |
| OAuth2.NaverPayloadWithoutResponse | src/main/java/com/gyojincompany/home/security/oauth2/NaverOAuth2UserInfo.java:16-17 | a Naver payload without "response" fails with a null dereference |
| OAuth2.MissingEmailRejected | src/main/java/com/gyojincompany/home/security/oauth2/CustomOAuth2UserService.java:39-41 | a Google payload with a missing, null or empty "email" is refused with the OAuth2 failure before any lookup, whatever the table holds |
| OAuth2.ProviderOf | src/main/java/com/gyojincompany/home/security/oauth2/CustomOAuth2UserService.java:43 | the federated provider is never LOCAL |
| OAuth2.UserInfoFor | src/main/java/com/gyojincompany/home/security/oauth2/CustomOAuth2UserService.java:68-75 | succeeds iff the id is exactly "google" or "naver", with provider GOOGLE or NAVER accordingly; otherwise the unsupported-provider error |
| OAuth2.LoadUser | src/main/java/com/gyojincompany/home/security/oauth2/CustomOAuth2UserService.java:32-63 | unsupported ids fail; a payload whose email reads as null or empty fails with "Email not found from OAuth2 provider"; success needs a non-empty email and yields a non-LOCAL principal with the payload's id and name, either renaming one existing row in place or appending a USER row with an empty password and the payload's email; keeps the table valid |
| OAuth2.FederatedUniquePreserved | src/main/java/com/gyojincompany/home/security/oauth2/CustomOAuth2UserService.java:44-62 | (provider, provider id) stays unique among federated rows |
| OAuth2.KnownAccountResolves | src/main/java/com/gyojincompany/home/security/oauth2/CustomOAuth2UserService.java:44-50 | a payload that finds an existing row of a valid table signs in as that account without adding a row |
| OAuth2.RepeatSignInAddsNoAccount | src/main/java/com/gyojincompany/home/security/oauth2/CustomOAuth2UserService.java:44-62 | a repeated sign-in succeeds, adds no row and resolves to the same account |
| OAuth2.PrincipalView | src/main/java/com/gyojincompany/home/entity/User.java:106-114 | the signed-in principal shows the provider's name and an empty attribute map although the payload is non-empty |
| OAuth2.FirstSignInEmailTaken | src/main/java/com/gyojincompany/home/security/oauth2/CustomOAuth2UserService.java:51-62 | a first sign-in with a taken email fails on the unique column |
| SuccessHandler.TargetSpellsOutTokens | src/main/java/com/gyojincompany/home/security/oauth2/OAuth2SuccessHandler.java:39-42 | the address given to the URI builder is the fixed base, "?token=", the access token, "&refreshToken=", the refresh token; the base begins "http://http://" |
| SuccessHandler.TokensNamePrincipal | src/main/java/com/gyojincompany/home/security/oauth2/OAuth2SuccessHandler.java:30-34 | both tokens name the principal's username while live |
| DataInitializer.SeedAccount | src/main/java/com/gyojincompany/home/config/DataInitializer.java:29-39 | a taken email saves nothing; a free one appends exactly the seed row; the taken emails grow by exactly the seed's |
| DataInitializer.Run | src/main/java/com/gyojincompany/home/config/DataInitializer.java:27-53 | afterwards both seed emails are taken, existing rows are untouched, and one save per email that was free |
| DataInitializer.RunIdempotent | src/main/java/com/gyojincompany/home/config/DataInitializer.java:29-52 | a second run saves nothing and changes nothing |
| DataInitializer.SeededAdmin | src/main/java/com/gyojincompany/home/config/DataInitializer.java:29-52 | on an empty table the administrator (ADMIN, "admin123") and the user (USER, "user123") are created in that order |
| RouteRules.FirstMatch | src/main/java/com/gyojincompany/home/config/SecurityConfig.java:45-58 | the requirement of the earliest matching rule, none iff no rule matches |
| RouteRules.TableRequirement | src/main/java/com/gyojincompany/home/config/SecurityConfig.java:46-57 | public paths permitted; admin subtree needs ROLE_ADMIN; user subtree ROLE_USER or ROLE_ADMIN; everything else authentication |
| RouteRules.AuthorizeIsPolicy | src/main/java/com/gyojincompany/home/config/SecurityConfig.java:45-58 | the ordered table decides exactly as the direct policy |
| RouteRules.AnonymousReach | src/main/java/com/gyojincompany/home/config/SecurityConfig.java:46-57 | an anonymous caller reaches exactly the public paths |
| RouteRules.SignedInReach | src/main/java/com/gyojincompany/home/config/SecurityConfig.java:55-57 | a signed-in caller reaches everything except the admin subtree, which needs role ADMIN |
| ExceptionHandler.FieldMap | src/main/java/com/gyojincompany/home/exception/GlobalExceptionHandler.java:19-30 | one entry per rejected field; the last error sets its field |
| ExceptionHandler.FieldMapLastWins | src/main/java/com/gyojincompany/home/exception/GlobalExceptionHandler.java:24-28 | each field reports the message of its last error |
| ExceptionHandler.LastErrorWins | src/main/java/com/gyojincompany/home/exception/GlobalExceptionHandler.java:24-28 | a later error on a field overwrites the earlier one completely |
| ExceptionHandler.Handle | src/main/java/com/gyojincompany/home/exception/GlobalExceptionHandler.java:19-58 | 400 for validation and other runtime errors, 401 only for bad credentials, 404 only for a missing user, 500 only for checked exceptions; field map only for validation; runtime and not-found bodies carry the exception's message; a null message body only for an OAuth2 failure or a runtime exception without message |
| ExceptionHandler.OpaqueStatuses | src/main/java/com/gyojincompany/home/exception/GlobalExceptionHandler.java:32-58 | any two exceptions answered 401, or any two answered 500, get the same response: nothing about the exception leaks |
| Flows.DuplicateSignupIs400 | src/main/java/com/gyojincompany/home/exception/GlobalExceptionHandler.java:46-51 | a duplicate signup email is answered 400 with its message |
| Flows.FailedLoginIs401 | src/main/java/com/gyojincompany/home/exception/GlobalExceptionHandler.java:32-37 | every failed login on a valid table is answered 401 with the fixed text |
| Flows.RefreshForMissingUserIs400 | src/main/java/com/gyojincompany/home/exception/GlobalExceptionHandler.java:46-51 | a live token whose subject has no account is refused, and the answer is 400 with the not-found message, not 404 |
| Flows.ShortPasswordReport | src/main/java/com/gyojincompany/home/dto/AuthDto.java:20-22 | a non-blank password under six UTF-16 units is reported under "password" with the size message |
| Flows.BearerAccessTokenSignsIn | src/main/java/com/gyojincompany/home/security/JwtAuthenticationFilter.java:41-58 | a live access token as bearer header signs an anonymous request in as the row for its subject |
| Flows.PrincipalRowFound | src/main/java/com/gyojincompany/home/security/oauth2/CustomOAuth2UserService.java:44-63 | after a federated sign-in the principal's email finds exactly the principal's row |
| Flows.FederatedSignInAuthenticates | src/main/java/com/gyojincompany/home/security/oauth2/OAuth2SuccessHandler.java:30-42 | the access token handed to the front end signs later requests in as the federated account |

## Left out
- **Signing is symbolic.** A token is its encoded claims, a dot, and an uninterpreted `mac(secret, payload)`. HMAC-SHA, base64url and the JOSE header are not modelled.
  - Tamper resistance cannot be stated for an uninterpreted function, and neither can the rejection of a token signed under a different key.
  - So `TokenCodec.Verify` is proved to return only claims the string is the signed form of. It is not proved that the string came from this key.
- **BCrypt is an uninterpreted hash.** It is shown behind the "$2a$" version prefix and has no salt, so two encodings of one password are equal here.
- **One clock reading per call.** The clock is one `now` per call. The separate `new Date()` reads (two in `createToken`, one in `isTokenExpired`, two in `onCreate`) collapse into it.
- Jwt.IsTokenExpired: the parser and this method see the same `now`, so it never answers true. The source reads the clock again and could, in principle, answer true for a token that expires between the two reads.
- **Authentication provider internals.** The DAO authentication provider is reduced to: load by email, then compare passwords.
  - An unknown email becomes bad credentials.
  - Any other load failure passes through unchanged; the framework wraps it in `InternalAuthenticationServiceException`.
  - The timing-attack dummy encoding and credential erasure are not modelled.
- **Framework plumbing and I/O.** These are not modelled:
  - the thread-local `SecurityContextHolder`, which is an explicit context value here;
  - the authentication details the filter attaches from the request;
  - filter ordering, stateless sessions, CSRF and CORS;
  - the provider's user-info fetch; the attribute map is a parameter;
  - sending the redirect, and any URL encoding or re-serialisation by `UriComponentsBuilder`;
  - logging and the initializer's console output;
  - the controllers, which only delegate.
- **Path matching.** A subtree pattern matches the prefix itself or anything below "prefix/". Trailing-slash handling, URL decoding, path normalisation and HTTP methods are not modelled.
- **Persistence and validation mechanics.**
  - The persistence layer is single-threaded and has no transactions. The check-then-save race between two signups for one email is therefore not modelled.
  - Identity values come from a counter.
  - The nullable `provider` column is non-optional, because every path that creates a user sets it.
- **Service inputs are non-null.** The service functions take plain strings for the request fields, because controller validation has already rejected null and blank values.
- **Violation order.** Bean Validation does not fix the order of violations. The violation lists follow declaration order, so for a field that breaks two constraints, which message the handler keeps depends on that choice.
- **`@Email` format.** The format check is a parameter.
- **OAuth2 errors.** An `OAuth2AuthenticationException` raised during federated sign-in goes to Spring's OAuth2 login failure handling, not to the global handler. `ExceptionHandler.Handle` still maps it, as a runtime exception with the null message that the single-argument constructor leaves.
- Passwords.Encode: states only the version prefix, because the hash is abstract.
- SuccessHandler.TargetSpellsOutTokens: states the address handed to `UriComponentsBuilder`, not the string `toUriString()` returns. The builder parses the base again, and with the doubled scheme it reads the host as "http". So the address actually sent need not begin "http://http://". That parse and re-serialisation is not modelled.
- **Account status flags.** The four `UserDetails` status getters always return true, so the authentication provider's account-status checks never reject. Neither the getters nor those checks are modelled.
- **Email comparison.** Emails are compared exactly, character by character. The collation of the email column is not part of the source. A case-insensitive collation would make the unique column and `findByEmail` treat emails that differ only in case as equal, and the model does not.
- **Library exception messages.** A library exception's own message is non-null, but its text is not spelled out. It is the placeholder `LibraryDetail`, which the handler never writes as JSON null.
