/**
 * The persisted account record and the Spring Security views of it
 * (`UserDetails`, `OAuth2User`). Time stamps are milliseconds on the
 * caller's clock, passed in as `now`.
 */
module Entity {
  import opened Wrappers

  datatype Role = USER | ADMIN

  datatype AuthProvider = LOCAL | GOOGLE | NAVER

  /** `Role.name()`. */
  function RoleName(role: Role): string {
    match role
    case USER => "USER"
    case ADMIN => "ADMIN"
  }

  /** `AuthProvider.name()`. */
  function ProviderName(p: AuthProvider): string {
    match p
    case LOCAL => "LOCAL"
    case GOOGLE => "GOOGLE"
    case NAVER => "NAVER"
  }

  /**
   * A row of the `users` table. Email, password, name and role are NOT NULL
   * columns, so they are plain values here; `providerId` is nullable. The
   * `provider` column is nullable too, but every path that creates a user
   * sets it, so the model keeps it non-optional.
   */
  datatype User = User(
    id: nat,
    email: string,
    password: string,
    name: string,
    role: Role,
    provider: AuthProvider,
    providerId: Option<string>,
    createdAt: nat,
    updatedAt: nat)

  /** The field values a builder sets before the first save. */
  datatype NewUser = NewUser(
    email: string,
    password: string,
    name: string,
    role: Role,
    provider: AuthProvider,
    providerId: Option<string>)

  /** `getAuthorities()`: a single authority named after the role. */
  function Authorities(u: User): seq<string> {
    ["ROLE_" + RoleName(u.role)]
  }

  /** `getUsername()`: the email is the login key and the token subject. */
  function Username(u: User): string {
    u.email
  }

  /** `getName()` of the `OAuth2User` view. */
  function DisplayName(u: User): string {
    u.name
  }

  /** `getAttributes()` of the `OAuth2User` view: never carries provider data. */
  function Attributes(u: User): map<string, string> {
    map[]
  }

  /** The row carries exactly the columns the builder set. */
  predicate FromDraft(u: User, draft: NewUser) {
    && u.email == draft.email && u.password == draft.password && u.name == draft.name
    && u.role == draft.role && u.provider == draft.provider && u.providerId == draft.providerId
  }

  /** The authority a caller is granted names the role and nothing else:
      "ROLE_ADMIN" exactly for administrators, "ROLE_USER" exactly for
      users, and never more than one. */
  lemma RoleAuthority(u: User)
    ensures |Authorities(u)| == 1
    ensures "ROLE_ADMIN" in Authorities(u) <==> u.role == ADMIN
    ensures "ROLE_USER" in Authorities(u) <==> u.role == USER
  {
    assert "ROLE_" + "ADMIN" == "ROLE_ADMIN";
    assert "ROLE_" + "USER" == "ROLE_USER";
    assert "ROLE_ADMIN"[5] != "ROLE_USER"[5];
  }

  /** `@PrePersist onCreate`: the row gets its id and both time stamps. */
  function OnCreate(draft: NewUser, id: nat, now: nat): User {
    User(id, draft.email, draft.password, draft.name, draft.role, draft.provider, draft.providerId, now, now)
  }

  /** `@PreUpdate onUpdate`: only the modification time moves. */
  function OnUpdate(u: User, now: nat): (r: User)
    ensures r.updatedAt == now
    ensures r.(updatedAt := u.updatedAt) == u
  {
    u.(updatedAt := now)
  }
}
