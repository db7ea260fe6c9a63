/**
 * The `authorizeHttpRequests` table of `SecurityConfig`: ordered rules,
 * each a list of path patterns and an access requirement; the first rule
 * with a matching pattern decides. The caller is whatever the security
 * context holds when the request reaches the table; an empty context is
 * the anonymous caller, which is not authenticated and has no authority.
 */
module RouteRules {
  import opened Wrappers
  import opened Entity
  import opened AuthFilter

  /** A request-matcher pattern: a literal path, a prefix with its whole
      subtree (the double-star suffix), or `anyRequest()`. */
  datatype PathPattern = Exact(path: string) | Subtree(prefix: string) | AnyPath

  /** True when `path` is `prefix` itself or lies below it. */
  predicate Under(path: string, prefix: string) {
    path == prefix || (|path| > |prefix| && path[..|prefix| + 1] == prefix + "/")
  }

  predicate PatternMatches(p: PathPattern, path: string) {
    match p
    case Exact(s) => path == s
    case Subtree(prefix) => Under(path, prefix)
    case AnyPath => true
  }

  datatype Access = PermitAll | HasAnyAuthority(authorities: seq<string>) | Authenticated

  datatype Rule = Rule(patterns: seq<PathPattern>, access: Access)

  predicate RuleMatches(rule: Rule, path: string) {
    exists i :: 0 <= i < |rule.patterns| && PatternMatches(rule.patterns[i], path)
  }

  /** The table in declaration order. `hasRole("X")` is the authority
      "ROLE_X". */
  const Rules: seq<Rule> := [
    Rule([Subtree("/api/auth"), Subtree("/oauth2"), Subtree("/login/oauth2")], PermitAll),
    Rule([Exact("/swagger-ui.html"), Subtree("/swagger-ui"), Subtree("/v3/api-docs"),
          Exact("/v3/api-docs.yaml"), Subtree("/swagger-resources"), Subtree("/webjars")], PermitAll),
    Rule([Subtree("/api/admin")], HasAnyAuthority(["ROLE_ADMIN"])),
    Rule([Subtree("/api/user")], HasAnyAuthority(["ROLE_USER", "ROLE_ADMIN"])),
    Rule([AnyPath], Authenticated)
  ]

  /** The access requirement of the first rule at or after `from` that matches. */
  function FirstMatchFrom(rules: seq<Rule>, from: nat, path: string): (r: Option<Access>)
    decreases |rules| - from
    ensures r.None? <==> forall k :: from <= k < |rules| ==> !RuleMatches(rules[k], path)
    ensures r.Some? ==> exists k :: (from <= k < |rules| && RuleMatches(rules[k], path) && rules[k].access == r.value
      && forall k' :: from <= k' < k ==> !RuleMatches(rules[k'], path))
  {
    if from >= |rules| then None
    else if RuleMatches(rules[from], path) then Some(rules[from].access)
    else FirstMatchFrom(rules, from + 1, path)
  }

  /** The access requirement of the first matching rule. */
  function FirstMatch(rules: seq<Rule>, path: string): (r: Option<Access>)
    ensures r.None? <==> forall k :: 0 <= k < |rules| ==> !RuleMatches(rules[k], path)
    ensures r.Some? ==> exists k :: (0 <= k < |rules| && RuleMatches(rules[k], path) && rules[k].access == r.value
      && forall k' :: 0 <= k' < k ==> !RuleMatches(rules[k'], path))
  {
    FirstMatchFrom(rules, 0, path)
  }

  /** The caller's authorities: none for the anonymous caller. */
  function CallerAuthorities(ctx: SecurityContext): seq<string> {
    if ctx.authentication.Some? then ctx.authentication.value.authorities else []
  }

  predicate Granted(a: Access, ctx: SecurityContext) {
    match a
    case PermitAll => true
    case Authenticated => ctx.authentication.Some?
    case HasAnyAuthority(required) => exists x :: x in required && x in CallerAuthorities(ctx)
  }

  /** The table's verdict; a request no rule matches is refused, though the
      final `anyRequest()` rule means that never happens. */
  function Authorize(path: string, ctx: SecurityContext): bool {
    match FirstMatch(Rules, path)
    case None => false
    case Some(a) => Granted(a, ctx)
  }

  /** The public paths: sign-in, federation callbacks and the API docs. */
  predicate PublicPath(path: string) {
    || Under(path, "/api/auth") || Under(path, "/oauth2") || Under(path, "/login/oauth2")
    || path == "/swagger-ui.html" || Under(path, "/swagger-ui") || Under(path, "/v3/api-docs")
    || path == "/v3/api-docs.yaml" || Under(path, "/swagger-resources") || Under(path, "/webjars")
  }

  predicate HasAuthority(ctx: SecurityContext, authority: string) {
    authority in CallerAuthorities(ctx)
  }

  /** The access policy stated directly, as a decision list over the path. */
  predicate Allowed(path: string, ctx: SecurityContext) {
    if PublicPath(path) then true
    else if Under(path, "/api/admin") then HasAuthority(ctx, "ROLE_ADMIN")
    else if Under(path, "/api/user") then HasAuthority(ctx, "ROLE_USER") || HasAuthority(ctx, "ROLE_ADMIN")
    else ctx.authentication.Some?
  }

  lemma AuthRuleMatches(path: string)
    ensures RuleMatches(Rules[0], path) <==> Under(path, "/api/auth") || Under(path, "/oauth2") || Under(path, "/login/oauth2")
  {
    var ps := Rules[0].patterns;
    if Under(path, "/api/auth") { assert PatternMatches(ps[0], path); }
    if Under(path, "/oauth2") { assert PatternMatches(ps[1], path); }
    if Under(path, "/login/oauth2") { assert PatternMatches(ps[2], path); }
  }

  lemma DocsRuleMatches(path: string)
    ensures RuleMatches(Rules[1], path) <==>
      (path == "/swagger-ui.html" || Under(path, "/swagger-ui") || Under(path, "/v3/api-docs")
       || path == "/v3/api-docs.yaml" || Under(path, "/swagger-resources") || Under(path, "/webjars"))
  {
    var ps := Rules[1].patterns;
    if path == "/swagger-ui.html" { assert PatternMatches(ps[0], path); }
    if Under(path, "/swagger-ui") { assert PatternMatches(ps[1], path); }
    if Under(path, "/v3/api-docs") { assert PatternMatches(ps[2], path); }
    if path == "/v3/api-docs.yaml" { assert PatternMatches(ps[3], path); }
    if Under(path, "/swagger-resources") { assert PatternMatches(ps[4], path); }
    if Under(path, "/webjars") { assert PatternMatches(ps[5], path); }
  }

  /** The table, unfolded: which requirement applies to a path. */
  lemma {:induction false} TableRequirement(path: string)
    ensures FirstMatch(Rules, path) == Some(
      if PublicPath(path) then PermitAll
      else if Under(path, "/api/admin") then HasAnyAuthority(["ROLE_ADMIN"])
      else if Under(path, "/api/user") then HasAnyAuthority(["ROLE_USER", "ROLE_ADMIN"])
      else Authenticated)
  {
    AuthRuleMatches(path);
    DocsRuleMatches(path);
    assert RuleMatches(Rules[2], path) <==> Under(path, "/api/admin") by {
      if Under(path, "/api/admin") { assert PatternMatches(Rules[2].patterns[0], path); }
    }
    assert RuleMatches(Rules[3], path) <==> Under(path, "/api/user") by {
      if Under(path, "/api/user") { assert PatternMatches(Rules[3].patterns[0], path); }
    }
    assert RuleMatches(Rules[4], path) by {
      assert PatternMatches(Rules[4].patterns[0], path);
    }
    assert FirstMatchFrom(Rules, 4, path) == Some(Authenticated);
  }

  /** The rule table decides exactly as the direct policy. */
  lemma {:induction false} AuthorizeIsPolicy(path: string, ctx: SecurityContext)
    ensures Authorize(path, ctx) == Allowed(path, ctx)
  {
    TableRequirement(path);
    if !PublicPath(path) && Under(path, "/api/admin") {
      assert Granted(HasAnyAuthority(["ROLE_ADMIN"]), ctx) <==> "ROLE_ADMIN" in CallerAuthorities(ctx) by {
        if "ROLE_ADMIN" in CallerAuthorities(ctx) { assert "ROLE_ADMIN" in ["ROLE_ADMIN"]; }
      }
    } else if !PublicPath(path) && Under(path, "/api/user") {
      assert Granted(HasAnyAuthority(["ROLE_USER", "ROLE_ADMIN"]), ctx)
        <==> "ROLE_USER" in CallerAuthorities(ctx) || "ROLE_ADMIN" in CallerAuthorities(ctx) by {
        if "ROLE_USER" in CallerAuthorities(ctx) { assert "ROLE_USER" in ["ROLE_USER", "ROLE_ADMIN"]; }
        if "ROLE_ADMIN" in CallerAuthorities(ctx) { assert "ROLE_ADMIN" in ["ROLE_USER", "ROLE_ADMIN"]; }
      }
    }
  }

  /** An anonymous caller reaches exactly the public paths. */
  lemma AnonymousReach(path: string)
    ensures Authorize(path, SecurityContext(None)) == PublicPath(path)
  {
    AuthorizeIsPolicy(path, SecurityContext(None));
  }

  /** A caller the token filter signed in reaches every path, except that
      only an ADMIN reaches the non-public admin subtree. */
  lemma SignedInReach(u: User, path: string)
    ensures Authorize(path, SecurityContext(Some(Grant(u))))
        == (PublicPath(path) || u.role == ADMIN || !Under(path, "/api/admin"))
  {
    var ctx := SecurityContext(Some(Grant(u)));
    AuthorizeIsPolicy(path, ctx);
    if u.role == ADMIN {
      assert "ROLE_" + "ADMIN" == "ROLE_ADMIN";
      assert CallerAuthorities(ctx) == ["ROLE_ADMIN"];
    } else {
      assert "ROLE_" + "USER" == "ROLE_USER";
      assert CallerAuthorities(ctx) == ["ROLE_USER"];
      assert "ROLE_USER" != "ROLE_ADMIN" by { assert "ROLE_USER"[5] != "ROLE_ADMIN"[5]; }
    }
  }
}
