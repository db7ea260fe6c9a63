/**
 * `OAuth2SuccessHandler`: after a federated sign-in, issue both tokens for
 * the principal and redirect to the front end with them as query
 * parameters. `build()` is called without `encode()`, so the parameters go
 * into the URL as they are; sending the redirect is outside the model.
 */
module SuccessHandler {
  import opened Wrappers
  import opened Entity
  import opened Jwt

  /** The scheme of the front-end address, doubled as written. */
  const DoubledScheme: string := "http://http://"

  /** The fixed front-end address. */
  const RedirectBase: string := DoubledScheme + "my-s3-hosting-server.s3-website.ap-northeast-2.amazonaws.com/oauth2/redirect"

  /** A redirect target: base address and query parameters in order. */
  datatype Redirect = Redirect(base: string, query: seq<(string, string)>)

  /** `name=value` pairs joined by `&`. */
  function QueryString(ps: seq<(string, string)>): string
    decreases |ps|
  {
    if |ps| == 0 then ""
    else if |ps| == 1 then ps[0].0 + ("=" + ps[0].1)
    else ps[0].0 + ("=" + (ps[0].1 + ("&" + QueryString(ps[1..]))))
  }

  /** The address the URI builder is given: the base, then `?` and the
      query when there is one. How the builder parses and re-serialises it
      is not modelled. */
  function TargetUrl(r: Redirect): (url: string)
    ensures |url| >= |r.base| && url[..|r.base|] == r.base
  {
    if |r.query| == 0 then r.base else r.base + ("?" + QueryString(r.query))
  }

  /** `onAuthenticationSuccess`. It takes no directory: it neither reads nor
      changes the stored accounts, and the target does not depend on the
      request. */
  function OnAuthenticationSuccess(cfg: JwtConfig, principal: User, now: nat): (r: Redirect)
    ensures r.base == RedirectBase
    ensures |r.query| == 2 && r.query[0].0 == "token" && r.query[1].0 == "refreshToken"
    ensures r.query[0].1 == GenerateToken(cfg, principal, now)
    ensures r.query[1].1 == GenerateRefreshToken(cfg, principal, now)
  {
    Redirect(RedirectBase, [("token", GenerateToken(cfg, principal, now)), ("refreshToken", GenerateRefreshToken(cfg, principal, now))])
  }

  /** A two-parameter target is the base, `?`, and the pairs joined by `&`. */
  lemma TwoParameterUrl(base: string, k1: string, v1: string, k2: string, v2: string)
    ensures TargetUrl(Redirect(base, [(k1, v1), (k2, v2)])) == base + ("?" + (k1 + ("=" + (v1 + ("&" + (k2 + ("=" + v2)))))))
  {
    var ps := [(k1, v1), (k2, v2)];
    assert ps[1..] == [(k2, v2)];
    assert QueryString([(k2, v2)]) == k2 + ("=" + v2);
    assert QueryString(ps) == k1 + ("=" + (v1 + ("&" + QueryString(ps[1..]))));
  }

  /** The address handed to the builder spells out both tokens after the
      fixed base, and that base begins with the doubled scheme. */
  lemma {:induction false} TargetSpellsOutTokens(cfg: JwtConfig, principal: User, now: nat)
    ensures var url := TargetUrl(OnAuthenticationSuccess(cfg, principal, now));
      && url == RedirectBase + ("?" + ("token" + ("=" + (GenerateToken(cfg, principal, now)
                + ("&" + ("refreshToken" + ("=" + GenerateRefreshToken(cfg, principal, now))))))))
      && url[..14] == "http://http://"
  {
    var t := GenerateToken(cfg, principal, now);
    var rt := GenerateRefreshToken(cfg, principal, now);
    TwoParameterUrl(RedirectBase, "token", t, "refreshToken", rt);
    var url := TargetUrl(OnAuthenticationSuccess(cfg, principal, now));
    assert url[..|RedirectBase|] == RedirectBase;
    assert RedirectBase[..|DoubledScheme|] == DoubledScheme;
    assert url[..14] == RedirectBase[..14];
  }

  /** Both tokens name the principal's username while they are live. */
  lemma TokensNamePrincipal(cfg: JwtConfig, principal: User, issued: nat, now: nat)
    ensures var r := OnAuthenticationSuccess(cfg, principal, issued);
      && (now <= Seconds(issued + cfg.expiration) * 1000 ==>
            ExtractUsername(cfg, r.query[0].1, now) == Success(Some(Username(principal))))
      && (now <= Seconds(issued + cfg.refreshExpiration) * 1000 ==>
            ExtractUsername(cfg, r.query[1].1, now) == Success(Some(Username(principal))))
  {
    ExtractCreated(cfg, principal.email, cfg.expiration, issued, now);
    ExtractCreated(cfg, principal.email, cfg.refreshExpiration, issued, now);
  }
}
