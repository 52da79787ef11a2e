/**
 * The route gate (src/middleware.ts). Public paths and static assets pass;
 * every other path passes only when the "pgbl_auth" cookie holds exactly the
 * text "authenticated", and is otherwise redirected to the login page.
 */
module RouteGate {
  import opened Common
  import Auth

  datatype Response = Next | Redirect(location: string)

  const CookieValue: string := "authenticated"
  const LoginPath: string := "/login"
  const PublicPaths: seq<string> := ["/login", "/api/auth"]

  /** String.prototype.startsWith. */
  predicate StartsWith(s: string, prefix: string) {
    |prefix| <= |s| && s[..|prefix|] == prefix
  }

  /** Array.prototype.some over startsWith: does `path` begin with any of `prefixes`? */
  function AnyPrefix(prefixes: seq<string>, path: string): (found: bool)
    ensures found <==> exists k :: 0 <= k < |prefixes| && StartsWith(path, prefixes[k])
  {
    if prefixes == [] then false
    else StartsWith(path, prefixes[0]) || AnyPrefix(prefixes[1..], path)
  }

  /** The public list is the two prefixes "/login" and "/api/auth". */
  lemma PublicPathsAreTwoPrefixes(pathname: string)
    ensures AnyPrefix(PublicPaths, pathname) <==>
      StartsWith(pathname, "/login") || StartsWith(pathname, "/api/auth")
  {
    assert PublicPaths[0] == "/login" && PublicPaths[1] == "/api/auth";
  }

  /** Paths that pass without a cookie. */
  predicate IsPublic(pathname: string): (public: bool)
    ensures public <==>
      StartsWith(pathname, "/login") || StartsWith(pathname, "/api/auth")
      || StartsWith(pathname, "/_next") || StartsWith(pathname, "/favicon")
      || pathname == "/api/tax-rules"
  {
    PublicPathsAreTwoPrefixes(pathname);
    AnyPrefix(PublicPaths, pathname)
    || StartsWith(pathname, "/_next")
    || StartsWith(pathname, "/favicon")
    || pathname == "/api/tax-rules"
  }

  /** The gate's decision for a request to `pathname` carrying the cookie `cookie`, if any. */
  function Middleware(pathname: string, cookie: Option<string>): (r: Response)
    ensures r == Next <==>
      StartsWith(pathname, "/login") || StartsWith(pathname, "/api/auth")
      || StartsWith(pathname, "/_next") || StartsWith(pathname, "/favicon")
      || pathname == "/api/tax-rules"
      || cookie == Some("authenticated")
    ensures r != Next ==> r == Redirect("/login")
  {
    if IsPublic(pathname) then Next
    else if cookie.Some? && cookie.value == CookieValue then Next
    else Redirect(LoginPath)
  }

  /** Public paths are matched by prefix, so look-alike paths pass too. */
  lemma PublicPrefixesAreLoose()
    ensures Middleware("/login-help", None) == Next
    ensures Middleware("/api/authz", None) == Next
    ensures Middleware("/favicon-anything", None) == Next
  {
    assert StartsWith("/login-help", "/login");
    assert StartsWith("/api/authz", "/api/auth");
    assert StartsWith("/favicon-anything", "/favicon");
  }

  /** The tax-rules endpoint is public only at its exact path. */
  lemma TaxRulesMatchedExactly()
    ensures Middleware("/api/tax-rules", None) == Next
    ensures Middleware("/api/tax-rules/2025", None) == Redirect("/login")
    ensures Middleware("/", None) == Redirect("/login")
  {
    var p := "/api/tax-rules/2025";
    assert p[1] == 'a' && "/login"[1] == 'l' && "/_next"[1] == '_' && "/favicon"[1] == 'f';
    assert p[5] == 't' && "/api/auth"[5] == 'a';
  }

  /** The literal cookie the login route sets opens every path. */
  lemma LiteralCookieOpensEverything(pathname: string)
    ensures Middleware(pathname, Some(CookieValue)) == Next
  {
  }

  /**
   * A signed cookie as Auth.CreateAuthCookie issues it is never the literal
   * "authenticated", so on a protected path the gate redirects it to login.
   */
  lemma SignedCookieIsRejected(sign: string -> string, now: nat, pathname: string)
    requires !IsPublic(pathname)
    ensures Middleware(pathname, Some(Auth.CreateAuthCookie(sign, now))) == Redirect("/login")
  {
    var cookie := Auth.CreateAuthCookie(sign, now);
    assert |Auth.PayloadPrefix| > |CookieValue|;
    assert |cookie| > |CookieValue|;
  }
}
