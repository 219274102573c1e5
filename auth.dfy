/**
  The auth guard: the session-cookie check (`verifyPassword`), the API-token
  check (`verifyApiToken`), the cookie value a successful login issues
  (`createAuthRedirect`) and the decision `handleAuth` takes for a request.
 */
module Auth {
  import opened Text
  import opened Types

  /** `COOKIE_NAME + '='` */
  const TokenPrefix: string := "token="

  /** The shared secret in force, `AUTH_KEY || PW`; "" when neither is set. */
  function Secret(cfg: Config): (s: string)
    ensures s == "" <==> (cfg.authKey == "" && cfg.pw == "")
    ensures cfg.authKey != "" ==> s == cfg.authKey
    ensures cfg.authKey == "" ==> s == cfg.pw
  {
    if cfg.authKey != "" then cfg.authKey else cfg.pw
  }

  // ---------------------------------------------------------------------------
  // The cookie regular expressions `token=([^;]+)` and `\btoken=([^;]+)`

  /** `token=([^;]+)` matches starting at index `i` of `h`. */
  predicate MatchesAt(h: string, i: nat) {
    i + |TokenPrefix| < |h| && h[i..i + |TokenPrefix|] == TokenPrefix && h[i + |TokenPrefix|] != ';'
  }

  /** The `\w` class of a JavaScript regular expression without the `u` flag. */
  predicate IsWordChar(c: char) {
    ('a' <= c <= 'z') || ('A' <= c <= 'Z') || ('0' <= c <= '9') || c == '_'
  }

  /** A match at `i`, and when `boundary` is set, a word boundary before it. */
  predicate Hit(h: string, i: nat, boundary: bool) {
    MatchesAt(h, i) && (boundary ==> i == 0 || !IsWordChar(h[i - 1]))
  }

  /** The leftmost index at or after `from` where the pattern matches, as `String.prototype.match` finds it. */
  function Search(h: string, from: nat, boundary: bool): (r: Option<nat>)
    decreases |h| - from
    ensures r.Some? ==> from <= r.value && Hit(h, r.value, boundary)
    ensures r.Some? ==> forall k :: from <= k < r.value ==> !Hit(h, k, boundary)
    ensures r.None? ==> forall k :: from <= k ==> !Hit(h, k, boundary)
  {
    if |h| <= from + |TokenPrefix| then None
    else if Hit(h, from, boundary) then Some(from)
    else Search(h, from + 1, boundary)
  }

  /** The capture group `([^;]+)`: the longest prefix of `s` without a `;`. */
  function UntilSemicolon(s: string): (r: string)
    ensures |r| <= |s| && r == s[..|r|]
    ensures forall i :: 0 <= i < |r| ==> r[i] != ';'
    ensures |r| < |s| ==> s[|r|] == ';'
  {
    if s == [] || s[0] == ';' then [] else [s[0]] + UntilSemicolon(s[1..])
  }

  /** The trimmed value captured by a match at index `i`. */
  function CapturedAt(h: string, i: nat): string
    requires MatchesAt(h, i)
  {
    Trim(UntilSemicolon(h[i + |TokenPrefix|..]))
  }

  /** The session token `verifyPassword` reads out of a Cookie header: three tries in order. */
  function CookieValue(h: string): string {
    match Search(h, 0, false)
    case Some(i) => CapturedAt(h, i)
    case None =>
      if StartsWith(h, TokenPrefix) then Trim(h[|TokenPrefix|..])
      else
        match Search(h, 0, true)
        case Some(i) => CapturedAt(h, i)
        case None => ""
  }

  /** `verifyPassword`: no secret configured, or the cookie carries the secret. */
  predicate VerifyPassword(cookie: string, cfg: Config) {
    Secret(cfg) == "" || CookieValue(cookie) == Secret(cfg)
  }

  // ---------------------------------------------------------------------------
  // Properties of the cookie check

  /** The third try (`\btoken=`) can never find what the first one missed. */
  lemma BoundarySearchUnreachable(h: string)
    requires Search(h, 0, false).None?
    ensures Search(h, 0, true).None?
  {
    if Search(h, 0, true).Some? {
      assert Hit(h, Search(h, 0, true).value, false);
    }
  }

  /**
    The second try (`startsWith('token=')`) only runs when the header is
    exactly `token=` or goes on with a `;`, so it yields "" or a value that
    begins with `;`.
   */
  lemma StartsWithFallbackValue(h: string)
    requires Search(h, 0, false).None? && StartsWith(h, TokenPrefix)
    ensures CookieValue(h) == "" || CookieValue(h)[0] == ';'
  {
    assert !Hit(h, 0, false);
    assert CookieValue(h) == Trim(h[|TokenPrefix|..]);
    TrimKeepsLeadingSemicolon(h[|TokenPrefix|..]);
  }

  lemma TrimKeepsLeadingSemicolon(s: string)
    requires s == [] || s[0] == ';'
    ensures Trim(s) == [] || Trim(s)[0] == ';'
  {
    if s != [] {
      assert TrimStart(s) == s;
      assert Trim(s) == s[..|Trim(s)|];
    }
  }

  /** The first search stops at the leftmost match. */
  lemma SearchFindsFirst(h: string, n: nat)
    requires MatchesAt(h, n) && forall k :: 0 <= k < n ==> !MatchesAt(h, k)
    ensures Search(h, 0, false) == Some(n)
  {
    assert Hit(h, n, false);
  }

  /**
    When `token=` sits at index `n` of the header, followed by a non-empty run
    `v` without `;` and then nothing or the next cookie, and no match starts
    before `n`, the value read is the trimmed `v`.
   */
  lemma FirstMatchWins(h: string, n: nat, v: string, rest: string)
    requires v != [] && forall i :: 0 <= i < |v| ==> v[i] != ';'
    requires rest == [] || rest[0] == ';'
    requires n + |TokenPrefix| <= |h| && h[n..n + |TokenPrefix|] == TokenPrefix
    requires h[n + |TokenPrefix|..] == v + rest
    requires forall k :: 0 <= k < n ==> !MatchesAt(h, k)
    ensures CookieValue(h) == Trim(v)
  {
    assert h[n + |TokenPrefix|] == v[0];
    SearchFindsFirst(h, n);
    UntilSemicolonStopsAt(v, rest);
  }

  lemma {:induction false} UntilSemicolonStopsAt(v: string, rest: string)
    requires forall i :: 0 <= i < |v| ==> v[i] != ';'
    requires rest == [] || rest[0] == ';'
    ensures UntilSemicolon(v + rest) == v
  {
    if v != [] {
      assert (v + rest)[1..] == v[1..] + rest;
      UntilSemicolonStopsAt(v[1..], rest);
    }
  }

  /** A header holding only `token=<v>` (or `token=<v>` and later cookies) yields the trimmed `v`. */
  lemma LeadingTokenCookie(v: string, rest: string)
    requires v != [] && forall i :: 0 <= i < |v| ==> v[i] != ';'
    requires rest == [] || rest[0] == ';'
    ensures CookieValue(TokenPrefix + v + rest) == Trim(v)
  {
    var h := TokenPrefix + v + rest;
    assert h[|TokenPrefix|..] == v + rest;
    FirstMatchWins(h, 0, v, rest);
  }

  /**
    The first pattern is not anchored: a cookie named `xtoken` shadows every
    cookie after it, the real session cookie included (`rest` may be
    `"; token=" + Secret(cfg)`).
   */
  lemma LookalikeCookieShadows(cfg: Config, v: string, rest: string)
    requires Secret(cfg) != "" && v != Secret(cfg)
    requires v != [] && IsTrimmed(v) && forall i :: 0 <= i < |v| ==> v[i] != ';'
    requires rest == [] || rest[0] == ';'
    ensures !VerifyPassword("x" + TokenPrefix + v + rest, cfg)
  {
    var h := "x" + TokenPrefix + v + rest;
    assert h[1..7] == TokenPrefix && h[7..] == v + rest;
    assert h[0] == 'x';
    FirstMatchWins(h, 1, v, rest);
    TrimFixedPoint(v);
  }

  // ---------------------------------------------------------------------------
  // The API token

  /** The Authorization header with a leading `Bearer ` removed, if present. */
  function WithoutBearer(header: string): string {
    if StartsWith(header, "Bearer ") then header[7..] else header
  }

  /**
    `verifyApiToken`: an API token is configured and the header, without a
    leading `Bearer ` and trimmed, is exactly that token. A token with
    whitespace at either end can therefore never be presented.
   */
  function VerifyApiToken(header: string, apiToken: string): (ok: bool)
    ensures ok ==> apiToken != "" && IsTrimmed(apiToken)
    ensures ok ==> Unpadded(WithoutBearer(header), apiToken)
  {
    TrimCutsPadding(WithoutBearer(header));
    apiToken != "" && Trim(WithoutBearer(header)) == apiToken
  }

  /** `Bearer <token>`, with any whitespace around the token, is accepted. */
  lemma BearerTokenAccepted(token: string, w1: string, w2: string)
    requires token != "" && IsTrimmed(token)
    requires AllWhitespace(w1) && AllWhitespace(w2)
    ensures VerifyApiToken("Bearer " + w1 + token + w2, token)
  {
    var h := "Bearer " + w1 + token + w2;
    assert h[..7] == "Bearer " && h[7..] == w1 + token + w2;
    assert WithoutBearer(h) == w1 + token + w2;
    TrimPadded(w1, token, w2);
  }

  /** The raw token, with any whitespace around it, is accepted too. */
  lemma RawTokenAccepted(token: string, w1: string, w2: string)
    requires token != "" && IsTrimmed(token)
    requires AllWhitespace(w1) && AllWhitespace(w2)
    requires !StartsWith(w1 + token + w2, "Bearer ")
    ensures VerifyApiToken(w1 + token + w2, token)
  {
    TrimPadded(w1, token, w2);
  }

  // ---------------------------------------------------------------------------
  // createAuthRedirect

  /** The session token a login issues: the secret itself when its UTF-16 length is under 20, else a fresh UUID. */
  function IssuedToken(secret: string, uuid: string): string {
    if Utf16Length(secret) < 20 then secret else uuid
  }

  // ---------------------------------------------------------------------------
  // handleAuth

  datatype Decision = Allowed | Halt(response: Response)

  /** The path is under `<base>/api/`, compared case-sensitively against the un-lowercased base. */
  predicate IsApiTokenPath(path: string, cfg: Config) {
    Contains(path, "/api/") && StartsWith(path, cfg.NormalizedBase() + "/api/")
  }

  /** `handleAuth`: Allowed, or the response that ends the request. */
  function Authorize(req: Request, cfg: Config, uuid: string): Decision {
    if IsApiTokenPath(req.path, cfg) then
      if VerifyApiToken(req.authorization, cfg.apiToken) then Allowed
      else Halt(Response(401, JsonError(ApiTokenRejected)))
    else if VerifyPassword(req.cookie, cfg) then Allowed
    else if req.verb == "POST" then Halt(LoginResponse(req.path, req.loginPassword, cfg, uuid))
    else Halt(Challenge(req.path))
  }

  /**
    The answer to a login POST without a valid session: JSON on `/api/login`
    paths, the form flow otherwise. With no secret configured the expected
    password is `undefined`, which no submitted string equals.
   */
  function LoginResponse(path: string, password: Option<string>, cfg: Config, uuid: string): Response {
    var isApiLogin := Contains(path, "/api/login");
    match password
    case None =>
      if isApiLogin then Response(400, JsonError(LoginRequestFailed))
      else Response(400, LoginForm(true))
    case Some(raw) =>
      if Secret(cfg) != "" && Trim(raw) == Secret(cfg) then
        if isApiLogin then Response(200, JsonSuccess)
        else Response(302, Redirect(cfg.NormalizedBase(), IssueToken(IssuedToken(Secret(cfg), uuid))))
      else if isApiLogin then Response(401, JsonError(WrongPassword))
      else Response(401, LoginForm(true))
  }

  /** The 401 challenge to any other unauthenticated request. */
  function Challenge(path: string): (r: Response)
    ensures r.status == 401
  {
    if Contains(path, "/api/") then Response(401, JsonError(AuthRequired))
    else Response(401, LoginForm(false))
  }

  /** A login succeeds (200 or 302) exactly when a secret is configured and the trimmed password is that secret; 302 carries the issued token. */
  lemma LoginResponseShape(path: string, password: Option<string>, cfg: Config, uuid: string)
    ensures var r := LoginResponse(path, password, cfg, uuid);
            r.status in {200, 302} <==> password.Some? && Secret(cfg) != "" && Trim(password.value) == Secret(cfg)
    ensures var r := LoginResponse(path, password, cfg, uuid);
            r.status == 302 ==> r.body == Redirect(cfg.NormalizedBase(), IssueToken(IssuedToken(Secret(cfg), uuid)))
    ensures var r := LoginResponse(path, password, cfg, uuid);
            r.status in {200, 302} ==> (r.status == 200 <==> Contains(path, "/api/login"))
    ensures var r := LoginResponse(path, password, cfg, uuid);
            password.None? ==> r.status == 400
    ensures var r := LoginResponse(path, password, cfg, uuid);
            password.Some? && (Secret(cfg) == "" || Trim(password.value) != Secret(cfg)) ==> r.status == 401
  {
  }

  // ---------------------------------------------------------------------------
  // Properties of the guard

  /**
    A path under `<base>/api/` is decided by the API token alone: the cookie,
    the method and the login body play no part, and failure is a 401 JSON error.
   */
  lemma ApiPathNeverFallsBack(req: Request, cfg: Config, uuid: string)
    requires StartsWith(req.path, cfg.NormalizedBase() + "/api/")
    ensures Authorize(req, cfg, uuid)
            == if VerifyApiToken(req.authorization, cfg.apiToken) then Allowed
               else Halt(Response(401, JsonError(ApiTokenRejected)))
  {
    var nb := cfg.NormalizedBase();
    var prefix := nb + "/api/";
    assert StartsWith(prefix[|nb|..], "/api/");
    PrefixContained(req.path, prefix, "/api/");
  }

  /** With no API token configured, nothing under `<base>/api/` is ever allowed, even without a secret. */
  lemma ApiPathNeedsApiToken(req: Request, cfg: Config, uuid: string)
    requires StartsWith(req.path, cfg.NormalizedBase() + "/api/") && cfg.apiToken == ""
    ensures Authorize(req, cfg, uuid) == Halt(Response(401, JsonError(ApiTokenRejected)))
  {
    ApiPathNeverFallsBack(req, cfg, uuid);
  }

  /**
    A request is let through exactly when it carries a valid credential for
    its kind of path: the API token under `<base>/api/`, the session cookie
    elsewhere (any secret at all when none is configured).
   */
  lemma AllowedOnlyWithCredential(req: Request, cfg: Config, uuid: string)
    ensures Authorize(req, cfg, uuid) == Allowed
            <==> if IsApiTokenPath(req.path, cfg) then VerifyApiToken(req.authorization, cfg.apiToken)
                 else VerifyPassword(req.cookie, cfg)
    ensures Authorize(req, cfg, uuid) == Allowed && IsApiTokenPath(req.path, cfg) ==> cfg.apiToken != ""
    ensures Authorize(req, cfg, uuid) == Allowed && !IsApiTokenPath(req.path, cfg)
            ==> Secret(cfg) == "" || CookieValue(req.cookie) == Secret(cfg)
  {
  }

  /**
    Only a POST carrying the configured secret (after trimming) logs in, and
    only when a secret is configured: a 200 JSON reply on a `/api/login`
    path, a 302 to the base path with the session cookie otherwise.
   */
  lemma LoginSucceedsOnlyWithSecret(req: Request, cfg: Config, uuid: string)
    requires Authorize(req, cfg, uuid).Halt?
    requires Authorize(req, cfg, uuid).response.status in {200, 302}
    ensures req.verb == "POST" && !IsApiTokenPath(req.path, cfg)
    ensures Secret(cfg) != "" && req.loginPassword == Some(req.loginPassword.value)
    ensures Trim(req.loginPassword.value) == Secret(cfg)
    ensures Authorize(req, cfg, uuid).response.status == 200 <==> Contains(req.path, "/api/login")
  {
    NonChallengeHaltIsLogin(req, cfg, uuid);
    LoginResponseShape(req.path, req.loginPassword, cfg, uuid);
  }

  /** A halt with a status other than 401 comes from a login POST. */
  lemma NonChallengeHaltIsLogin(req: Request, cfg: Config, uuid: string)
    requires Authorize(req, cfg, uuid).Halt? && Authorize(req, cfg, uuid).response.status != 401
    ensures req.verb == "POST" && !IsApiTokenPath(req.path, cfg) && !VerifyPassword(req.cookie, cfg)
    ensures Authorize(req, cfg, uuid).response == LoginResponse(req.path, req.loginPassword, cfg, uuid)
  {
  }

  /** A POST whose password differs from the secret gets 401; one whose body is unreadable gets 400. */
  lemma FailedLoginRejected(req: Request, cfg: Config, uuid: string)
    requires !IsApiTokenPath(req.path, cfg) && !VerifyPassword(req.cookie, cfg) && req.verb == "POST"
    ensures req.loginPassword.None? ==> Authorize(req, cfg, uuid).response.status == 400
    ensures req.loginPassword.Some? && Trim(req.loginPassword.value) != Secret(cfg)
            ==> Authorize(req, cfg, uuid).response.status == 401
  {
    assert Authorize(req, cfg, uuid) == Halt(LoginResponse(req.path, req.loginPassword, cfg, uuid));
    LoginResponseShape(req.path, req.loginPassword, cfg, uuid);
  }

  /** A secret with whitespace at either end can never be typed in: the submitted password is trimmed. */
  lemma UntrimmedSecretCannotLogIn(req: Request, cfg: Config, uuid: string)
    requires !IsTrimmed(Secret(cfg))
    requires Authorize(req, cfg, uuid).Halt?
    ensures Authorize(req, cfg, uuid).response.status != 302
  {
    if Authorize(req, cfg, uuid).response.status != 401 {
      NonChallengeHaltIsLogin(req, cfg, uuid);
      LoginResponseShape(req.path, req.loginPassword, cfg, uuid);
    }
  }

  /** An unauthenticated request that is not a POST gets the 401 challenge: JSON on `/api/` paths, the login page otherwise. */
  lemma UnauthenticatedChallenge(req: Request, cfg: Config, uuid: string)
    requires !IsApiTokenPath(req.path, cfg) && !VerifyPassword(req.cookie, cfg) && req.verb != "POST"
    ensures Contains(req.path, "/api/") ==> Authorize(req, cfg, uuid) == Halt(Response(401, JsonError(AuthRequired)))
    ensures !Contains(req.path, "/api/") ==> Authorize(req, cfg, uuid) == Halt(Response(401, LoginForm(false)))
  {
  }

  /** With no secret configured every path outside `<base>/api/` is allowed. */
  lemma NoSecretAllowsPages(req: Request, cfg: Config, uuid: string)
    requires Secret(cfg) == "" && !StartsWith(req.path, cfg.NormalizedBase() + "/api/")
    ensures Authorize(req, cfg, uuid) == Allowed
  {
  }

  /**
    Login round trip: when a form login answers with the redirect, and the
    secret is short, has no `;` and no whitespace at its ends, sending the
    issued cookie back lets any later request outside `<base>/api/` through.
   */
  lemma LoginCookieAuthorizes(req: Request, cfg: Config, uuid: string, location: string, token: string,
                               next: Request, rest: string)
    requires Authorize(req, cfg, uuid) == Halt(Response(302, Redirect(location, IssueToken(token))))
    requires Utf16Length(Secret(cfg)) < 20 && IsTrimmed(Secret(cfg))
    requires forall i :: 0 <= i < |Secret(cfg)| ==> Secret(cfg)[i] != ';'
    requires next.cookie == TokenPrefix + token + rest
    requires rest == [] || rest[0] == ';'
    requires !IsApiTokenPath(next.path, cfg)
    ensures Authorize(next, cfg, uuid) == Allowed
  {
    var s := Secret(cfg);
    FormLoginRedirect(req, cfg, uuid);
    LoginSucceedsOnlyWithSecret(req, cfg, uuid);
    LeadingTokenCookie(s, rest);
    TrimFixedPoint(s);
  }

  /**
    The session cookie need not come first: after other cookies that hold no
    `token=` (as in `theme=dark; token=<secret>`), a secret that is trimmed and
    has no `;` still lets a request off the API prefix through.
   */
  lemma CookieAmongOthersAuthorizes(req: Request, cfg: Config, uuid: string, before: string, rest: string)
    requires IsTrimmed(Secret(cfg)) && forall i :: 0 <= i < |Secret(cfg)| ==> Secret(cfg)[i] != ';'
    requires !Contains(before, TokenPrefix)
    requires rest == [] || rest[0] == ';'
    requires req.cookie == before + "; " + TokenPrefix + Secret(cfg) + rest
    requires !IsApiTokenPath(req.path, cfg)
    ensures Authorize(req, cfg, uuid) == Allowed
  {
    var s := Secret(cfg);
    if s != "" {
      var h, sep, tail := req.cookie, before + "; ", TokenPrefix + s + rest;
      var n := |sep|;
      assert h == sep + tail;
      assert h[n..] == tail;
      assert h[n..n + |TokenPrefix|] == tail[..|TokenPrefix|] == TokenPrefix;
      assert h[n + |TokenPrefix|..] == tail[|TokenPrefix|..] == s + rest;
      assert h[..n] == sep;
      NoMatchBeforeSeparator(before, h);
      FirstMatchWins(h, n, s, rest);
      TrimFixedPoint(s);
    }
  }

  /** No match starts in `before` or in the `; ` that follows it. */
  lemma NoMatchBeforeSeparator(before: string, h: string)
    requires !Contains(before, TokenPrefix)
    requires |before| + 2 <= |h| && h[..|before| + 2] == before + "; "
    ensures forall k :: 0 <= k < |before| + 2 ==> !MatchesAt(h, k)
  {
    forall k | 0 <= k < |before| + 2
      ensures !MatchesAt(h, k)
    {
      if k + |TokenPrefix| < |h| {
        if k + |TokenPrefix| <= |before| {
          forall j | k <= j < k + |TokenPrefix|
            ensures h[j] == before[j]
          {
            assert h[j] == h[..|before| + 2][j];
          }
          assert !StartsWith(before[k..], TokenPrefix);
          assert before[k..][..|TokenPrefix|] == h[k..k + |TokenPrefix|];
        } else if k <= |before| {
          assert h[k..k + |TokenPrefix|][|before| - k] == h[|before|] == ';';
        } else {
          assert h[k..k + |TokenPrefix|][0] == h[k] == ' ';
        }
      }
    }
  }

  /** The 302 of a form login redirects to the base path and issues the session token. */
  lemma FormLoginRedirect(req: Request, cfg: Config, uuid: string)
    requires Authorize(req, cfg, uuid).Halt? && Authorize(req, cfg, uuid).response.status == 302
    ensures Authorize(req, cfg, uuid).response.body
            == Redirect(cfg.NormalizedBase(), IssueToken(IssuedToken(Secret(cfg), uuid)))
  {
    NonChallengeHaltIsLogin(req, cfg, uuid);
    LoginResponseShape(req.path, req.loginPassword, cfg, uuid);
  }

  /**
    For a secret of 20 or more UTF-16 units the issued cookie holds the UUID,
    which `verifyPassword` compares against the secret and so rejects: such a
    login does not survive to the next request.
   */
  lemma LongSecretCookieRejected(cfg: Config, uuid: string)
    requires Utf16Length(Secret(cfg)) >= 20
    requires uuid != "" && IsTrimmed(uuid) && uuid != Secret(cfg)
    requires forall i :: 0 <= i < |uuid| ==> uuid[i] != ';'
    ensures IssuedToken(Secret(cfg), uuid) == uuid
    ensures !VerifyPassword(TokenPrefix + IssuedToken(Secret(cfg), uuid), cfg)
  {
    LeadingTokenCookie(uuid, []);
    assert TokenPrefix + uuid + [] == TokenPrefix + uuid;
    TrimFixedPoint(uuid);
  }

  /**
    With the default base `/` the API-token prefix is `//api/`: outside it
    the Authorization header never changes the decision.
   */
  lemma DefaultBaseIgnoresApiToken(req: Request, cfg: Config, uuid: string, header: string)
    requires cfg.homeUrl == "" && !StartsWith(req.path, "//api/")
    ensures Authorize(req, cfg, uuid) == Authorize(req.(authorization := header), cfg, uuid)
  {
    assert cfg.NormalizedBase() + "/api/" == "//api/";
    HeaderOnlyForApiPaths(req, cfg, uuid, header);
  }

  /** With the default base the API-token prefix is `//api/`. */
  lemma DefaultBaseApiTokenPrefix(path: string, cfg: Config)
    requires cfg.homeUrl == ""
    ensures IsApiTokenPath(path, cfg) ==> StartsWith(path, "//api/")
  {
    assert cfg.NormalizedBase() + "/api/" == "//api/";
  }

  /** Outside `<base>/api/` the Authorization header plays no part in the decision. */
  lemma HeaderOnlyForApiPaths(req: Request, cfg: Config, uuid: string, header: string)
    requires !StartsWith(req.path, cfg.NormalizedBase() + "/api/")
    ensures Authorize(req, cfg, uuid) == Authorize(req.(authorization := header), cfg, uuid)
  {
  }

  /**
    The API-token test is case-sensitive while routing is not: under base
    `/board`, `/Board/api/announcements` is decided by the cookie, so with no
    secret configured it is allowed without any API token.
   */
  lemma CaseVariantSkipsApiToken(req: Request, cfg: Config, uuid: string)
    requires cfg.homeUrl == "/board" && Secret(cfg) == ""
    requires req.path == "/Board/api/announcements"
    ensures Authorize(req, cfg, uuid) == Allowed
  {
    assert req.path[1] != (cfg.NormalizedBase() + "/api/")[1];
  }
}
