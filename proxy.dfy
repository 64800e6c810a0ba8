/**
 * The edge route guard of src/proxy.ts: a pure decision over the requested
 * pathname and the `token` cookie the request carries.
 */
module Proxy {
  import opened Wrappers
  import opened JsStrings
  import opened Routes
  import Session

  // ---------------------------------------------------------------------------
  // The token's syntactic check, /^[A-Za-z0-9-_=]+\.[A-Za-z0-9-_=]+\.?[A-Za-z0-9-_.+/=]*$/
  // ---------------------------------------------------------------------------

  /** The character class `[A-Za-z0-9-_=]`. */
  predicate IsSegmentChar(c: char) {
    ('A' <= c <= 'Z') || ('a' <= c <= 'z') || ('0' <= c <= '9') || c == '-' || c == '_' || c == '='
  }

  /** The character class `[A-Za-z0-9-_.+/=]`, a superset of the one above. */
  predicate IsTailChar(c: char) {
    IsSegmentChar(c) || c == '.' || c == '+' || c == '/'
  }

  predicate AllSegmentChars(s: string) {
    forall i :: 0 <= i < |s| ==> IsSegmentChar(s[i])
  }

  predicate AllTailChars(s: string) {
    forall i :: 0 <= i < |s| ==> IsTailChar(s[i])
  }

  /** The index of the first '.' in `s`, if any. */
  function FirstDot(s: string): (r: Option<nat>)
    ensures r.Some? ==> r.value < |s| && s[r.value] == '.'
    ensures r.Some? ==> forall i :: 0 <= i < r.value ==> s[i] != '.'
    ensures r.None? ==> forall i :: 0 <= i < |s| ==> s[i] != '.'
  {
    if s == [] then None
    else if s[0] == '.' then Some(0)
    else match FirstDot(s[1..])
      case None => None
      case Some(i) => Some(i + 1)
  }

  /**
   * `isValidJwtStructure(token)`, written as a scan: the part before the first
   * dot is a non-empty run of segment characters, and the part after it starts
   * with a segment character and holds only tail characters.
   */
  predicate IsValidJwtStructure(token: string) {
    match FirstDot(token)
    case None => false
    case Some(i) =>
      && 0 < i
      && AllSegmentChars(token[..i])
      && i + 1 < |token|
      && IsSegmentChar(token[i + 1])
      && AllTailChars(token[i + 1..])
  }

  /**
   * One way for `s` to match the regular expression: `s[..i]` matches the
   * first `[..]+`, `s[i]` is the literal dot, `s[i+1..j]` the second `[..]+`,
   * `s[j..k]` the optional dot and `s[k..]` the final `[..]*`.
   */
  ghost predicate PatternSplit(s: string, i: int, j: int, k: int) {
    && 0 < i && i + 1 < j && j <= k <= |s|
    && AllSegmentChars(s[..i])
    && s[i] == '.'
    && AllSegmentChars(s[i + 1..j])
    && (k == j || (k == j + 1 && s[j] == '.'))
    && AllTailChars(s[k..])
  }

  /** What the regular expression accepts, read off its structure. */
  ghost predicate MatchesJwtPattern(s: string) {
    exists i, j, k :: PatternSplit(s, i, j, k)
  }

  /** A run of segment characters is also a run of tail characters. */
  lemma SegmentIsTail(t: string)
    requires AllSegmentChars(t)
    ensures AllTailChars(t)
  {
  }

  /** Every suffix of a run of tail characters is one. */
  lemma TailSuffix(s: string, a: nat, b: nat)
    requires a <= b <= |s| && AllTailChars(s[a..])
    ensures AllTailChars(s[b..])
  {
  }

  /** Tail runs on both sides of a point join into one. */
  lemma TailJoin(s: string, a: nat, b: nat)
    requires a <= b <= |s| && AllTailChars(s[a..b]) && AllTailChars(s[b..])
    ensures AllTailChars(s[a..])
  {
  }

  /** The hand-written scan accepts exactly the strings the regular expression accepts. */
  lemma JwtStructureIsPattern(s: string)
    ensures IsValidJwtStructure(s) <==> MatchesJwtPattern(s)
  {
    if IsValidJwtStructure(s) {
      var i := FirstDot(s).value;
      assert AllSegmentChars(s[i + 1..i + 2]);
      TailSuffix(s, i + 1, i + 2);
      assert PatternSplit(s, i, i + 2, i + 2);
    }
    if MatchesJwtPattern(s) {
      var i, j, k :| PatternSplit(s, i, j, k);
      // The first segment holds no dot, so s[i] is the first dot.
      var head := s[..i];
      assert forall m :: 0 <= m < i ==> s[m] == head[m];
      assert FirstDot(s) == Some(i);
      assert s[i + 1] == s[i + 1..j][0];
      SegmentIsTail(s[i + 1..j]);
      if k == j + 1 {
        assert s[j..k] == ".";
        TailJoin(s, j, k);
      }
      TailJoin(s, i + 1, j);
    }
  }

  /** Two segments are enough and three are usual; dots may repeat after the first one. */
  lemma WellFormedTokens()
    ensures IsValidJwtStructure("a.b")
    ensures IsValidJwtStructure("hd.pl.sg")
    ensures IsValidJwtStructure("a.b.c.d")
  {
  }

  /** No dot, an empty first segment, an empty or dot-led second part, and the empty string are refused. */
  lemma MalformedTokens()
    ensures !IsValidJwtStructure("")
    ensures !IsValidJwtStructure("abc")
    ensures !IsValidJwtStructure(".b")
    ensures !IsValidJwtStructure("a.")
    ensures !IsValidJwtStructure("a..b")
  {
  }

  // ---------------------------------------------------------------------------
  // Path classification and the decision
  // ---------------------------------------------------------------------------

  /** What the guard reads of a navigation request. */
  datatype Request = Request(pathname: string, cookies: map<string, string>)

  /** Where a redirect goes: a pathname on the same origin and the `callbackUrl` query value, if any. */
  datatype Location = Location(path: string, callbackUrl: Option<string>)

  /** `NextResponse.next()` or `NextResponse.redirect(url)`. */
  datatype Decision = Next | Redirect(to: Location)

  /** `request.cookies.get('token')?.value`. */
  function RawToken(request: Request): Option<string> {
    if Session.TOKEN_KEY in request.cookies then Some(request.cookies[Session.TOKEN_KEY]) else None
  }

  /** `rawToken && isValidJwtStructure(rawToken)`: an absent or empty cookie is falsy. */
  predicate HasValidToken(rawToken: Option<string>) {
    IsTruthy(rawToken) && IsValidJwtStructure(rawToken.value)
  }

  predicate IsProtectedPath(pathname: string) {
    pathname in PROTECTED_ROUTES || SomeStartsWith(pathname, PROTECTED_PREFIXES)
  }

  predicate IsAuthOnlyPath(pathname: string) {
    pathname in AUTH_ONLY_ROUTES
  }

  /** `proxy(request)`. */
  function Guard(request: Request): Decision {
    var hasValidToken := HasValidToken(RawToken(request));
    if IsProtectedPath(request.pathname) && !hasValidToken then
      Redirect(Location(LOGIN, Some(request.pathname)))
    else if IsAuthOnlyPath(request.pathname) && hasValidToken then
      Redirect(Location(FEED, None))
    else
      Next
  }

  // ---------------------------------------------------------------------------
  // Properties of the classification
  // ---------------------------------------------------------------------------

  /** Under the guard's classification no path is both protected and auth-only. */
  lemma ClassesDisjoint(pathname: string)
    ensures !(IsProtectedPath(pathname) && IsAuthOnlyPath(pathname))
  {
    if IsAuthOnlyPath(pathname) {
      assert pathname == "/login" || pathname == "/register";
      assert pathname[..4] != "/me/" by {
        assert pathname[1] != "/me/"[1];
      }
      assert !StartsWith(pathname, PROTECTED_PREFIXES[0]);
    }
  }

  /** Exact protected routes, the `/me/` prefix, and a near miss that is neither. */
  lemma ClassificationExamples()
    ensures IsProtectedPath("/") && IsProtectedPath("/feed") && IsProtectedPath("/me")
    ensures IsProtectedPath("/me/x")
    ensures !IsProtectedPath("/meX") && !IsAuthOnlyPath("/meX")
    ensures IsAuthOnlyPath("/login") && IsAuthOnlyPath("/register")
    ensures !IsProtectedPath("/some/public") && !IsAuthOnlyPath("/some/public")
  {
    assert StartsWith("/me/x", PROTECTED_PREFIXES[0]);
    assert "/meX"[..4] != "/me/" by { assert "/meX"[3] != "/me/"[3]; }
    assert "/some/public"[..4] != "/me/" by { assert "/some/public"[1] != "/me/"[1]; }
  }

  // ---------------------------------------------------------------------------
  // Properties of the decision
  // ---------------------------------------------------------------------------

  /** A missing, an empty and a malformed cookie lead to the same decision. */
  lemma MalformedTokenIsAbsent(pathname: string, cookies: map<string, string>, token: string)
    requires !IsValidJwtStructure(token)
    ensures Guard(Request(pathname, cookies[Session.TOKEN_KEY := token]))
         == Guard(Request(pathname, cookies[Session.TOKEN_KEY := ""]))
         == Guard(Request(pathname, cookies - {Session.TOKEN_KEY}))
  {
  }

  /** A protected path without a valid token goes to the login page, carrying the path back. */
  lemma ProtectedNeedsToken(request: Request)
    requires IsProtectedPath(request.pathname)
    ensures Guard(request) == Next <==> HasValidToken(RawToken(request))
    ensures !HasValidToken(RawToken(request)) ==>
      Guard(request) == Redirect(Location(LOGIN, Some(request.pathname)))
  {
    ClassesDisjoint(request.pathname);
  }

  /** An auth-only path with a valid token goes to the feed; without one it is shown. */
  lemma AuthOnlyNeedsNoToken(request: Request)
    requires IsAuthOnlyPath(request.pathname)
    ensures Guard(request) == (if HasValidToken(RawToken(request)) then Redirect(Location(FEED, None)) else Next)
  {
    ClassesDisjoint(request.pathname);
  }

  /** Every redirect is caused by a classified path: everything else passes, whatever the token. */
  lemma UnclassifiedPasses(request: Request)
    ensures Guard(request).Redirect? ==> IsProtectedPath(request.pathname) || IsAuthOnlyPath(request.pathname)
    ensures Guard(request).Redirect? && Guard(request).to.path == LOGIN ==> !HasValidToken(RawToken(request))
    ensures Guard(request).Redirect? && Guard(request).to.path == FEED ==> HasValidToken(RawToken(request))
  {
  }

  /** Following a redirect with the same cookies is never redirected again. */
  lemma NoRedirectLoop(request: Request)
    requires Guard(request).Redirect?
    ensures Guard(Request(Guard(request).to.path, request.cookies)) == Next
  {
    var target := Guard(request).to.path;
    ClassesDisjoint(target);
    if target == LOGIN {
      assert IsAuthOnlyPath(LOGIN);
    } else {
      assert target == FEED;
      assert FEED in PROTECTED_ROUTES;
    }
  }

  /** The redirect matrix for signed-out navigations. */
  lemma SignedOutExamples()
    ensures Guard(Request("/feed", map[])) == Redirect(Location("/login", Some("/feed")))
    ensures Guard(Request("/me/settings", map["token" := "abc"]))
         == Redirect(Location("/login", Some("/me/settings")))
    ensures Guard(Request("/login", map[])) == Next
    ensures Guard(Request("/some/public", map[])) == Next
  {
    ClassificationExamples();
    MalformedTokens();
    assert RawToken(Request("/feed", map[])) == None;
    assert RawToken(Request("/me/settings", map["token" := "abc"])) == Some("abc");
    assert StartsWith("/me/settings", PROTECTED_PREFIXES[0]);
    ProtectedNeedsToken(Request("/feed", map[]));
    ProtectedNeedsToken(Request("/me/settings", map["token" := "abc"]));
    AuthOnlyNeedsNoToken(Request("/login", map[]));
  }

  /** The redirect matrix for navigations that carry a well-formed token. */
  lemma SignedInExamples(token: string)
    requires IsValidJwtStructure(token)
    ensures Guard(Request("/login", map["token" := token])) == Redirect(Location("/feed", None))
    ensures Guard(Request("/feed", map["token" := token])) == Next
    ensures Guard(Request("/some/public", map["token" := token])) == Next
  {
  }
}
