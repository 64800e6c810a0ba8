# Session logic of a Next.js social client, modelled in Dafny

This project models the session logic of a small Next.js client application
and proves properties of it. Everything else in the application is
presentation. The modelled parts share one piece of state, the `token`
cookie:

- **Route guard** (`src/proxy.ts`, `src/config/routes.ts`). On every page
  navigation the guard checks the shape of the `token` cookie and classifies
  the path as protected, auth-only or neither. It then redirects to
  `/login?callbackUrl=<path>`, redirects to `/feed`, or lets the request
  through. It is modelled as the function `Proxy.Guard`. The token check is a
  regular expression. It is modelled two ways: as a hand-written scan, and as
  a predicate read off the expression's structure. A lemma shows the two agree.
- **HTTP client interceptors** (`src/lib/api/client.ts`). The request side
  injects `Authorization: Bearer <token>`. The response side normalises the
  error message. On a 401 it removes the cookie and, unless the browser is
  already on an auth page, calls `location.replace` with a login URL. That
  URL carries the `encodeURIComponent`-encoded current path. The pure rules
  are functions (`WithBearer`, `NormalizeMessage`, `HandleError`). The effects
  are methods over a cookie jar object and a browser window object, and the
  window is `null` when none exists. `encodeURIComponent` is modelled in full
  as UTF-8 percent-encoding, along with an inverse used to prove it loses
  nothing.
- **Auth slice** (`src/store/slices/authSlice.ts`). The reducer is a function
  over `{user, isAuthenticated}`. The Immer draft it assigns to is a class
  whose two methods are tied to that function. Proved: the invariant
  `isAuthenticated <==> user != null`, idempotence of both actions, and
  "set then clear is the initial state".
- **Form validators** (`src/features/auth/validations/auth.ts`). The login and
  registration schemas are modelled as the lists of issues they report. The
  phone pattern `^(08|\+62|62)\d{8,13}` is modelled exactly, and it has no end
  anchor.
- **Session cookie** (`src/features/auth/api/session.ts`). `setSession` and
  `clearSession` are methods over the cookie jar. Each one is specified by a
  function on the cookie map.
- **Cross-module lemmas** (`SessionFlow`). These connect login and logout to
  what the interceptor sends and what the guard decides.

Files: `wrappers.dfy`, `strings.dfy` (JavaScript `startsWith`, `some`, UTF-16
`length`), `routes.dfy`, `proxy.dfy`, `uri.dfy`, `cookies.dfy`,
`session.dfy`, `client.dfy`, `auth_slice.dfy`, `validations.dfy`,
`session_flow.dfy`.

## Behaviour worth noting

- Every 401 removes the token, a failed login request included
  (`src/lib/api/client.ts:87-88`). No authentication endpoint is exempt. See
  `ApiClient.FailedLoginStillClearsToken`.
- The token check accepts two-segment tokens such as `a.b`, because the second
  dot of the pattern is optional (`src/proxy.ts:11`).
- Without a token the request interceptor leaves every header as it is,
  including an `Authorization` header the caller set itself
  (`src/lib/api/client.ts:38-40`, `ApiClient.WithBearer`).

## Model

| member | source | states |
|---|---|---|
| JsStrings.IsTruthy | src/proxy.ts:18 | JavaScript truthiness of a possibly `undefined` string, shared by the guard and the request interceptor (`src/lib/api/client.ts:38`); no contract of its own, specified through `ApiClient.WithBearer` and `Proxy.MalformedTokenIsAbsent` |
| JsStrings.SomeStartsWith | src/proxy.ts:22 | `prefixes.some(p => s.startsWith(p))` is true exactly when some element of the array is a prefix of `s` |
| Routes.TablesDisjoint | src/config/routes.ts:1-18 | the auth-only and protected route sets are disjoint; `/feed` is protected and not auth-only; the home path `/` is protected |
| Proxy.JwtStructureIsPattern | src/proxy.ts:10-12 | the hand-written check accepts a token exactly when the regular expression, read as first segment, dot, second segment, optional dot and tail, can match it (both directions) |
| Proxy.IsValidJwtStructure | src/proxy.ts:10-12 | the token-shape test; no contract of its own, specified by `Proxy.JwtStructureIsPattern` (agreement with the regular expression) and by `Proxy.WellFormedTokens` and `Proxy.MalformedTokens` |
| Proxy.WellFormedTokens | src/proxy.ts:11 | `a.b` (two segments), `hd.pl.sg` and `a.b.c.d` are accepted |
| Proxy.MalformedTokens | src/proxy.ts:11 | the empty string, a token with no dot, an empty first segment, an empty second part and a dot right after the first dot are all rejected |
| Proxy.RawToken | src/proxy.ts:17 | the `token` cookie of the request, if any; no contract of its own, specified by `Proxy.MalformedTokenIsAbsent` and `SessionFlow.LogoutThenGuardRedirects` |
| Proxy.HasValidToken | src/proxy.ts:18 | `rawToken && isValidJwtStructure(rawToken)`; no contract of its own, specified by `Proxy.MalformedTokenIsAbsent` (an empty, missing or malformed cookie is no valid token) |
| Proxy.IsProtectedPath | src/proxy.ts:20-22 | exact protected route or `/me/` prefix; no contract of its own, specified by `Proxy.ClassesDisjoint` and `Proxy.ClassificationExamples` |
| Proxy.IsAuthOnlyPath | src/proxy.ts:24 | exact auth-only route; no contract of its own, specified by `Proxy.ClassesDisjoint`, `Proxy.ClassificationExamples` and `SessionFlow.AuthOnlyRoutesAreAuthPages` |
| Proxy.Guard | src/proxy.ts:14-37 | the guard's decision; no contract of its own, specified by `Proxy.ProtectedNeedsToken`, `Proxy.AuthOnlyNeedsNoToken`, `Proxy.UnclassifiedPasses`, `Proxy.NoRedirectLoop` and `Proxy.MalformedTokenIsAbsent` |
| Proxy.ClassesDisjoint | src/config/routes.ts:9-20 | no path is both protected (exact or by the `/me/` prefix) and auth-only |
| Proxy.ClassificationExamples | src/proxy.ts:20-24 | `/`, `/feed`, `/me` and `/me/x` are protected; `/meX` is neither protected nor auth-only; `/login` and `/register` are auth-only; `/some/public` is unclassified |
| Proxy.MalformedTokenIsAbsent | src/proxy.ts:17-18 | a malformed cookie, an empty cookie and a missing cookie give the same decision on every path |
| Proxy.ProtectedNeedsToken | src/proxy.ts:26-30 | on a protected path the guard passes exactly when the token is valid; otherwise it redirects to `/login` with `callbackUrl` set to the original pathname |
| Proxy.AuthOnlyNeedsNoToken | src/proxy.ts:32-34 | on an auth-only path the guard redirects to `/feed` when the token is valid and passes otherwise |
| Proxy.UnclassifiedPasses | src/proxy.ts:26-36 | a redirect happens only on a classified path; a redirect to `/login` implies no valid token, and one to `/feed` implies a valid token |
| Proxy.NoRedirectLoop | src/proxy.ts:26-34 | following a redirect with the same cookies always passes: `/login` passes without a valid token and `/feed` passes with one |
| Proxy.SignedOutExamples | src/proxy.ts:14-37 | `/feed` with no cookie goes to `/login` with callback `/feed`; `/me/settings` with a malformed token goes to login; `/login` and `/some/public` with no cookie pass |
| Proxy.SignedInExamples | src/proxy.ts:14-37 | with a well-formed token, `/login` goes to `/feed`, while `/feed` and `/some/public` pass |
| UriComponent.Encode | src/lib/api/client.ts:95 | `encodeURIComponent`: the result is at least as long as the input and holds only unreserved characters and `%`, so it cannot end or split the query parameter |
| UriComponent.EncodeRoundTrip | src/lib/api/client.ts:95 | decoding the percent-escapes and then the UTF-8 gives back the original string, so no two paths share an encoding |
| UriComponent.EncodeUnreserved | src/lib/api/client.ts:95 | a string of unreserved characters encodes to itself |
| UriComponent.EncodeExample | src/lib/api/client.ts:95 | `/feed` encodes to `%2Ffeed` |
| ApiClient.WithBearer | src/lib/api/client.ts:36-40 | the headers object is kept or stays absent; no header other than `Authorization` changes; a non-empty token with headers present gives exactly `Bearer <token>`; a missing or empty token leaves the headers unchanged |
| ApiClient.WithBearerIdempotent | src/lib/api/client.ts:36-40 | running the request interceptor twice with the same cookie equals running it once |
| ApiClient.InterceptRequest | src/lib/api/client.ts:34-43 | returns the same config object; only its headers field may change, and the new headers are `WithBearer` of the old headers and the `token` cookie |
| ApiClient.NormalizeMessage | src/lib/api/client.ts:64-68 | the message is the payload message if non-empty, else the transport message if non-empty, else `An unexpected error occurred`; it is never empty |
| ApiClient.HandleError | src/lib/api/client.ts:55-98 | the rejected error carries the normalised message; the token is removed exactly on status 401; a redirect happens exactly on 401 with a window whose path is not an auth page, and it goes to `LoginRedirectUrl(path)` |
| ApiClient.IsAuthPage | src/lib/api/client.ts:90-91 | the prefix test against `/login`, `/register` and `/forgot-password`; no contract of its own, specified by `JsStrings.SomeStartsWith` and `ApiClient.AuthPageExamples` |
| ApiClient.LoginRedirectUrl | src/lib/api/client.ts:94-96 | the login URL with the encoded current path; no contract of its own, specified by `ApiClient.RedirectCarriesPath` and `ApiClient.RedirectPathIsLogin` |
| ApiClient.PathOf | src/lib/api/client.ts:94-96 | the path of a relative URL with no fragment (as the redirect URL is, since `Encode` escapes `#`) is the prefix of it up to its first `?`: it contains no `?`, and it is the whole URL or is followed by `?` |
| ApiClient.RedirectPathIsLogin | src/lib/api/client.ts:94-96 | whatever the current path, the path of the redirect URL is exactly `/login`, because the encoded path can hold no `?` |
| ApiClient.AuthPageExamples | src/lib/api/client.ts:90-91 | the auth-page test is a prefix test: `/login-help` and `/register/step-2` count; `/feed`, `/`, `/me` and the empty path do not |
| ApiClient.RedirectCarriesPath | src/lib/api/client.ts:94-96 | the redirect URL starts with `/login?` and its `callbackUrl` value decodes to the current path and contains no `&`, `#` or `?` |
| ApiClient.RedirectTargetIsAuthPage | src/lib/api/client.ts:90-97 | a 401 received on `/login`, the page the redirect leads to, causes no further redirect |
| ApiClient.OtherFailuresHaveNoSideEffects | src/lib/api/client.ts:104-108 | a failure with any status other than 401, 5xx included or with no response, removes no cookie and redirects nowhere; the status is kept |
| ApiClient.FailedLoginStillClearsToken | src/lib/api/client.ts:87-88 | a 401 from a failed login attempt made on `/login` still removes the token; it does not redirect |
| ApiClient.FeedRedirectUrl | src/lib/api/client.ts:94-96 | the redirect URL for `/feed` is `/login?callbackUrl=%2Ffeed` |
| ApiClient.ProfileUnauthorizedExample | src/lib/api/client.ts:64-97 | a 401 with payload message `Unauthorized` received on `/feed` removes the token, takes the payload message and redirects to `/login?callbackUrl=%2Ffeed` |
| ApiClient.InterceptResponse | src/lib/api/client.ts:52-110 | success resolves with the response unchanged and touches neither cookie nor window; a failure is rejected with the normalised error, and the cookie store and `location.replace` calls change exactly as `HandleError` says |
| ApiClient.UnauthorizedTwice | src/lib/api/client.ts:87-97 | two 401 responses handled in sequence leave the cookie store as one would; each is rejected with the error `HandleError` gives for the pathname at the start; the pathname does not change; the earlier `location.replace` calls stay as they were, and exactly two calls with the login URL for that page are appended unless the page is an auth page, in which case none is |
| Session.WithSession | src/features/auth/api/session.ts:10-16 | after `setSession(t)` the `token` cookie reads `t` and has a 7-day expiry, `secure` and `sameSite: strict`; every other cookie is unchanged |
| Session.WithoutSession | src/features/auth/api/session.ts:21-23 | after `clearSession()` the `token` cookie is absent; every other cookie is unchanged |
| Session.ClearSessionIdempotent | src/features/auth/api/session.ts:21-23 | clearing twice equals clearing once |
| Session.SetSessionLastWins | src/features/auth/api/session.ts:10-16 | a second `setSession` replaces the first entirely |
| Session.ClearUndoesSet | src/features/auth/api/session.ts:10-23 | `setSession` then `clearSession` leaves the same store as `clearSession` alone |
| Session.SetSession | src/features/auth/api/session.ts:10-16 | the jar's new store is `WithSession` of the old store |
| Session.ClearSession | src/features/auth/api/session.ts:21-23 | the jar's new store is `WithoutSession` of the old store |
| AuthSlice.Reduce | src/store/slices/authSlice.ts:28-37 | every result satisfies `isAuthenticated <==> user != null`; `setCredentials(u)` gives `user == u` and `isAuthenticated`; `clearCredentials` gives the initial state |
| AuthSlice.InitialStateConsistent | src/store/slices/authSlice.ts:17-20 | the initial state has no user, is not authenticated, and satisfies the invariant |
| AuthSlice.ReduceIdempotent | src/store/slices/authSlice.ts:29-36 | applying either action twice equals applying it once |
| AuthSlice.ReduceForgetsState | src/store/slices/authSlice.ts:29-36 | an action's result does not depend on the state it is applied to |
| AuthSlice.SetThenClearIsInitial | src/store/slices/authSlice.ts:17-36 | `setCredentials(u)` followed by `clearCredentials` yields the initial state |
| AuthSlice.ReachableConsistent | src/store/slices/authSlice.ts:12-36 | the invariant holds after any sequence of actions from a consistent state |
| AuthSlice.LastActionDecides | src/store/slices/authSlice.ts:28-37 | after a non-empty sequence of actions the state is determined by the last action alone |
| AuthSlice.AuthDraft.constructor | src/store/slices/authSlice.ts:17-20 | a fresh draft holds the initial state |
| AuthSlice.AuthDraft.SetCredentials | src/store/slices/authSlice.ts:29-32 | the draft's fields become what `Reduce` gives for `setCredentials(u)`, and the invariant holds |
| AuthSlice.AuthDraft.ClearCredentials | src/store/slices/authSlice.ts:33-36 | the draft's fields become the initial state |
| AuthValidation.LoginAcceptance | src/features/auth/validations/auth.ts:6-9 | a login is accepted exactly when the e-mail check passes and the password has at least 6 characters; a shorter password is reported with its message |
| AuthValidation.LoginIssues | src/features/auth/validations/auth.ts:6-9 | the issues `loginSchema` reports; no contract of its own, specified by `AuthValidation.LoginAcceptance` |
| AuthValidation.RegisterAcceptance | src/features/auth/validations/auth.ts:14-32 | a registration is accepted exactly when name has at least 2 characters, username at least 3, the e-mail check passes, the phone matches the pattern, the password has at least 6 characters and `confirmPassword` equals it |
| AuthValidation.RegisterFieldIssues | src/features/auth/validations/auth.ts:15-28 | the per-field issues of `registerSchema`; no contract of its own, specified by `AuthValidation.RegisterAcceptance` and `AuthValidation.PhoneLengthRuleRedundant` |
| AuthValidation.RegisterIssues | src/features/auth/validations/auth.ts:14-32 | the field issues followed by the refinement's issue; no contract of its own, specified by `AuthValidation.RegisterAcceptance` and `AuthValidation.MismatchReported` |
| AuthValidation.MismatchReported | src/features/auth/validations/auth.ts:29-32 | differing passwords always produce `Passwords don't match` on path `confirmPassword`, and the registration is rejected |
| AuthValidation.ConfirmPasswordLength | src/features/auth/validations/auth.ts:26-29 | an accepted registration's `confirmPassword` has at least 6 characters, through the equality |
| AuthValidation.PhonePatternIsRegex | src/features/auth/validations/auth.ts:22-25 | the phone check (one of `08`, `+62`, `62`, then 8 digits) agrees with the pattern's structure, where 8 to 13 digits follow the prefix (both directions) |
| AuthValidation.MatchesPhonePattern | src/features/auth/validations/auth.ts:22-25 | the phone pattern test; no contract of its own, specified by `AuthValidation.PhonePatternIsRegex`, `AuthValidation.PhonePatternImpliesMinLength`, `AuthValidation.PhonePatternIgnoresSuffix` and `AuthValidation.PhoneExamples` |
| AuthValidation.PhonePatternImpliesMinLength | src/features/auth/validations/auth.ts:19-25 | every phone the pattern accepts has length at least 10, so `min(10)` is implied |
| AuthValidation.PhoneLengthRuleRedundant | src/features/auth/validations/auth.ts:19-25 | whenever the length issue is reported for the phone, the pattern issue is reported too |
| AuthValidation.PhonePatternIgnoresSuffix | src/features/auth/validations/auth.ts:23 | with no end anchor, anything appended to an accepted phone keeps it accepted |
| AuthValidation.PhoneExamples | src/features/auth/validations/auth.ts:23 | `081234567890`, `+6281234567890`, `6281234567`, a 22-digit number and `0812345678 ext. 9` are accepted; `0712345678` and `081234567` are rejected |
| SessionFlow.LoginThenBearer | src/lib/api/client.ts:36-40 | once a non-empty token is stored by `setSession`, the outgoing `Authorization` header is exactly `Bearer <token>` |
| SessionFlow.LogoutThenNoBearer | src/lib/api/client.ts:36-40 | after `clearSession` the interceptor leaves every request's headers as they were |
| SessionFlow.LogoutThenGuardRedirects | src/proxy.ts:17-30 | after `clearSession`, every protected path redirects to `/login` with itself as callback, and `/login` is shown |
| SessionFlow.LoginThenGuardAdmits | src/proxy.ts:17-34 | after `setSession` with a well-formed token, protected paths pass and auth-only paths redirect to `/feed` |
| SessionFlow.AuthOnlyRoutesAreAuthPages | src/lib/api/client.ts:90-91 | every auth-only route of the guard is an auth page for the 401 rule |
| SessionFlow.UnauthorizedLandsOnLogin | src/lib/api/client.ts:87-97 | a 401 removes the token; received on a page that is not an auth page, it redirects to a URL whose path is `/login`, which the guard then lets through with the token gone; a further 401 there does not redirect |

## Left out

- The axios transport is not modelled: the base URL, the 10-second timeout, the default JSON headers, the network and the promise machinery. The interceptors receive how the call ended (`ApiClient.Outcome`).
- The development-only `console.error` logging and the 5xx `console.warn` are not modelled. They have no effect on state.
- ApiClient.NormalizeMessage: the payload's `message` is modelled as an optional string. A payload whose `message` is a truthy non-string value, such as a number or an object, is not represented.
- ApiClient.HandleError: the code overwrites `error.message` in place and rejects with the same object. The model returns the updated error as a value, so aliasing of that object is not captured.
- ApiClient.RedirectCarriesPath: `UriComponent.Decode` is an inverse that accepts ASCII input text only. It is not a model of `decodeURIComponent`.
- UriComponent.Encode: Dafny strings hold Unicode scalar values, so the `URIError` that `encodeURIComponent` throws on a lone surrogate cannot arise in the model.
- Proxy.Guard: the redirect target is a same-origin pathname plus the raw `callbackUrl` value. Building an absolute URL from `request.url` and form-encoding the parameter are left to the URL library and not modelled.
- The Next.js `config.matcher` is not modelled. It decides which requests reach the guard, and that is framework behaviour.
- The guard's "same inputs, same decision" property has no separate lemma. `Proxy.Guard` is a function of the pathname and the cookies, so the property holds by construction.
- Cookies: time is not modelled, so a cookie never expires in the model. `Cookies.RequestCookies` assumes a same-site request over a secure connection, so the `secure` and `sameSite` rules never hold a cookie back.
- AuthValidation: zod's e-mail check is the parameter `isEmail`. zod's type errors for non-string fields, its issue codes and its extra issue fields are not modelled. The refinement's issue is listed after the field issues, and the model assumes the refinement also runs when a string check has failed.
- The React hooks are not modelled: login, register, logout and session rehydration. Neither are the components, the store setup or the query client. They are wiring around the modelled operations. `logoutRequest` is `Session.ClearSession`. `useLogout` adds `location.replace('/login')`. The login form's default redirect to `/feed` when there is no `callbackUrl` is not modelled.
- The response envelope unwrapping in the login, register and get-me API wrappers is not modelled.
- The cookie jar and the browser window are independent parameters of `ApiClient.InterceptResponse`. In the browser the jar is `document.cookie`, which exists only when a window does; during server-side rendering `js-cookie` operations do nothing, and the model does not tie the jar to the window's presence.
- Concurrency is not modelled. Two 401 responses are handled one after the other (`ApiClient.UnauthorizedTwice`), not interleaved.
