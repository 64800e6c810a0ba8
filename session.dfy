/**
 * The session cookie (src/features/auth/api/session.ts): the token is kept
 * under a single cookie name, written once per login or registration and
 * removed on logout.
 */
module Session {
  import opened Wrappers
  import opened Cookies

  const TOKEN_KEY := "token"
  const TOKEN_EXPIRY_DAYS: nat := 7

  /** The options `setSession` passes: a 7-day lifetime, secure transport only, strict same-site policy. */
  const SESSION_ATTRIBUTES := Attributes(Some(TOKEN_EXPIRY_DAYS), true, Some(Strict))

  /** The cookie store after `setSession(token)`. */
  function WithSession(store: Store, token: string): (r: Store)
    ensures Lookup(r, TOKEN_KEY) == Some(token)
    ensures r[TOKEN_KEY].attributes == Attributes(Some(7), true, Some(Strict))
    ensures forall name :: name != TOKEN_KEY ==> (name in r <==> name in store)
    ensures forall name :: name != TOKEN_KEY && name in store ==> r[name] == store[name]
  {
    store[TOKEN_KEY := Cookie(token, SESSION_ATTRIBUTES)]
  }

  /** The cookie store after `clearSession()`. */
  function WithoutSession(store: Store): (r: Store)
    ensures Lookup(r, TOKEN_KEY) == None
    ensures forall name :: name != TOKEN_KEY ==> (name in r <==> name in store)
    ensures forall name :: name != TOKEN_KEY && name in store ==> r[name] == store[name]
  {
    store - {TOKEN_KEY}
  }

  /** Clearing an already cleared session changes nothing. */
  lemma ClearSessionIdempotent(store: Store)
    ensures WithoutSession(WithoutSession(store)) == WithoutSession(store)
  {
  }

  /** A second `setSession` replaces the first token entirely. */
  lemma SetSessionLastWins(store: Store, first: string, second: string)
    ensures WithSession(WithSession(store, first), second) == WithSession(store, second)
  {
  }

  /** Logging out after logging in leaves the other cookies as they were before the login. */
  lemma ClearUndoesSet(store: Store, token: string)
    ensures WithoutSession(WithSession(store, token)) == WithoutSession(store)
  {
  }

  /** `setSession(token)`. */
  method SetSession(jar: CookieJar, token: string)
    modifies jar
    ensures jar.store == WithSession(old(jar.store), token)
  {
    jar.Set(TOKEN_KEY, token, SESSION_ATTRIBUTES);
  }

  /** `clearSession()`, which is also all `logoutRequest` does. */
  method ClearSession(jar: CookieJar)
    modifies jar
    ensures jar.store == WithoutSession(old(jar.store))
  {
    jar.Remove(TOKEN_KEY);
  }
}
