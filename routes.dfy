/** The route tables of src/config/routes.ts. */
module Routes {

  const HOME := "/"
  const LOGIN := "/login"
  const REGISTER := "/register"
  const FEED := "/feed"
  const PROFILE := "/me"

  /** Pages that make no sense once signed in. */
  const AUTH_ONLY_ROUTES: set<string> := {LOGIN, REGISTER}

  /** Pages that need a session, matched exactly. */
  const PROTECTED_ROUTES: set<string> := {HOME, FEED, PROFILE}

  /** Path prefixes that need a session; the array is consulted with `some`. */
  const PROTECTED_PREFIXES: seq<string> := ["/me/"]

  /** No path is in both exact tables, and the landing page after sign-in is protected. */
  lemma TablesDisjoint()
    ensures AUTH_ONLY_ROUTES !! PROTECTED_ROUTES
    ensures FEED in PROTECTED_ROUTES && FEED !in AUTH_ONLY_ROUTES
    ensures HOME in PROTECTED_ROUTES
  {
  }
}
