/**
 * The browser cookie store as `js-cookie` exposes it: a mapping from cookie
 * names to values with the attributes they were written with.
 */
module Cookies {
  import opened Wrappers

  datatype SameSite = Strict | Lax | NoRestriction

  /** The options object passed to `Cookies.set`; `None` means "not given". */
  datatype Attributes = Attributes(expiresDays: Option<nat>, secure: bool, sameSite: Option<SameSite>)

  datatype Cookie = Cookie(value: string, attributes: Attributes)

  type Store = map<string, Cookie>

  /** `Cookies.get(name)`: the stored value, or `undefined` when there is none. */
  function Lookup(store: Store, name: string): (r: Option<string>)
    ensures r.Some? <==> name in store
    ensures r.Some? ==> r.value == store[name].value
  {
    if name in store then Some(store[name].value) else None
  }

  /**
   * The name/value pairs a same-site request over a secure connection carries,
   * which is what the edge guard reads as `request.cookies`.
   */
  function RequestCookies(store: Store): (r: map<string, string>)
    ensures r.Keys == store.Keys
    ensures forall name :: name in r ==> r[name] == store[name].value
  {
    map name | name in store :: store[name].value
  }

  /** The document's cookies, changed in place by `Cookies.set` and `Cookies.remove`. */
  class CookieJar {
    var store: Store

    constructor (initial: Store)
      ensures store == initial
    {
      store := initial;
    }

    function Get(name: string): Option<string>
      reads this
    {
      Lookup(store, name)
    }

    /** `Cookies.set(name, value, attributes)` overwrites any cookie of that name. */
    method Set(name: string, value: string, attributes: Attributes)
      modifies this
      ensures store == old(store)[name := Cookie(value, attributes)]
    {
      store := store[name := Cookie(value, attributes)];
    }

    /** `Cookies.remove(name)` deletes the cookie; removing an absent cookie does nothing. */
    method Remove(name: string)
      modifies this
      ensures store == old(store) - {name}
    {
      store := store - {name};
    }
  }
}
