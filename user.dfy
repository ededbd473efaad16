/**
 * The `User` service: the API key lives in one cookie, `some_api`, and its
 * presence is the only signal of being logged in.
 */
module User {
  import opened Wrappers

  const ApiKeyCookie: string := "some_api"

  /** The browser's cookie jar, name to value, as the cookie service exposes it. */
  class CookieJar {
    var cookies: map<string, string>

    constructor (initial: map<string, string>)
      ensures cookies == initial
    {
      cookies := initial;
    }

    /**
     * `reset`: expires the API-key cookie (path `/`) when it holds a key;
     * an absent or empty cookie is left as it is.
     */
    method Reset()
      modifies this
      ensures !HasApiKey(cookies)
      ensures old(HasApiKey(cookies)) ==> cookies == old(cookies) - {ApiKeyCookie}
      ensures !old(HasApiKey(cookies)) ==> cookies == old(cookies)
    {
      if HasApiKey(cookies) {
        cookies := cookies - {ApiKeyCookie};
      }
    }
  }

  /** `getApiKey`: the cookie's value, or `undefined` when there is no such cookie. */
  function GetApiKey(cookies: map<string, string>): (key: Option<string>)
    ensures key.Some? <==> ApiKeyCookie in cookies
    ensures key.Some? ==> key.value == cookies[ApiKeyCookie]
  {
    if ApiKeyCookie in cookies then Some(cookies[ApiKeyCookie]) else None
  }

  /** `hasApiKey`: the key is truthy, that is, present and non-empty. */
  predicate HasApiKey(cookies: map<string, string>)
    ensures HasApiKey(cookies) <==> ApiKeyCookie in cookies && cookies[ApiKeyCookie] != ""
  {
    var key := GetApiKey(cookies);
    key.Some? && key.value != ""
  }

  /** `isLoggedIn`: the same test as `hasApiKey`. */
  predicate IsLoggedIn(cookies: map<string, string>)
    ensures IsLoggedIn(cookies) == HasApiKey(cookies)
  {
    HasApiKey(cookies)
  }

  /** Other cookies have no bearing on being logged in. */
  lemma LoggedInIgnoresOtherCookies(cookies: map<string, string>, name: string, value: string)
    requires name != ApiKeyCookie
    ensures IsLoggedIn(cookies[name := value]) == IsLoggedIn(cookies)
  {
  }
}
