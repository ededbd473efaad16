/**
 * The three places where the module acts on the credential: the request
 * interceptor that adds the bearer header, the response-error handler that
 * reacts to 401, and the `$routeChangeStart` guard.
 */
module Interceptors {
  import opened Wrappers
  import opened User
  import opened ServerUrls

  const AuthorizationHeader: string := "Authorization"
  const BearerPrefix: string := "Bearer "
  const StatusUnauthorized: int := 401

  /** An outgoing request's configuration; only its headers matter here. */
  class RequestConfig {
    var headers: map<string, string>

    constructor (headers0: map<string, string>)
      ensures headers == headers0
    {
      headers := headers0;
    }
  }

  /**
   * The browser window: the location fields the login URL is built from and
   * `location.href`, whose assignment is the redirect. Assigning `href` does
   * not change the pathname or hash seen in the same turn.
   */
  class Window {
    var pathname: Option<string>
    var hash: Option<string>
    var href: string

    constructor (pathname0: Option<string>, hash0: Option<string>, href0: string)
      ensures pathname == pathname0 && hash == hash0 && href == href0
    {
      pathname, hash, href := pathname0, hash0, href0;
    }

    function CurrentLocation(): Location
      reads this
    {
      Location(pathname, hash)
    }

    /** `$window.location.href = ServerUrls.login()`. */
    method RedirectToLogin()
      modifies this`href
      ensures href == LoginUrl(CurrentLocation(), None)
    {
      href := LoginUrl(Location(pathname, hash), None);
    }
  }

  /**
   * `authTokenHttpInterceptor.request`: with a key present, sets
   * `Authorization: Bearer <key>` on the given configuration; returns that
   * same configuration.
   */
  method AuthTokenRequest(jar: CookieJar, config: RequestConfig) returns (r: RequestConfig)
    modifies config
    ensures r == config
    ensures HasApiKey(jar.cookies) ==>
              config.headers == old(config.headers)[AuthorizationHeader := BearerPrefix + jar.cookies[ApiKeyCookie]]
    ensures !HasApiKey(jar.cookies) ==> config.headers == old(config.headers)
  {
    if HasApiKey(jar.cookies) {
      config.headers := config.headers[AuthorizationHeader := BearerPrefix + GetApiKey(jar.cookies).value];
    }
    r := config;
  }

  /** A failed response as the HTTP layer hands it over: its status and an opaque body. */
  datatype Rejection = Rejection(status: int, body: string)

  /** What a response handler hands back to the promise chain. */
  datatype Settlement = Resolved | Rejected(reason: Rejection)

  /**
   * `responseError`: on status exactly 401, resets the key and redirects to
   * the login URL; in every case the same rejection is passed on.
   */
  method ResponseError(rejection: Rejection, jar: CookieJar, window: Window) returns (s: Settlement)
    modifies jar, window`href
    ensures s == Rejected(rejection)
    ensures rejection.status == StatusUnauthorized ==>
              !HasApiKey(jar.cookies) &&
              jar.cookies == (if old(HasApiKey(jar.cookies)) then old(jar.cookies) - {ApiKeyCookie} else old(jar.cookies)) &&
              window.href == LoginUrl(window.CurrentLocation(), None)
    ensures rejection.status != StatusUnauthorized ==>
              jar.cookies == old(jar.cookies) && window.href == old(window.href)
  {
    if rejection.status == StatusUnauthorized {
      jar.Reset();
      window.RedirectToLogin();
    }
    s := Rejected(rejection);
  }

  /** The `access` annotation of a route, as JavaScript can hold it. */
  datatype AccessField = Undefined | Null | Declared(allowAnonymous: Option<bool>)

  /** The route being navigated to; only its access annotation is read. */
  datatype Route = Route(access: AccessField)

  /**
   * The guard's test on the route: `access === undefined`, or `access` is
   * neither undefined nor null (loose `!=`) and `allowAnonymous` is falsy.
   * A `null` annotation therefore does not require a login.
   */
  predicate RouteNeedsLogin(next: Route)
  {
    match next.access
    case Undefined => true
    case Null => false
    case Declared(allowAnonymous) => allowAnonymous != Some(true)
  }

  /**
   * The `$routeChangeStart` decision: redirect iff the route needs a login
   * and nobody is logged in. A route marked `allowAnonymous: true`, or a
   * logged-in user, is never redirected.
   */
  predicate GuardRedirects(next: Route, cookies: map<string, string>)
    ensures GuardRedirects(next, cookies) <==>
              (next.access.Undefined? || (next.access.Declared? && next.access.allowAnonymous != Some(true))) &&
              (ApiKeyCookie !in cookies || cookies[ApiKeyCookie] == "")
  {
    RouteNeedsLogin(next) && !IsLoggedIn(cookies)
  }

  /** The `$routeChangeStart` handler: redirects to the login URL when the guard says so. */
  method RouteChangeStart(next: Route, jar: CookieJar, window: Window)
    modifies window`href
    ensures GuardRedirects(next, jar.cookies) ==> window.href == LoginUrl(window.CurrentLocation(), None)
    ensures !GuardRedirects(next, jar.cookies) ==> window.href == old(window.href)
  {
    if GuardRedirects(next, jar.cookies) {
      window.RedirectToLogin();
    }
  }
}
