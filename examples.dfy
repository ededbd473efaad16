/** The expectations of the `ServerUrls` tests, restated over the model. */
module LoginUrlExamples {
  import opened Wrappers
  import opened ServerUrls

  /** No pathname and no hash: the bare login URL. */
  lemma LoginUrlWithoutLocation()
    ensures LoginUrl(Location(None, None), None) == "/login/"
  {
  }

  /** A pathname alone becomes `next`. */
  lemma LoginUrlWithPathname()
    ensures LoginUrl(Location(Some("/some-path/index.html"), None), None) == "/login/?next=" + "/some-path/index.html"
  {
  }

  /** `addRedirect = true` behaves as no argument. */
  lemma LoginUrlWithRedirectTrue()
    ensures LoginUrl(Location(Some("/some-path/index.html"), None), Some(true)) == "/login/?next=" + "/some-path/index.html"
  {
  }

  /** `addRedirect = false` suppresses `next`. */
  lemma LoginUrlWithRedirectFalse()
    ensures LoginUrl(Location(Some("/some-path/index.html"), None), Some(false)) == "/login/"
  {
  }

  /** A pathname and a hash: the hash's `#` is sent as `%23`. */
  lemma LoginUrlWithPathnameAndHash()
    ensures LoginUrl(Location(Some("/some-path/index.html"), Some("#/some-route")), None)
            == "/login/?next=" + "/some-path/index.html" + "%23" + "/some-route"
  {
    var t := "/some-route";
    assert '#' !in t by {
      forall k | 0 <= k < |t| ensures t[k] != '#' { }
    }
    assert "#" + t == "#/some-route";
    var loc := Location(Some("/some-path/index.html"), Some("#/some-route"));
    NextIsPathnameAndHash(loc, None, t);
    var next := "/some-path/index.html" + EncodedHashMark + t;
    assert NextParam(LoginUrl(loc, None)) == Some(next);
    assert LoginUrl(loc, None) == NextPrefix + next;
  }

  /** The roots `/` and `#/` are not worth returning to. */
  lemma LoginUrlAtRoots()
    ensures LoginUrl(Location(Some("/"), Some("#/")), None) == "/login/"
  {
  }

}

/** The expectations of the `utils` and interceptor tests, restated over the model. */
module RequestExamples {
  import opened RequestUrls
  import opened User
  import opened Interceptors

  /** The request URLs the `utils` tests expect: a trailing slash gains a `?`, otherwise nothing changes. */
  lemma RequestUrlExamples()
    ensures RequestUrl(SourceUriLiteral, "/something/") == SourceUriLiteral + "/something/?"
    ensures RequestUrl(SourceUriLiteral, "/something") == SourceUriLiteral + "/something"
  {
    SourceLiteralIsBase();
    FixSlashRun("/something", 1);
    assert "/something" + Slashes(1) == "/something/";
    assert "/something" + "/?" == "/something/?";
  }

  /** The interceptor tests: a stored key becomes the bearer header; no key, no header. */
  method InterceptorClient() returns (withKey: map<string, string>, withoutKey: map<string, string>)
    ensures withKey == map[AuthorizationHeader := "Bearer any-key"]
    ensures AuthorizationHeader !in withoutKey
  {
    var jar := new CookieJar(map[ApiKeyCookie := "any-key"]);
    var config := new RequestConfig(map[]);
    var r := AuthTokenRequest(jar, config);
    assert r.headers[AuthorizationHeader] == "Bearer any-key";

    var emptyJar := new CookieJar(map[]);
    var plain := new RequestConfig(map[]);
    r := AuthTokenRequest(emptyJar, plain);
    assert AuthorizationHeader !in r.headers;
    withKey, withoutKey := config.headers, plain.headers;
  }
}
