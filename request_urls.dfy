/**
 * The request-URL part of the `utils` service: the API base and the
 * trailing-slash rewrite that turns `/things/` into `/things/?`.
 */
module RequestUrls {

  /** The base literal as written in the source, before any build-time substitution. */
  const SourceUriLiteral: string := "http://localhost:8000/api/1.0/"
  /** The base used when the build left the `@@` placeholder in place. */
  const FallbackBase: string := "/api/1.0/"

  predicate EndsWithSlash(s: string)
  {
    |s| > 0 && s[|s| - 1] == '/'
  }

  /** `n` slashes. */
  function Slashes(n: nat): (s: string)
    ensures |s| == n && forall k :: 0 <= k < n ==> s[k] == '/'
  {
    if n == 0 then "" else Slashes(n - 1) + "/"
  }

  /**
   * `getUriBase`: the configured literal, unless it still starts with the
   * `@@` placeholder, in which case the relative fallback.
   */
  function UriBase(literal: string): (base: string)
    ensures |literal| >= 2 && literal[..2] == "@@" ==> base == FallbackBase
    ensures !(|literal| >= 2 && literal[..2] == "@@") ==> base == literal
  {
    if |literal| >= 2 && literal[..2] == "@@" then FallbackBase else literal
  }

  /** The literal shipped in the source is used as it is. */
  lemma SourceLiteralIsBase()
    ensures UriBase(SourceUriLiteral) == SourceUriLiteral
  {
    assert SourceUriLiteral[..2] == "ht";
  }

  /** `s` without its trailing run of slashes. */
  function TrimTrailingSlashes(s: string): (r: string)
    ensures r <= s && !EndsWithSlash(r)
    ensures forall k :: |r| <= k < |s| ==> s[k] == '/'
  {
    if EndsWithSlash(s) then TrimTrailingSlashes(s[..|s| - 1]) else s
  }

  /** `resourcePath.replace(/\/+$/, '/?')`. */
  function FixTrailingSlash(path: string): (r: string)
    ensures !EndsWithSlash(path) ==> r == path
    ensures EndsWithSlash(path) ==>
              |r| >= 2 && r[|r| - 2..] == "/?" &&
              r[..|r| - 2] <= path && !EndsWithSlash(r[..|r| - 2]) &&
              forall k :: |r| - 2 <= k < |path| ==> path[k] == '/'
  {
    if EndsWithSlash(path) then TrimTrailingSlashes(path) + "/?" else path
  }

  /** `getRequestUrl(resourcePath)`: the base followed by the rewritten path. */
  function RequestUrl(literal: string, path: string): (url: string)
    ensures UriBase(literal) <= url
    ensures !EndsWithSlash(path) ==> url == UriBase(literal) + path
    ensures EndsWithSlash(path) ==> url == UriBase(literal) + TrimTrailingSlashes(path) + "/?"
  {
    UriBase(literal) + FixTrailingSlash(path)
  }

  /** A path without a trailing slash is left alone. */
  lemma FixLeavesPlainPath(path: string)
    requires !EndsWithSlash(path)
    ensures FixTrailingSlash(path) == path
  {
  }

  /** Trimming removes exactly the trailing run: `p` followed by `n` slashes trims to `p`. */
  lemma {:induction false} TrimSlashRun(p: string, n: nat)
    requires !EndsWithSlash(p)
    ensures TrimTrailingSlashes(p + Slashes(n)) == p
  {
    if n > 0 {
      var s := p + Slashes(n);
      assert EndsWithSlash(s);
      assert s[..|s| - 1] == p + Slashes(n - 1);
      TrimSlashRun(p, n - 1);
    } else {
      assert p + Slashes(0) == p;
    }
  }

  /** Any run of one or more trailing slashes becomes a single `/?`. */
  lemma FixSlashRun(p: string, n: nat)
    requires !EndsWithSlash(p) && n >= 1
    ensures FixTrailingSlash(p + Slashes(n)) == p + "/?"
  {
    TrimSlashRun(p, n);
  }

  /** Every path splits into a slash-free-ending stem and a run of slashes. */
  lemma StemAndRun(path: string)
    ensures path == TrimTrailingSlashes(path) + Slashes(|path| - |TrimTrailingSlashes(path)|)
  {
  }

  /** Rewriting twice is the same as rewriting once. */
  lemma FixIdempotent(path: string)
    ensures FixTrailingSlash(FixTrailingSlash(path)) == FixTrailingSlash(path)
  {
  }
}
