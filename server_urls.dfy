/**
 * The `ServerUrls` service: builds the login URL, optionally carrying the
 * current location as a `next=` redirect target. The browser location is an
 * explicit input instead of being read from the window object.
 */
module ServerUrls {
  import opened Wrappers
  import opened JsStrings

  /** The two location fields the builder reads; `None` is `undefined`. */
  datatype Location = Location(pathname: Option<string>, hash: Option<string>)

  const LoginPath: string := "/login/"
  const NextPrefix: string := "/login/?next="
  /** Percent-encoding of `#`, so that the server keeps it as data. */
  const EncodedHashMark: string := "%23"

  /** A pathname worth returning to: present, non-empty and not the root. */
  predicate HasUsefulPath(loc: Location)
  {
    loc.pathname.Some? && loc.pathname.value != "" && loc.pathname.value != "/"
  }

  /** A hash worth returning to: present, non-empty and not the application root `#/`. */
  predicate HasUsefulHash(loc: Location)
  {
    loc.hash.Some? && loc.hash.value != "" && loc.hash.value != "#/"
  }

  /** `getCurrentPathname`: the pathname when it is useful, `undefined` otherwise. */
  function CurrentPathname(loc: Location): (p: Option<string>)
    ensures p.Some? <==> HasUsefulPath(loc)
    ensures p.Some? ==> p == loc.pathname && p.value != ""
  {
    if HasUsefulPath(loc) then loc.pathname else None
  }

  /** `hash.split('#')[1]`; an index past the end reads as `undefined`. */
  function HashSegment(hash: string): (seg: string)
    ensures '#' !in hash ==> seg == "undefined"
    ensures '#' in hash ==> '#' !in seg
  {
    var parts := Split(hash, '#');
    if |parts| > 1 then parts[1] else "undefined"
  }

  /**
   * With a `#` in the hash, the segment is the text after the first `#`, up
   * to the next `#` or to the end.
   */
  lemma HashSegmentAfterFirstMark(hash: string)
    requires '#' in hash
    ensures var rest := hash[IndexOf(hash, '#') + 1..];
            if '#' in rest then HashSegment(hash) == rest[..IndexOf(rest, '#')] else HashSegment(hash) == rest
  {
    var rest := hash[IndexOf(hash, '#') + 1..];
    SplitFirstPiece(hash, '#');
    SplitFirstPiece(rest, '#');
  }

  /** `getCurrentHashFragment`: `%23` and the first hash segment, or "" when the hash is not useful. */
  function CurrentHashFragment(loc: Location): (f: string)
    ensures f == "" <==> !HasUsefulHash(loc)
    ensures f != "" ==> |f| >= 3 && f[..3] == EncodedHashMark
  {
    if HasUsefulHash(loc) then EncodedHashMark + HashSegment(loc.hash.value) else ""
  }

  /** JavaScript string concatenation renders `undefined` as the word "undefined". */
  function Render(v: Option<string>): string
  {
    match v
    case Some(s) => s
    case None => "undefined"
  }

  /**
   * `getLoginUrl(addRedirect)`: an absent argument (`None`) or any value
   * other than `false` asks for the redirect.
   */
  function LoginUrl(loc: Location, addRedirect: Option<bool>): (url: string)
    ensures LoginPath <= url
    ensures url == LoginPath <==>
              addRedirect == Some(false) || (!HasUsefulPath(loc) && !HasUsefulHash(loc))
    ensures url != LoginPath ==> NextPrefix <= url
  {
    var add := addRedirect != Some(false);
    var hasUsefulRedirect := CurrentPathname(loc).Some? || CurrentHashFragment(loc) != "";
    if add && hasUsefulRedirect then
      LoginPath + "?next=" + Render(CurrentPathname(loc)) + CurrentHashFragment(loc)
    else
      LoginPath
  }

  /** The value of the `next` query parameter of a login URL, if it has one. */
  function NextParam(url: string): (next: Option<string>)
    ensures next.Some? ==> url == NextPrefix + next.value
    ensures NextPrefix <= url ==> next.Some?
  {
    if NextPrefix <= url then Some(url[|NextPrefix|..]) else None
  }

  /** Calling `login()` without an argument is the same as `login(true)`. */
  lemma AbsentMeansTrue(loc: Location)
    ensures LoginUrl(loc, None) == LoginUrl(loc, Some(true))
  {
  }

  /**
   * Whenever a redirect is added, `next` is the rendered pathname (the word
   * "undefined" when it is not useful) followed by the encoded hash fragment.
   */
  lemma NextOfRedirect(loc: Location, addRedirect: Option<bool>)
    requires addRedirect != Some(false)
    requires HasUsefulPath(loc) || HasUsefulHash(loc)
    ensures NextParam(LoginUrl(loc, addRedirect)) == Some(Render(CurrentPathname(loc)) + CurrentHashFragment(loc))
  {
    var r, h := Render(CurrentPathname(loc)), CurrentHashFragment(loc);
    assert LoginUrl(loc, addRedirect) == LoginPath + "?next=" + r + h;
    assert LoginPath + "?next=" == NextPrefix;
    assert NextPrefix + r + h == NextPrefix + (r + h);
  }

  /** A useful hash `#t` whose text holds no further `#` is sent as `%23t`. */
  lemma HashFragmentOfSimpleHash(loc: Location, t: string)
    requires loc.hash == Some("#" + t) && t != "/" && '#' !in t
    ensures CurrentHashFragment(loc) == EncodedHashMark + t
  {
    SplitSecondPiece("", '#', t, "");
    assert "" + ['#'] + t + "" == "#" + t;
  }

  /**
   * Only the text up to a second `#` survives: a hash `#t#rest` contributes
   * `%23t` and drops `#rest`.
   */
  lemma HashCutAtSecondMark(loc: Location, t: string, rest: string)
    requires loc.hash == Some("#" + t + "#" + rest) && '#' !in t
    ensures CurrentHashFragment(loc) == EncodedHashMark + t
  {
    SplitSecondPiece("", '#', t, "#" + rest);
    assert "" + ['#'] + t + ("#" + rest) == "#" + t + "#" + rest;
  }

  /**
   * A useful hash without any `#` has no second piece: the fragment reads
   * `%23undefined`.
   */
  lemma HashWithoutMark(loc: Location)
    requires HasUsefulHash(loc) && '#' !in loc.hash.value
    ensures CurrentHashFragment(loc) == EncodedHashMark + "undefined"
  {
  }

  /** With a useful pathname and no useful hash, `next` is the pathname itself. */
  lemma NextIsPathname(loc: Location, addRedirect: Option<bool>)
    requires addRedirect != Some(false)
    requires HasUsefulPath(loc) && !HasUsefulHash(loc)
    ensures NextParam(LoginUrl(loc, addRedirect)) == loc.pathname
  {
    NextOfRedirect(loc, addRedirect);
    assert loc.pathname.value + "" == loc.pathname.value;
  }

  /**
   * With a useful pathname and a useful hash `#t` whose text `t` holds no
   * further `#`, `next` is the pathname, `%23`, then `t`.
   */
  lemma NextIsPathnameAndHash(loc: Location, addRedirect: Option<bool>, t: string)
    requires addRedirect != Some(false)
    requires HasUsefulPath(loc)
    requires loc.hash == Some("#" + t) && t != "/" && '#' !in t
    ensures NextParam(LoginUrl(loc, addRedirect)) == Some(loc.pathname.value + EncodedHashMark + t)
  {
    NextOfRedirect(loc, addRedirect);
    HashFragmentOfSimpleHash(loc, t);
    assert Render(CurrentPathname(loc)) == loc.pathname.value;
    assert loc.pathname.value + (EncodedHashMark + t) == loc.pathname.value + EncodedHashMark + t;
  }

  /**
   * The quirk of the source: a useful hash without a useful pathname puts the
   * word "undefined" in front of the encoded hash.
   */
  lemma NextWithoutPathname(loc: Location, addRedirect: Option<bool>, t: string)
    requires addRedirect != Some(false)
    requires !HasUsefulPath(loc)
    requires loc.hash == Some("#" + t) && t != "/" && '#' !in t
    ensures NextParam(LoginUrl(loc, addRedirect)) == Some("undefined" + EncodedHashMark + t)
  {
    HashFragmentOfSimpleHash(loc, t);
    NextOfRedirect(loc, addRedirect);
    assert Render(CurrentPathname(loc)) == "undefined";
    assert "undefined" + (EncodedHashMark + t) == "undefined" + EncodedHashMark + t;
  }

  /** `%23` starts at position `i` of `s`. */
  predicate MarkAt(s: string, i: int)
  {
    0 <= i && i + 3 <= |s| && s[i..i + 3] == EncodedHashMark
  }

  predicate NoEncodedMark(s: string)
  {
    forall i :: 0 <= i < |s| ==> !MarkAt(s, i)
  }

  /** Percent-decoding of `%23` back to `#`, the step the login page undoes on `next`. */
  function DecodeHashMarks(s: string): string
    decreases |s|
  {
    if s == [] then []
    else if MarkAt(s, 0) then "#" + DecodeHashMarks(s[3..])
    else [s[0]] + DecodeHashMarks(s[1..])
  }

  /** Dropping the first character shifts every `%23` position down by one. */
  lemma MarkAtTail(s: string, i: nat)
    requires 0 < |s|
    ensures MarkAt(s[1..], i) <==> MarkAt(s, i + 1)
  {
  }

  /** A prefix with no `%23` starting inside it decodes to itself. */
  lemma {:induction false} DecodePlainPrefix(a: string, b: string)
    requires forall i :: 0 <= i < |a| ==> !MarkAt(a + b, i)
    ensures DecodeHashMarks(a + b) == a + DecodeHashMarks(b)
  {
    if a != [] {
      var s := a + b;
      assert !MarkAt(s, 0);
      assert s[1..] == a[1..] + b;
      forall i | 0 <= i < |a[1..]|
        ensures !MarkAt(a[1..] + b, i)
      {
        MarkAtTail(s, i);
      }
      DecodePlainPrefix(a[1..], b);
      calc {
        DecodeHashMarks(s);
        [s[0]] + DecodeHashMarks(s[1..]);
        [a[0]] + DecodeHashMarks(a[1..] + b);
        [a[0]] + (a[1..] + DecodeHashMarks(b));
        { assert a == [a[0]] + a[1..]; }
        a + DecodeHashMarks(b);
      }
    } else {
      assert a + b == b;
    }
  }

  /** No `%23` straddles the end of `p` when `p` is followed by `%23`. */
  lemma NoMarkAcrossJoin(p: string, t: string)
    requires NoEncodedMark(p)
    ensures forall i :: 0 <= i < |p| ==> !MarkAt(p + EncodedHashMark + t, i)
  {
    var s := p + EncodedHashMark + t;
    forall i | 0 <= i < |p|
      ensures !MarkAt(s, i)
    {
      if i + 3 <= |p| {
        assert s[i..i + 3] == p[i..i + 3];
        assert !MarkAt(p, i);
      } else if i + 2 == |p| {
        assert s[i..i + 3][2] == s[i + 2] == '%';
      } else {
        assert s[i..i + 3][1] == s[i + 1] == '%';
      }
    }
  }

  /**
   * Round trip through the login page: for a useful pathname and a useful
   * hash `#t` with no further `#`, decoding `%23` in the `next` value of
   * `login()` gives back the pathname followed by the hash, as long as
   * neither already contains the text `%23`.
   */
  lemma NextDecodesToLocation(loc: Location, t: string)
    requires HasUsefulPath(loc) && NoEncodedMark(loc.pathname.value)
    requires loc.hash == Some("#" + t) && t != "/" && '#' !in t && NoEncodedMark(t)
    ensures NextParam(LoginUrl(loc, None)).Some?
    ensures DecodeHashMarks(NextParam(LoginUrl(loc, None)).value) == loc.pathname.value + loc.hash.value
  {
    var p := loc.pathname.value;
    NextIsPathnameAndHash(loc, None, t);
    NoMarkAcrossJoin(p, t);
    assert p + EncodedHashMark + t == p + (EncodedHashMark + t);
    DecodePlainPrefix(p, EncodedHashMark + t);
    assert MarkAt(EncodedHashMark + t, 0);
    assert (EncodedHashMark + t)[3..] == t;
    assert t + [] == t;
    forall i | 0 <= i < |t| ensures !MarkAt(t + [], i) { assert !MarkAt(t, i); }
    DecodePlainPrefix(t, []);
  }
}
