/**
 * The path component of a URL, as `urllib.parse.urlparse(url).path` computes
 * it: an optional scheme, an optional `//` network location, then the path up
 * to the fragment and the query, with the `;params` of its last segment cut off
 * for the schemes that use them.
 */
module Urls {
  import opened Strings

  predicate IsSchemeChar(c: char) {
    IsLower(c) || IsUpper(c) || IsDigit(c) || c == '+' || c == '-' || c == '.'
  }

  /** The length of the scheme before the first colon, or -1 when the URL has none. */
  function SchemeLength(url: string): (n: int)
    ensures -1 <= n < |url|
    ensures n >= 0 ==> n > 0 && url[n] == ':'
  {
    var i := Find(url, ':');
    if i > 0 && (IsLower(url[0]) || IsUpper(url[0])) && forall k :: 0 <= k < i ==> IsSchemeChar(url[k])
    then i else -1
  }

  /** The schemes for which `urlparse` splits off `;params`. */
  const ParamSchemes: set<string> :=
    {"", "ftp", "hdl", "prospero", "http", "imap", "https", "shttp", "rtsp",
     "rtsps", "rtspu", "sip", "sips", "mms", "sftp", "tel"}

  /** The characters that end the network location. */
  predicate IsDelimiter(c: char) { c == '/' || c == '?' || c == '#' }

  /** The first index from `k` on holding '/', '?' or '#', or the length: where the network location ends. */
  function NetlocEnd(s: string, k: nat): (e: nat)
    requires k <= |s|
    ensures k <= e <= |s|
    ensures forall i :: k <= i < e ==> !IsDelimiter(s[i])
    ensures e < |s| ==> IsDelimiter(s[e])
    decreases |s| - k
  {
    if k == |s| || IsDelimiter(s[k]) then k else NetlocEnd(s, k + 1)
  }

  /** The path without the `;params` of its last segment. */
  function StripParams(path: string): (r: string)
    ensures StartsWith(path, r)
  {
    var slash := RFind(path, '/');
    if slash >= 0 then
      var i := Find(path[slash..], ';');
      if i < 0 then path else path[..slash + i]
    else
      Before(path, ';')
  }

  /** `urlparse(url).path` */
  function UrlPath(url: string): (path: string)
    ensures '?' !in path && '#' !in path
  {
    var n := SchemeLength(url);
    if n > 0 then PathAfterScheme(Lower(url[..n]), url[n + 1..]) else PathAfterScheme("", url)
  }

  /** The path of what follows the scheme and its colon, for the lower-cased `scheme`. */
  function PathAfterScheme(scheme: string, rest: string): (path: string)
    ensures '?' !in path && '#' !in path
  {
    var afterNetloc := if StartsWith(rest, "//") then rest[NetlocEnd(rest, 2)..] else rest;
    var noFragment := Before(afterNetloc, '#');
    var path := Before(noFragment, '?');
    PrefixLacks(noFragment, path, '#');
    if scheme in ParamSchemes && ';' in path then
      var stripped := StripParams(path);
      PrefixLacks(path, stripped, '?');
      PrefixLacks(path, stripped, '#');
      stripped
    else
      path
  }

  lemma SchemeOfWebUrl(scheme: string, after: string)
    requires scheme == "http" || scheme == "https"
    ensures SchemeLength(scheme + ":" + after) == |scheme|
    ensures Lower((scheme + ":" + after)[..|scheme|]) == scheme
    ensures (scheme + ":" + after)[|scheme| + 1..] == after
  {
    assert forall k :: 0 <= k < |scheme| ==> IsLower(scheme[k]);
    LowerCaseScheme(scheme, after);
  }

  /** A scheme of lower-case letters is read back as the scheme, and the rest of the URL follows its colon. */
  lemma LowerCaseScheme(scheme: string, after: string)
    requires scheme != "" && forall k :: 0 <= k < |scheme| ==> IsLower(scheme[k])
    ensures SchemeLength(scheme + ":" + after) == |scheme|
    ensures Lower((scheme + ":" + after)[..|scheme|]) == scheme
    ensures (scheme + ":" + after)[|scheme| + 1..] == after
  {
    var url := scheme + ":" + after;
    assert url == scheme + (":" + after);
    assert ':' !in scheme;
    FindAppend(scheme, ":" + after, ':');
    assert url[..|scheme|] == scheme;
    assert forall k :: 0 <= k < |scheme| ==> url[k] == scheme[k];
    LowerOfLowerCase(scheme);
  }

  lemma NetlocEndAfterHost(host: string, rest: string)
    requires forall c :: c in host ==> !IsDelimiter(c)
    requires rest == "" || IsDelimiter(rest[0])
    ensures NetlocEnd("//" + host + rest, 2) == 2 + |host|
  {
    var s := "//" + host + rest;
    forall i | 2 <= i < 2 + |host|
      ensures !IsDelimiter(s[i])
    {
      assert s[i] == host[i - 2];
      assert host[i - 2] in host;
    }
    if rest != [] {
      assert s[2 + |host|] == rest[0];
    }
    NetlocEndAt(s, 2, 2 + |host|);
  }

  lemma {:induction false} NetlocEndAt(s: string, k: nat, e: nat)
    requires k <= e <= |s|
    requires forall i :: k <= i < e ==> !IsDelimiter(s[i])
    requires e == |s| || IsDelimiter(s[e])
    ensures NetlocEnd(s, k) == e
    decreases e - k
  {
    if k < e {
      NetlocEndAt(s, k + 1, e);
    }
  }

  lemma PathBeforeQuery(path: string, tail: string)
    requires '?' !in path && '#' !in path
    requires tail == "" || tail[0] == '?' || tail[0] == '#'
    ensures Before(Before(path + tail, '#'), '?') == path
  {
    BeforeAppend(path, tail, '#');
    BeforeAppend(path, Before(tail, '#'), '?');
    assert path + [] == path;
  }

  /**
   * For an `http` or `https` URL the path is what follows the host, up to the
   * query or the fragment: `UrlPath("https://example.com/files/report.pdf?x=1") == "/files/report.pdf"`.
   */
  lemma UrlPathOfWebUrl(scheme: string, host: string, path: string, tail: string)
    requires scheme == "http" || scheme == "https"
    requires forall c :: c in host ==> !IsDelimiter(c)
    requires path == "" || path[0] == '/'
    requires '?' !in path && '#' !in path && ';' !in path
    requires tail == "" || tail[0] == '?' || tail[0] == '#'
    ensures UrlPath(scheme + "://" + host + path + tail) == path
  {
    var url := scheme + "://" + host + path + tail;
    var after := "//" + host + (path + tail);
    assert url == scheme + ":" + after;
    SchemeOfWebUrl(scheme, after);
    assert UrlPath(url) == PathAfterScheme(scheme, after);
    PathAfterHost(scheme, host, path, tail);
  }

  /** After `//host`, the path runs up to the query or the fragment. */
  lemma PathAfterHost(scheme: string, host: string, path: string, tail: string)
    requires scheme in ParamSchemes
    requires forall c :: c in host ==> !IsDelimiter(c)
    requires path == "" || path[0] == '/'
    requires '?' !in path && '#' !in path && ';' !in path
    requires tail == "" || tail[0] == '?' || tail[0] == '#'
    ensures PathAfterScheme(scheme, "//" + host + (path + tail)) == path
  {
    var after := "//" + host + (path + tail);
    assert after[..2] == "//";
    NetlocEndAfterHost(host, path + tail);
    assert after[2 + |host|..] == path + tail;
    PathBeforeQuery(path, tail);
  }
}
