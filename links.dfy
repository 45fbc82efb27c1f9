/**
 * Link discovery: the hyperlink targets of a page, resolved against the page's
 * URL, filtered by the allowed suffixes and de-duplicated in order of first
 * appearance (`find_download_links`).
 */
module LinkExtractor {
  import opened Strings

  /**
   * A resolved link is a download link when its lower-cased text ends with one
   * of the allowed suffixes, taken literally (the suffixes are not lower-cased).
   */
  predicate Qualifies(url: string, allowed: seq<string>) {
    exists k :: 0 <= k < |allowed| && EndsWith(Lower(url), allowed[k])
  }

  /** Every hyperlink target resolved against the page's URL, in document order. */
  function ResolveAll(base: string, hrefs: seq<string>, resolve: (string, string) -> string): (r: seq<string>)
    ensures |r| == |hrefs|
    ensures forall i :: 0 <= i < |hrefs| ==> r[i] == resolve(base, hrefs[i])
  {
    if hrefs == [] then []
    else ResolveAll(base, hrefs[..|hrefs| - 1], resolve) + [resolve(base, hrefs[|hrefs| - 1])]
  }

  /** The download links among `links`, each kept at its first appearance, in that order. */
  function Found(links: seq<string>, allowed: seq<string>): (found: seq<string>)
  {
    if links == [] then []
    else
      var earlier := Found(links[..|links| - 1], allowed);
      var u := links[|links| - 1];
      if Qualifies(u, allowed) && u !in earlier then earlier + [u] else earlier
  }

  predicate NoDuplicates(r: seq<string>) {
    forall i, j :: 0 <= i < j < |r| ==> r[i] != r[j]
  }

  /** The elements of `r` appear in `links`, ordered by where each first appears there. */
  predicate InFirstSeenOrder(r: seq<string>, links: seq<string>) {
    (forall u :: u in r ==> u in links) &&
    forall i, j :: 0 <= i < j < |r| ==> FirstIndex(links, r[i]) < FirstIndex(links, r[j])
  }

  /** The position at which `x` first appears in `s`. */
  function FirstIndex(s: seq<string>, x: string): (i: nat)
    requires x in s
    ensures i < |s| && s[i] == x && x !in s[..i]
  {
    if s[0] == x then 0
    else
      var i := FirstIndex(s[1..], x);
      assert s[..i + 1] == [s[0]] + s[1..][..i];
      i + 1
  }

  lemma {:induction false} FirstIndexAppend(s: seq<string>, u: string, x: string)
    requires x in s
    ensures FirstIndex(s + [u], x) == FirstIndex(s, x)
  {
    if s[0] != x {
      assert (s + [u])[1..] == s[1..] + [u];
      FirstIndexAppend(s[1..], u, x);
    }
  }

  lemma {:induction false} FirstIndexOfLast(s: seq<string>, u: string)
    requires u !in s
    ensures FirstIndex(s + [u], u) == |s|
  {
    if s != [] {
      assert (s + [u])[1..] == s[1..] + [u];
      FirstIndexOfLast(s[1..], u);
    }
  }

  /** A link is found exactly when it is among the resolved links and qualifies. */
  lemma {:induction false} FoundMembership(links: seq<string>, allowed: seq<string>)
    ensures forall u :: u in Found(links, allowed) <==> u in links && Qualifies(u, allowed)
    decreases |links|
  {
    if links != [] {
      var p := links[..|links| - 1];
      FoundMembership(p, allowed);
      assert links == p + [links[|links| - 1]];
    }
  }

  /** No link is found twice. */
  lemma {:induction false} FoundNoDuplicates(links: seq<string>, allowed: seq<string>)
    ensures NoDuplicates(Found(links, allowed))
    decreases |links|
  {
    if links != [] {
      var p, u := links[..|links| - 1], links[|links| - 1];
      FoundNoDuplicates(p, allowed);
      var earlier := Found(p, allowed);
      if Qualifies(u, allowed) && u !in earlier {
        var r := earlier + [u];
        assert Found(links, allowed) == r;
        forall i, j | 0 <= i < j < |r| ensures r[i] != r[j] {
          if j == |r| - 1 {
            assert r[i] in earlier;
          } else {
            assert r[i] == earlier[i] && r[j] == earlier[j];
          }
        }
      } else {
        assert Found(links, allowed) == earlier;
      }
    }
  }

  /** The found links are listed in the order of their first appearance among the resolved links. */
  lemma {:induction false} FoundFirstSeenOrder(links: seq<string>, allowed: seq<string>)
    ensures InFirstSeenOrder(Found(links, allowed), links)
    decreases |links|
  {
    FoundMembership(links, allowed);
    if links != [] {
      var p, u := links[..|links| - 1], links[|links| - 1];
      assert links == p + [u];
      FoundFirstSeenOrder(p, allowed);
      FoundMembership(p, allowed);
      var earlier := Found(p, allowed);
      forall x | x in earlier
        ensures FirstIndex(links, x) == FirstIndex(p, x) < |p|
      {
        FirstIndexAppend(p, u, x);
      }
      if Qualifies(u, allowed) && u !in earlier {
        FirstIndexOfLast(p, u);
        var r := earlier + [u];
        assert Found(links, allowed) == r;
        forall i, j | 0 <= i < j < |r| ensures FirstIndex(links, r[i]) < FirstIndex(links, r[j]) {
          if j == |r| - 1 {
            assert r[i] in earlier;
          } else {
            assert r[i] == earlier[i] && r[j] == earlier[j];
          }
        }
      } else {
        assert Found(links, allowed) == earlier;
      }
    }
  }

  /** With only upper-case-bearing suffixes allowed, nothing is ever found, whatever the case of the links. */
  lemma UpperCaseSuffixesFindNothing(links: seq<string>, allowed: seq<string>)
    requires forall k :: 0 <= k < |allowed| ==> exists i :: 0 <= i < |allowed[k]| && IsUpper(allowed[k][i])
    ensures Found(links, allowed) == []
  {
    FoundMembership(links, allowed);
    forall u | u in links
      ensures !Qualifies(u, allowed)
    {
      forall k | 0 <= k < |allowed|
        ensures !EndsWith(Lower(u), allowed[k])
      {
        var i :| 0 <= i < |allowed[k]| && IsUpper(allowed[k][i]);
        LowerNeverEndsWithUpper(u, allowed[k], i);
      }
    }
    if Found(links, allowed) != [] {
      assert Found(links, allowed)[0] in Found(links, allowed);
    }
  }

  /** Matching ignores the case of the link: any link ending in ".PDF" matches an allowed ".pdf". */
  lemma UpperCaseLinkMatches(prefix: string)
    ensures Qualifies(prefix + ".PDF", [".pdf"])
  {
    var l := Lower(prefix + ".PDF");
    assert l[|l| - 4..] == ".pdf" by {
      forall i | 0 <= i < 4 ensures l[|l| - 4..][i] == ".pdf"[i] {
        assert (prefix + ".PDF")[|prefix| + i] == ".PDF"[i];
      }
    }
    assert EndsWith(l, [".pdf"][0]);
  }

  /**
   * Suffixes are matched against the whole resolved link, so a query after the
   * extension hides it: "report.pdf?v=2" does not match ".pdf". This holds for
   * every query shorter than each allowed suffix, when no suffix holds '?'.
   */
  lemma QueryAfterSuffixMisses(url: string, query: string, allowed: seq<string>)
    requires forall k :: 0 <= k < |allowed| ==> '?' !in allowed[k] && |allowed[k]| > |query|
    ensures !Qualifies(url + "?" + query, allowed)
  {
    var v := url + "?" + query;
    var l := Lower(v);
    var q := |v| - |query| - 1;
    assert v[q] == '?';
    assert l[q] == '?';
    forall k | 0 <= k < |allowed|
      ensures !EndsWith(l, allowed[k])
    {
      var s := allowed[k];
      var i := |s| - |query| - 1;
      assert s[i] in s;
      if |s| <= |l| {
        assert l[|l| - |s|..][i] == '?';
      }
    }
  }

  /** `find_download_links` over the hyperlink targets of one page. */
  method FindDownloadLinks(hrefs: seq<string>, baseUrl: string, resolve: (string, string) -> string,
                           allowed: seq<string>)
    returns (found: seq<string>)
    ensures found == Found(ResolveAll(baseUrl, hrefs, resolve), allowed)
    ensures forall u :: u in found <==>
      (exists i :: 0 <= i < |hrefs| && u == resolve(baseUrl, hrefs[i])) && Qualifies(u, allowed)
    ensures NoDuplicates(found)
    ensures InFirstSeenOrder(found, ResolveAll(baseUrl, hrefs, resolve))
  {
    found := [];
    var i := 0;
    while i < |hrefs|
      invariant 0 <= i <= |hrefs|
      invariant found == Found(ResolveAll(baseUrl, hrefs[..i], resolve), allowed)
    {
      var absoluteUrl := resolve(baseUrl, hrefs[i]);
      assert hrefs[..i + 1][..i] == hrefs[..i];
      if Qualifies(absoluteUrl, allowed) && absoluteUrl !in found {
        found := found + [absoluteUrl];
      }
      i := i + 1;
    }
    assert hrefs[..i] == hrefs;
    FoundOnPage(hrefs, baseUrl, resolve, allowed);
  }

  /**
   * The download links of a page are exactly the resolved targets that
   * qualify, each once, in the order in which each first appears.
   */
  lemma FoundOnPage(hrefs: seq<string>, baseUrl: string, resolve: (string, string) -> string,
                    allowed: seq<string>)
    ensures var found := Found(ResolveAll(baseUrl, hrefs, resolve), allowed);
      && (forall u :: u in found <==>
            (exists i :: 0 <= i < |hrefs| && u == resolve(baseUrl, hrefs[i])) && Qualifies(u, allowed))
      && NoDuplicates(found)
      && InFirstSeenOrder(found, ResolveAll(baseUrl, hrefs, resolve))
  {
    var links := ResolveAll(baseUrl, hrefs, resolve);
    FoundMembership(links, allowed);
    FoundNoDuplicates(links, allowed);
    FoundFirstSeenOrder(links, allowed);
    forall u ensures u in links <==> exists i :: 0 <= i < |hrefs| && u == resolve(baseUrl, hrefs[i]) {
      if u in links {
        var k :| 0 <= k < |links| && links[k] == u;
        assert u == resolve(baseUrl, hrefs[k]);
      }
    }
  }
}
