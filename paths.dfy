/**
 * The POSIX path operations the downloader uses (`os.path.join` of two parts,
 * `os.path.basename`, `os.path.splitext`), on paths as plain strings.
 */
module Paths {
  import opened Strings

  /** `os.path.join(a, b)`: an absolute `b` replaces `a`; an empty `a` gives `b`; one separator between them. */
  function Join(a: string, b: string): (p: string)
  {
    if StartsWith(b, "/") || a == "" then b
    else if EndsWith(a, "/") then a + b
    else a + "/" + b
  }

  /** The joined path ends with the name, and starts with the folder unless the name is absolute or the folder empty. */
  lemma JoinShape(a: string, b: string)
    ensures EndsWith(Join(a, b), b)
    ensures !StartsWith(b, "/") && a != "" ==> StartsWith(Join(a, b), a)
  {
    var r := Join(a, b);
    assert r[|r| - |b|..] == b;
  }

  /** `os.path.basename(p)`: everything after the last separator. */
  function Basename(p: string): (r: string)
    ensures '/' !in r
    ensures EndsWith(p, r)
    ensures r != p ==> p[|p| - |r| - 1] == '/'
  {
    var i := RFind(p, '/');
    assert p[|p| - |p[i + 1..]|..] == p[i + 1..];
    p[i + 1..]
  }

  /**
   * `os.path.splitext(p)`: the extension runs from the last dot of the last
   * component, provided some character before that dot in the component is not
   * a dot (so ".bashrc" and "..a" have no extension).
   */
  function SplitExt(p: string): (r: (string, string))
    ensures r.0 + r.1 == p
    ensures r.1 == "" || (r.1[0] == '.' && '.' !in r.1[1..] && '/' !in r.1)
    ensures r.1 == "" ==> r.0 == p
  {
    var d := ExtensionStart(p);
    if d < |p| then
      var ext := p[d..];
      ExtensionShape(p);
      assert ext[0] == '.' && '.' !in ext[1..] && '/' !in ext;
      (p[..d], ext)
    else
      (p, "")
  }

  /** Where the extension of `p` begins, or the length of `p` when it has none. */
  function ExtensionStart(p: string): (d: nat)
    ensures d <= |p|
  {
    var sep := RFind(p, '/');
    var dot := RFind(p, '.');
    if dot > sep && HasNonDot(p, sep + 1, dot) then dot else |p|
  }

  /** An extension is a dot, then neither dot nor separator. */
  lemma ExtensionShape(p: string)
    requires ExtensionStart(p) < |p|
    ensures p[..ExtensionStart(p)] + p[ExtensionStart(p)..] == p
    ensures p[ExtensionStart(p)..][0] == '.'
    ensures '.' !in p[ExtensionStart(p)..][1..]
    ensures '/' !in p[ExtensionStart(p)..]
  {
    var sep := RFind(p, '/');
    var dot := RFind(p, '.');
    assert dot == ExtensionStart(p) && sep < dot;
    SuffixLacks(p, sep + 1, dot, '/');
    SplitAt(p, dot);
  }

  /** Cutting a string at `d` and gluing it back gives the string; the tail after `d` starts at `d + 1`. */
  lemma SplitAt(p: string, d: nat)
    requires d < |p|
    ensures p[..d] + p[d..] == p
    ensures p[d..][0] == p[d] && p[d..][1..] == p[d + 1..]
  {
  }

  /** A later suffix lacks every character an earlier one lacks. */
  lemma SuffixLacks(p: string, lo: int, mid: int, c: char)
    requires 0 <= lo <= mid <= |p| && c !in p[lo..]
    ensures c !in p[mid..]
  {
    assert forall i :: mid <= i < |p| ==> p[i] == p[lo..][i - lo];
  }

  /** Some character of `p[lo..hi]` is not a dot. */
  predicate HasNonDot(p: string, lo: int, hi: int)
    requires 0 <= lo <= hi <= |p|
  {
    exists i :: lo <= i < hi && p[i] != '.'
  }

  lemma {:induction false} RFindAppend(s: string, t: string, c: char)
    requires c !in t
    ensures RFind(s + t, c) == RFind(s, c)
    decreases |t|
  {
    if t != [] {
      var u := s + t;
      assert u[..|u| - 1] == s + t[..|t| - 1];
      RFindAppend(s, t[..|t| - 1], c);
    } else {
      assert s + t == s;
    }
  }

  /** The file a join names is the name that was joined, so `basename(join(d, n)) == n`. */
  lemma BasenameOfJoin(d: string, n: string)
    requires '/' !in n
    ensures Basename(Join(d, n)) == n
  {
    if StartsWith(n, "/") || d == "" {
      assert RFind(n, '/') == -1;
    } else {
      var prefix := if EndsWith(d, "/") then d else d + "/";
      assert Join(d, n) == prefix + n;
      RFindAppend(prefix, n, '/');
      assert prefix[|prefix| - 1] == '/';
      assert (prefix + n)[|prefix|..] == n;
    }
  }

  /** A path has an empty last component exactly when it is empty or ends in a separator. */
  lemma BasenameEmpty(p: string)
    ensures Basename(p) == "" <==> p == "" || p[|p| - 1] == '/'
  {
    var r := RFind(p, '/');
    assert r + 1 <= |p| - 1 ==> p[|p| - 1] in p[r + 1..];
  }

  /** A name without separators is not absolute. */
  lemma RelativeName(x: string)
    requires '/' !in x
    ensures !StartsWith(x, "/")
  {
    assert |x| >= 1 ==> x[..1] == [x[0]] && x[0] in x;
  }

  /** Joining one directory with two names that are both relative, or both absolute, gives two different paths. */
  lemma JoinInjective(d: string, x: string, y: string)
    requires StartsWith(x, "/") <==> StartsWith(y, "/")
    requires Join(d, x) == Join(d, y)
    ensures x == y
  {
    if !(StartsWith(x, "/") || d == "") {
      var prefix := if EndsWith(d, "/") then d else d + "/";
      assert (prefix + x)[|prefix|..] == x;
      assert (prefix + y)[|prefix|..] == y;
    }
  }

  /** A name with a stem and a dot-free extension splits at that dot. */
  lemma SplitExtOf(stem: string, ext: string, i: nat)
    requires i < |stem| && stem[i] != '.'
    requires '/' !in stem && '/' !in ext && '.' !in ext
    ensures SplitExt(stem + "." + ext) == (stem, "." + ext)
  {
    var p := stem + "." + ext;
    assert p == stem + ("." + ext);
    ExtensionStartOf(stem, ext, i);
    assert p[..|stem|] == stem;
    assert p[|stem|..] == "." + ext;
  }

  /** In `stem + "." + ext` the extension starts at the joined dot. */
  lemma ExtensionStartOf(stem: string, ext: string, i: nat)
    requires i < |stem| && stem[i] != '.'
    requires '/' !in stem && '/' !in ext && '.' !in ext
    ensures ExtensionStart(stem + "." + ext) == |stem|
  {
    var p := stem + "." + ext;
    assert p == stem + ("." + ext);
    LastDotOf(stem, ext);
    RFindAppend(stem, "." + ext, '/');
    assert RFind(stem, '/') == -1;
    assert p[i] == stem[i];
    assert HasNonDot(p, 0, |stem|);
  }

  /**
   * A name whose only dots are leading ones, as in ".bashrc" or "..", has no
   * extension: the whole name is the stem.
   */
  lemma LeadingDotsOnly(dots: string, rest: string)
    requires forall i :: 0 <= i < |dots| ==> dots[i] == '.'
    requires '.' !in rest && '/' !in rest
    ensures SplitExt(dots + rest) == (dots + rest, "")
  {
    NoExtensionAfterDots(dots, rest);
  }

  /** After only leading dots and a dot-free rest, no extension starts. */
  lemma NoExtensionAfterDots(dots: string, rest: string)
    requires forall i :: 0 <= i < |dots| ==> dots[i] == '.'
    requires '.' !in rest && '/' !in rest
    ensures ExtensionStart(dots + rest) == |dots + rest|
  {
    assert '/' !in dots;
    RFindAppend(dots, rest, '/');
    RFindAppend(dots, rest, '.');
    DotsOnlyBefore(dots, rest, RFind(dots, '.'));
  }

  /** The first `n` characters of `dots + rest` are all dots. */
  lemma DotsOnlyBefore(dots: string, rest: string, n: int)
    requires forall i :: 0 <= i < |dots| ==> dots[i] == '.'
    requires n <= |dots|
    ensures 0 <= n ==> !HasNonDot(dots + rest, 0, n)
  {
    var p := dots + rest;
    forall k | 0 <= k < n
      ensures p[k] == '.'
    {
      assert p[k] == dots[k];
    }
  }

  /** The last dot of `stem + "." + ext` is the one joined in, when `ext` has none. */
  lemma LastDotOf(stem: string, ext: string)
    requires '.' !in ext
    ensures RFind(stem + "." + ext, '.') == |stem|
  {
    RFindAppend(stem + ".", ext, '.');
    assert (stem + ".")[|stem|] == '.';
  }
}
