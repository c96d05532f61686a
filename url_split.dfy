/**
 * The URL split the features rely on: the generic-syntax decomposition of
 * section 3 and Appendix B of RFC 3986, read the way Python's `urlparse`
 * exposes it (`scheme`, `netloc`, `path`, `query`, `fragment`, each `""` when
 * absent, the scheme lower-cased). The network location keeps any userinfo
 * and port: `http://1.2.3.4:80/` has netloc `1.2.3.4:80`.
 */
module UrlSplit {
  import opened Wrappers
  import opened Strings

  /** What `urlparse(url)` yields, absent components as the empty string. */
  datatype ParsedUrl = ParsedUrl(scheme: string, netloc: string, path: string, query: string, fragment: string)

  /**
   * The five components of RFC 3986 Appendix B, keeping apart an absent
   * component (None) and an empty one (Some("")), as section 5.3 does.
   */
  datatype UrlParts = UrlParts(
    scheme: Option<string>, authority: Option<string>, path: string,
    query: Option<string>, fragment: Option<string>)

  const SchemeStops: set<char> := {':', '/', '?', '#'}
  const AuthorityStops: set<char> := {'/', '?', '#'}

  /** The text a present component contributes to a URL: `value` followed by `:`. */
  function SchemeText(scheme: Option<string>): string {
    if scheme.Some? then scheme.value + ":" else ""
  }

  /** The text a present authority contributes to a URL: `//` followed by it. */
  function AuthorityText(authority: Option<string>): string {
    if authority.Some? then "//" + authority.value else ""
  }

  /** The text a present query or fragment contributes: its delimiter `c` followed by it. */
  function DelimitedText(c: char, component: Option<string>): string {
    if component.Some? then [c] + component.value else ""
  }

  /** `^(([^:/?#]+):)?`: a non-empty run free of `:/?#` followed by `:`. */
  function SplitScheme(s: string): (Option<string>, string) {
    var i := FindFirst(s, SchemeStops);
    if 0 < i < |s| && s[i] == ':' then (Some(s[..i]), s[i + 1..])
    else (None, s)
  }

  /** `(//([^/?#]*))?`: after `//`, everything up to the first `/`, `?` or `#`. */
  function SplitAuthority(s: string): (Option<string>, string) {
    if |s| >= 2 && s[..2] == "//" then
      var i := 2 + FindFirst(s[2..], AuthorityStops);
      (Some(s[2..i]), s[i..])
    else (None, s)
  }

  /** Everything before the first `c`, and everything after it when there is one. */
  function SplitAtFirst(s: string, c: char): (string, Option<string>) {
    var i := FindFirst(s, {c});
    if i < |s| then (s[..i], Some(s[i + 1..])) else (s, None)
  }

  /** The scheme split loses nothing. */
  lemma SplitSchemeText(s: string)
    ensures var r := SplitScheme(s); s == SchemeText(r.0) + r.1
  {
    var i := FindFirst(s, SchemeStops);
    if 0 < i < |s| && s[i] == ':' {
      assert s == s[..i] + ":" + s[i + 1..];
    }
  }

  /** The authority split loses nothing. */
  lemma SplitAuthorityText(s: string)
    ensures var r := SplitAuthority(s); s == AuthorityText(r.0) + r.1
  {
    if |s| >= 2 && s[..2] == "//" {
      var i := 2 + FindFirst(s[2..], AuthorityStops);
      assert s == "//" + s[2..i] + s[i..];
    }
  }

  /** Splitting at the first `c` loses nothing. */
  lemma SplitAtFirstText(s: string, c: char)
    ensures var r := SplitAtFirst(s, c); s == r.0 + DelimitedText(c, r.1)
  {
    var i := FindFirst(s, {c});
    FindFirstStops(s, {c});
    if i < |s| {
      assert s == s[..i] + [c] + s[i + 1..];
    }
  }

  /**
   * The regular expression of RFC 3986 Appendix B applied to `url`. A scheme,
   * when there is one, is not empty and is followed by more text (at least `:`).
   */
  function Decompose(url: string): (parts: UrlParts)
    ensures parts.scheme.Some? ==> 0 < |parts.scheme.value| < |url|
  {
    var (scheme, afterScheme) := SplitScheme(url);
    var (authority, afterAuthority) := SplitAuthority(afterScheme);
    var (beforeFragment, fragment) := SplitAtFirst(afterAuthority, '#');
    var (path, query) := SplitAtFirst(beforeFragment, '?');
    UrlParts(scheme, authority, path, query, fragment)
  }

  /** Component recomposition, section 5.3 of RFC 3986. */
  function Recompose(p: UrlParts): string {
    SchemeText(p.scheme) + AuthorityText(p.authority) + p.path
    + DelimitedText('?', p.query) + DelimitedText('#', p.fragment)
  }

  /** The decomposition loses nothing: recomposing it gives back the URL. */
  lemma RecomposeDecompose(url: string)
    ensures Recompose(Decompose(url)) == url
  {
    var s := SplitScheme(url);
    var a := SplitAuthority(s.1);
    var f := SplitAtFirst(a.1, '#');
    var q := SplitAtFirst(f.0, '?');
    assert Decompose(url) == UrlParts(s.0, a.0, q.0, q.1, f.1);
    SplitSchemeText(url);
    SplitAuthorityText(s.1);
    SplitAtFirstText(a.1, '#');
    SplitAtFirstText(f.0, '?');
    Regroup(SchemeText(s.0), AuthorityText(a.0), q.0, DelimitedText('?', q.1), DelimitedText('#', f.1));
  }

  lemma Regroup(a: string, b: string, c: string, d: string, e: string)
    ensures a + (b + ((c + d) + e)) == a + b + c + d + e
  {
    assert (c + d) + e == c + (d + e);
    assert b + (c + (d + e)) == (b + c) + (d + e);
  }

  /**
   * `urlparse(url)`: the decomposition with absent parts as "" and the scheme
   * lower-cased. The five components are disjoint parts of the URL, so their
   * lengths add up to at most its length.
   */
  function UrlParse(url: string): (r: ParsedUrl)
    ensures |r.scheme| + |r.netloc| + |r.path| + |r.query| + |r.fragment| <= |url|
  {
    var parts := Decompose(url);
    RecomposeDecompose(url);
    ParsedUrl(Lower(parts.scheme.GetOr("")), parts.authority.GetOr(""), parts.path,
              parts.query.GetOr(""), parts.fragment.GetOr(""))
  }

  /**
   * The decomposition takes as much as each pattern allows. A scheme holds no
   * `:/?#` and is followed by `:` in the URL. After an authority the path is
   * empty or starts with `/`, so the authority did not stop before a `/`.
   */
  lemma DecomposeMaximal(url: string)
    ensures var p := Decompose(url);
      p.scheme.Some? ==>
        && (forall k :: 0 <= k < |p.scheme.value| ==> p.scheme.value[k] !in SchemeStops)
        && url[|p.scheme.value|] == ':'
    ensures var p := Decompose(url);
      p.authority.Some? ==> p.path == "" || p.path[0] == '/'
  {
    FindFirstStops(url, SchemeStops);
    var afterScheme := SplitScheme(url).1;
    if |afterScheme| >= 2 && afterScheme[..2] == "//" {
      var t := afterScheme[2..];
      FindFirstStops(t, AuthorityStops);
      var rest := SplitAuthority(afterScheme).1;
      assert rest == t[FindFirst(t, AuthorityStops)..];
      var beforeFragment := SplitAtFirst(rest, '#').0;
      FindFirstStops(rest, {'#'});
      FindFirstStops(beforeFragment, {'?'});
      if rest != [] && rest[0] != '#' {
        assert beforeFragment[0] == rest[0];
      }
    }
  }

  /**
   * Where the URL has `//` after its scheme, the netloc is everything from
   * there to the first `/`, `?` or `#` (or to the end): it is followed in the
   * URL by one of those or by nothing.
   */
  lemma NetlocExtent(url: string)
    ensures var netloc := UrlParse(url).netloc; var rest := SplitScheme(url).1;
      |rest| >= 2 && rest[..2] == "//" ==>
        && 2 + |netloc| <= |rest|
        && rest[2..2 + |netloc|] == netloc
        && (2 + |netloc| == |rest| || rest[2 + |netloc|] in AuthorityStops)
    ensures var rest := SplitScheme(url).1;
      |rest| >= 2 && rest[..2] == "//" ==> Decompose(url).authority.Some?
  {
    var rest := SplitScheme(url).1;
    if |rest| >= 2 && rest[..2] == "//" {
      FindFirstStops(rest[2..], AuthorityStops);
    }
  }

  /** An authority stops before the first `/`, `?` or `#`. */
  lemma AuthorityDelimiters(s: string)
    ensures var r := SplitAuthority(s);
      r.0.Some? ==> forall k :: 0 <= k < |r.0.value| ==> r.0.value[k] !in AuthorityStops
  {
    if |s| >= 2 && s[..2] == "//" {
      var t := s[2..];
      var i := FindFirst(t, AuthorityStops);
      FindFirstStops(t, AuthorityStops);
      assert SplitAuthority(s).0.value == t[..i];
    }
  }

  /** What comes before the first `c` holds no `c`. */
  lemma BeforeFirstDelimiter(s: string, c: char)
    ensures var r := SplitAtFirst(s, c);
      forall k :: 0 <= k < |r.0| ==> r.0[k] != c
  {
    var i := FindFirst(s, {c});
    FindFirstStops(s, {c});
    assert SplitAtFirst(s, c).0 == s[..i];
  }

  /** No component holds a delimiter that would have ended it. */
  lemma ComponentDelimiters(url: string)
    ensures var p := UrlParse(url);
      forall k :: 0 <= k < |p.netloc| ==> p.netloc[k] !in AuthorityStops
    ensures var p := UrlParse(url);
      forall k :: 0 <= k < |p.path| ==> p.path[k] != '?' && p.path[k] != '#'
    ensures var p := UrlParse(url);
      forall k :: 0 <= k < |p.query| ==> p.query[k] != '#'
  {
    var s := SplitScheme(url);
    var a := SplitAuthority(s.1);
    var f := SplitAtFirst(a.1, '#');
    var q := SplitAtFirst(f.0, '?');
    assert Decompose(url) == UrlParts(s.0, a.0, q.0, q.1, f.1);
    AuthorityDelimiters(s.1);
    BeforeFirstDelimiter(a.1, '#');
    BeforeFirstDelimiter(f.0, '?');
    SplitAtFirstText(f.0, '?');
    assert forall k :: 0 <= k < |q.0| ==> q.0[k] == f.0[k];
    if q.1.Some? {
      assert forall k :: 0 <= k < |q.1.value| ==> q.1.value[k] == f.0[|q.0| + 1 + k];
    }
  }

  /**
   * Every character of the netloc, path, query and fragment is a character of
   * the URL, each used once: component counts never exceed whole-URL counts.
   */
  lemma ComponentsWithinUrl(url: string)
    ensures var p := UrlParse(url);
      multiset(p.netloc) + multiset(p.path) + multiset(p.query) + multiset(p.fragment) <= multiset(url)
    ensures var p := UrlParse(url);
      |p.netloc| + |p.path| + |p.query| + |p.fragment| <= |url|
  {
    var parts := Decompose(url);
    RecomposeDecompose(url);
    var a := SchemeText(parts.scheme);
    var b := AuthorityText(parts.authority);
    var q := DelimitedText('?', parts.query);
    var f := DelimitedText('#', parts.fragment);
    assert url == a + b + parts.path + q + f;
    var p := UrlParse(url);
    assert multiset(p.netloc) <= multiset(b);
    assert multiset(p.query) <= multiset(q);
    assert multiset(p.fragment) <= multiset(f);
    assert multiset(url) == multiset(a) + multiset(b) + multiset(parts.path) + multiset(q) + multiset(f);
  }

  /** A run free of `:/?#` followed by `:` is split off as the scheme. */
  lemma SchemeOfParts(scheme: string, rest: string)
    requires |scheme| > 0 && forall k :: 0 <= k < |scheme| ==> scheme[k] !in SchemeStops
    ensures SplitScheme(scheme + ":" + rest) == (Some(scheme), rest)
  {
    var s := scheme + ":" + rest;
    FindFirstUnique(s, SchemeStops, |scheme|);
    assert s[..|scheme|] == scheme;
    assert s[|scheme| + 1..] == rest;
  }

  /** After `//`, a host free of `/?#` followed by an empty or `/`-led rest is the authority. */
  lemma AuthorityOfParts(host: string, rest: string)
    requires forall k :: 0 <= k < |host| ==> host[k] !in AuthorityStops
    requires rest == "" || rest[0] == '/'
    ensures SplitAuthority("//" + host + rest) == (Some(host), rest)
  {
    var s := "//" + host + rest;
    assert s[..2] == "//";
    assert s[2..] == host + rest;
    FindFirstUnique(host + rest, AuthorityStops, |host|);
    assert s[2..2 + |host|] == host;
    assert s[2 + |host|..] == rest;
  }

  /** Text without `c` is not split at `c`. */
  lemma NoDelimiter(s: string, c: char)
    requires forall k :: 0 <= k < |s| ==> s[k] != c
    ensures SplitAtFirst(s, c) == (s, None)
  {
    FindFirstUnique(s, {c}, |s|);
  }

  /** `urlsplit("///x")` has an empty authority, so its path is `/x`, not `///x`. */
  lemma EmptyAuthorityPath()
    ensures UrlParse("///x") == ParsedUrl("", "", "/x", "", "")
  {
    var url := "///x";
    assert FindFirst(url, SchemeStops) == 0 by { assert url[0] in SchemeStops; }
    assert SplitScheme(url) == (None, url);
    assert url == "//" + "" + "/x";
    AuthorityOfParts("", "/x");
    NoDelimiter("/x", '#');
    NoDelimiter("/x", '?');
    assert Decompose(url) == UrlParts(None, Some(""), "/x", None, None);
  }

  /**
   * The split of a URL `scheme://host/path` with no query and no fragment: the
   * scheme lower-cased, the host as the netloc, and the path.
   */
  lemma ParseOfSimpleUrl(scheme: string, host: string, path: string)
    requires |scheme| > 0 && forall k :: 0 <= k < |scheme| ==> scheme[k] !in SchemeStops
    requires forall k :: 0 <= k < |host| ==> host[k] !in AuthorityStops
    requires path == "" || path[0] == '/'
    requires forall k :: 0 <= k < |path| ==> path[k] != '?' && path[k] != '#'
    ensures UrlParse(scheme + "://" + host + path) == ParsedUrl(Lower(scheme), host, path, "", "")
  {
    var url := scheme + "://" + host + path;
    assert url == scheme + ":" + ("//" + host + path);
    SchemeOfParts(scheme, "//" + host + path);
    AuthorityOfParts(host, path);
    NoDelimiter(path, '#');
    NoDelimiter(path, '?');
    assert Decompose(url) == UrlParts(Some(scheme), Some(host), path, None, None);
  }
}
