/**
 * What the URL features mean, stated apart from how they are computed: counts
 * in terms of the pieces a split yields, flags in terms of the patterns they
 * detect, and the bounds one feature places on another.
 */
module FeatureProperties {
  import opened Strings
  import opened UrlSplit
  import opened Ipv4Pattern
  import opened FeatureNames
  import opened FeatureExtraction

  /**
   * (15) is 0 exactly when the URL starts with `https:` in any mix of cases: the
   * scheme is the text before the first `:` and lower-cases to `https`.
   */
  lemma NoHttpsMeansPrefix(url: string)
    ensures CheckHttps(url) == 0 <==> |url| > 5 && url[5] == ':' && Lower(url[..5]) == "https"
  {
    var scheme := SplitScheme(url).0;
    assert UrlParse(url).scheme == Lower(scheme.GetOr(""));
    if |url| > 5 && url[5] == ':' && Lower(url[..5]) == "https" {
      assert forall k :: 0 <= k < 5 ==> LowerChar(url[k]) == "https"[k];
      FindFirstUnique(url, SchemeStops, 5);
    }
    if Lower(scheme.GetOr("")) == "https" {
      FindFirstStops(url, SchemeStops);
    }
  }

  /**
   * (17) holds exactly when the netloc is four dot-joined groups of one to three
   * digits (with at most a final newline after them), which takes seven to
   * sixteen characters.
   */
  lemma IpAddressMeansDottedQuad(url: string)
    ensures CheckIpAddress(url) == 1 <==> InIpv4Language(UrlParse(url).netloc)
    ensures CheckIpAddress(url) == 1 ==> 7 <= GetHostnameLength(url) <= 16
  {
    var host := UrlParse(url).netloc;
    MatchesIffInLanguage(host);
  }

  /**
   * (18) holds exactly when the netloc has three or more labels and the label
   * before the last is one of the labels before it.
   */
  lemma DomainInSubdomainsMeaning(url: string)
    ensures var labels := Split(UrlParse(url).netloc, '.');
      CheckDomainInSubdomains(url) == 1 <==>
        |labels| >= 3 && exists j :: 0 <= j < |labels| - 2 && labels[j] == labels[|labels| - 2]
  {
    var labels := Split(UrlParse(url).netloc, '.');
    if |labels| >= 3 {
      var before := labels[..|labels| - 2];
      assert forall j :: 0 <= j < |labels| - 2 ==> before[j] == labels[j];
    }
  }

  /** A random-looking segment is a piece of the path, so (16) needs a path of more than 15 characters. */
  lemma RandomSegmentNeedsLongPath(url: string)
    ensures HasRandomSegment(url) ==> GetPathLength(url) > 15
  {
    if HasRandomSegment(url) {
      var path := UrlParse(url).path;
      var segments := PathSegments(url);
      var i :| 0 <= i < |segments| && RandomLooking(segments[i]);
      SplitAnyPieceIsSubstring(path, {'/'}, i);
      SubstringShorter(segments[i], path);
    }
  }

  /** A `//` in the path is two slashes in it, so (24) implies a path level of at least 2. */
  lemma DoubleSlashDeepensPath(url: string)
    ensures GetDoubleSlashInPath(url) == 1 ==> GetPathLevel(url) >= 2
  {
    var path := UrlParse(url).path;
    if IsSubstring("//", path) {
      var i :| 0 <= i <= |path| && OccursAt("//", path, i);
      assert path == path[..i] + "//" + path[i + 2..];
      CountCharAppend(path[..i] + "//", path[i + 2..], '/');
      CountCharAppend(path[..i], "//", '/');
    }
  }

  /** The netloc, path and query are disjoint pieces of the URL: (21) + (22) + (23) never exceeds (1). */
  lemma ComponentLengthsWithinUrl(url: string)
    ensures GetHostnameLength(url) + GetPathLength(url) + GetQueryLength(url) <= GetUrlLength(url)
  {
    ComponentsWithinUrl(url);
  }

  /** The netloc is part of the URL: dashes in the hostname (6) never exceed dashes in the URL (5). */
  lemma HostnameDashesWithinUrl(url: string)
    ensures GetSymbolCounts(url)[NumDashInHostname] <= GetSymbolCounts(url)[NumDash]
  {
    ComponentsWithinUrl(url);
    FewerInPart(UrlParse(url).netloc, url, '-');
  }

  /** A string whose characters are among those of `s` has no more `c`s than `s`. */
  lemma FewerInPart(part: string, s: string, c: char)
    requires multiset(part) <= multiset(s)
    ensures CountChar(part, c) <= CountChar(s, c)
  {
    CountCharMultiplicity(part, c);
    CountCharMultiplicity(s, c);
  }

  /** A token of the lower-cased URL occurs in it: the third brand test follows from the first. */
  lemma BrandTokenOccursInUrl(url: string, brand: string)
    ensures brand in BrandTokens(url) ==> IsSubstring(brand, Lower(url))
  {
    if brand in BrandTokens(url) {
      var tokens := BrandTokens(url);
      var j :| 0 <= j < |tokens| && tokens[j] == brand;
      SplitAnyPieceIsSubstring(Lower(url), BrandSeparators, j);
    }
  }

  /** (26) holds exactly when some brand is a `[/.-]`-token of the lower-cased URL but not part of the netloc. */
  lemma EmbeddedBrandMeaning(url: string)
    ensures HasEmbeddedBrand(url) <==>
      exists i :: 0 <= i < |CommonBrands| &&
        CommonBrands[i] in BrandTokens(url) && !IsSubstring(CommonBrands[i], UrlParse(url).netloc)
  {
    forall i | 0 <= i < |CommonBrands|
      ensures BrandOutsideHost(url, CommonBrands[i]) <==>
        CommonBrands[i] in BrandTokens(url) && !IsSubstring(CommonBrands[i], UrlParse(url).netloc)
    {
      BrandTokenOccursInUrl(url, CommonBrands[i]);
    }
  }
}
