/**
 * The URL feature extractor: 26 features computed from the URL text alone and
 * 22 page-content and real-time features that a URL cannot supply, which
 * always hold the placeholder -1. Each feature takes the raw URL and splits it
 * afresh, as the extractor does.
 */
module FeatureExtraction {
  import opened Strings
  import opened UrlSplit
  import opened Ipv4Pattern
  import opened FeatureNames

  /** The feature dictionary: a value for each column present. */
  type FeatureDict = map<Feature, int>

  /** The value of every feature that cannot be computed from the URL. */
  const PlaceholderValue: int := -1

  const SensitiveWords: seq<string> := [
    "login", "verify", "update", "account", "bank", "secure", "paypal", "amazon", "ebay", "signin"]
  const CommonBrands: seq<string> := ["paypal", "google", "amazon", "microsoft", "apple"]
  /** The character class of `re.split(r'[/.-]', ...)`. */
  const BrandSeparators: set<char> := {'/', '.', '-'}

  /** `1 if b else 0`. */
  function Flag(b: bool): nat {
    if b then 1 else 0
  }

  // (1)-(4): length, dots, subdomain level, path level

  /** `len(url)`: room for the hostname, path and query together. */
  function GetUrlLength(url: string): (length: nat)
    ensures |UrlParse(url).netloc| + |UrlParse(url).path| + |UrlParse(url).query| <= length
  {
    |url|
  }

  /** `url.count('.')`; CountCharMultiplicity gives its meaning as a multiplicity. */
  function GetNumDots(url: string): (dots: nat)
    ensures dots <= |url|
    ensures dots == 0 <==> '.' !in url
  {
    CountChar(url, '.')
  }

  /**
   * Dots in the netloc minus one, and 0 when the netloc is empty or has no dot:
   * the number of the netloc's dot-separated labels beyond the last two.
   */
  function GetSubdomainLevel(url: string): (level: nat)
    ensures var labels := Split(UrlParse(url).netloc, '.');
      level == if |labels| > 2 then |labels| - 2 else 0
  {
    var host := UrlParse(url).netloc;
    SplitCount(host, '.');
    if host == "" then 0
    else if CountChar(host, '.') > 0 then CountChar(host, '.') - 1
    else 0
  }

  /**
   * Slashes in the path, and 0 for an empty or root path: otherwise the number
   * of the path's `/`-separated segments beyond the first.
   */
  function GetPathLevel(url: string): (level: nat)
    ensures var path := UrlParse(url).path;
      level == if path == "" || path == "/" then 0 else |Split(path, '/')| - 1
  {
    var path := UrlParse(url).path;
    SplitCount(path, '/');
    if path == "" || path == "/" then 0 else CountChar(path, '/')
  }

  /** (5)-(10): dash, at-sign, tilde, underscore and percent features, one column each, none negative. */
  function GetSymbolCounts(url: string): (counts: FeatureDict)
    ensures counts.Keys == SymbolFeatures
    ensures ValuesNonNegative(counts)
  {
    var host := UrlParse(url).netloc;
    map[
      NumDash := CountChar(url, '-'),
      NumDashInHostname := CountChar(host, '-'),
      AtSymbol := Flag('@' in url),
      TildeSymbol := Flag('~' in url),
      NumUnderscore := CountChar(url, '_'),
      NumPercent := CountChar(url, '%')]
  }

  /**
   * (11)-(13): `&`-separated query pieces, ampersands, and a non-empty fragment.
   * The piece count is 0 exactly for an empty query, and otherwise one more than
   * the ampersands.
   */
  function GetQueryAndFragmentInfo(url: string): (info: FeatureDict)
    ensures info.Keys == QueryFeatures
    ensures ValuesNonNegative(info)
    ensures info[NumQueryComponents] == 0 <==> UrlParse(url).query == ""
    ensures UrlParse(url).query != "" ==> info[NumQueryComponents] == info[NumAmpersand] + 1
  {
    var parsed := UrlParse(url);
    var query := parsed.query;
    SplitCount(query, '&');
    var numQueryComponents := if query != "" then |Split(query, '&')| else 0;
    map[
      NumQueryComponents := numQueryComponents,
      NumAmpersand := CountChar(query, '&'),
      NumHash := Flag(parsed.fragment != "")]
  }

  /** (14): ASCII digits anywhere in the URL: 0 exactly when there is none, and at most the URL length. */
  function GetNumNumericChars(url: string): (n: nat)
    ensures n <= |url|
    ensures n == 0 <==> !ContainsDigit(url)
  {
    CountDigits(url)
  }

  /** (15): 1 when the (lower-cased) scheme is not `https`; a flag, 0 or 1. */
  function CheckHttps(url: string): (noHttps: nat)
    ensures noHttps <= 1
  {
    Flag(UrlParse(url).scheme != "https")
  }

  /** A path segment longer than 15 characters without a digit. */
  predicate RandomLooking(segment: string) {
    |segment| > 15 && !ContainsDigit(segment)
  }

  /** `path.split('/')`. */
  function PathSegments(url: string): (segments: seq<string>)
    ensures |segments| >= 1
  {
    Split(UrlParse(url).path, '/')
  }

  /** The condition behind (16): some path segment looks random. */
  predicate HasRandomSegment(url: string) {
    var segments := PathSegments(url);
    exists i :: 0 <= i < |segments| && RandomLooking(segments[i])
  }

  /** (16) as the extractor computes it: a scan of the segments that stops at the first random-looking one. */
  method CheckRandomString(url: string) returns (flag: int)
    ensures flag == Flag(HasRandomSegment(url))
  {
    var segments := PathSegments(url);
    var i := 0;
    while i < |segments|
      invariant 0 <= i <= |segments|
      invariant forall j :: 0 <= j < i ==> !RandomLooking(segments[j])
    {
      if RandomLooking(segments[i]) {
        return 1;
      }
      i := i + 1;
    }
    return 0;
  }

  /** (17): the netloc, port and userinfo included, matches the IPv4 pattern; a flag, 0 or 1. */
  function CheckIpAddress(url: string): (ipAddress: nat)
    ensures ipAddress <= 1
  {
    Flag(MatchesIpv4Pattern(UrlParse(url).netloc))
  }

  /**
   * (18): with three or more labels, the label before the last occurs among the
   * labels before it. A flag, 0 or 1, and 1 only for a netloc with two dots or more.
   */
  function CheckDomainInSubdomains(url: string): (domainInSubdomains: nat)
    ensures domainInSubdomains <= 1
    ensures domainInSubdomains == 1 ==> CountChar(UrlParse(url).netloc, '.') >= 2
  {
    var labels := Split(UrlParse(url).netloc, '.');
    SplitCount(UrlParse(url).netloc, '.');
    if |labels| >= 3 then Flag(labels[|labels| - 2] in labels[..|labels| - 2])
    else 0
  }

  /**
   * (19): the label before the last (the whole netloc when it has no dot) is a
   * substring of the path. A flag, 0 or 1. With no netloc the base domain is
   * empty, and the empty string occurs in every path, so the flag is 1.
   */
  function CheckDomainInPaths(url: string): (domainInPaths: nat)
    ensures domainInPaths <= 1
    ensures UrlParse(url).netloc == "" ==> domainInPaths == 1
  {
    var parsed := UrlParse(url);
    FindFirstUnique("", {'.'}, 0);
    assert Split("", '.') == [""];
    assert OccursAt("", parsed.path, 0);
    var labels := Split(parsed.netloc, '.');
    var baseDomain := if |labels| >= 2 then labels[|labels| - 2] else parsed.netloc;
    Flag(IsSubstring(baseDomain, parsed.path))
  }

  /** (20): `https` occurs in the lower-cased netloc; a flag, 0 or 1, and 1 only for a netloc of five characters or more. */
  function CheckHttpsInHostname(url: string): (httpsInHostname: nat)
    ensures httpsInHostname <= 1
    ensures httpsInHostname == 1 ==> |UrlParse(url).netloc| >= 5
  {
    Flag(IsSubstring("https", Lower(UrlParse(url).netloc)))
  }

  // (21)-(24): component lengths and a doubled slash

  function GetHostnameLength(url: string): (hostnameLength: nat)
    ensures hostnameLength <= |url|
  {
    |UrlParse(url).netloc|
  }

  function GetPathLength(url: string): (pathLength: nat)
    ensures pathLength <= |url|
  {
    |UrlParse(url).path|
  }

  function GetQueryLength(url: string): (queryLength: nat)
    ensures queryLength <= |url|
  {
    |UrlParse(url).query|
  }

  /** `1 if '//' in path else 0`; DoubleSlashDeepensPath ties it to the path level. */
  function GetDoubleSlashInPath(url: string): (doubleSlash: nat)
    ensures doubleSlash <= 1
    ensures doubleSlash == 1 ==> |UrlParse(url).path| >= 2
  {
    Flag(IsSubstring("//", UrlParse(url).path))
  }

  /** `sum(s.count(w) for w in words)`. */
  function TotalOccurrences(s: string, words: seq<string>): nat {
    if words == [] then 0
    else CountOccurrences(s, words[0]) + TotalOccurrences(s, words[1..])
  }

  /** `sum(s.count(w) for w in words)` is 0 exactly when no word occurs in `s`. */
  lemma {:induction false} NoOccurrences(s: string, words: seq<string>)
    ensures TotalOccurrences(s, words) == 0 <==> forall i :: 0 <= i < |words| ==> !IsSubstring(words[i], s)
  {
    if words != [] {
      CountOccurrencesPositive(s, words[0]);
      NoOccurrences(s, words[1..]);
      assert forall i :: 1 <= i < |words| ==> words[i] == words[1..][i - 1];
    }
  }

  /** Every word's own count is part of the sum: each occurrence of each word adds one. */
  lemma {:induction false} EachWordCounted(s: string, words: seq<string>, i: nat)
    requires i < |words|
    ensures CountOccurrences(s, words[i]) <= TotalOccurrences(s, words)
  {
    if i > 0 {
      assert words[1..][i - 1] == words[i];
      EachWordCounted(s, words[1..], i - 1);
    }
  }

  /** The sum over a concatenation of word lists is the sum of the two sums. */
  lemma {:induction false} TotalOccurrencesAppend(s: string, a: seq<string>, b: seq<string>)
    ensures TotalOccurrences(s, a + b) == TotalOccurrences(s, a) + TotalOccurrences(s, b)
  {
    if a == [] {
      assert a + b == b;
    } else {
      assert (a + b)[1..] == a[1..] + b;
      TotalOccurrencesAppend(s, a[1..], b);
    }
  }

  /** (25): occurrences of the sensitive words in the lower-cased URL, summed; 0 exactly when none of the ten occurs. */
  function GetNumSensitiveWords(url: string): (n: nat)
    ensures n == 0 <==> forall i :: 0 <= i < |SensitiveWords| ==> !IsSubstring(SensitiveWords[i], Lower(url))
  {
    NoOccurrences(Lower(url), SensitiveWords);
    TotalOccurrences(Lower(url), SensitiveWords)
  }

  /**
   * Each sensitive word's count, with all its non-overlapping occurrences, is
   * part of (25); the ten counts add up to it.
   */
  lemma SensitiveWordsCounted(url: string)
    ensures forall i :: 0 <= i < |SensitiveWords| ==>
      CountOccurrences(Lower(url), SensitiveWords[i]) <= GetNumSensitiveWords(url)
    ensures GetNumSensitiveWords(url) ==
      TotalOccurrences(Lower(url), SensitiveWords[..5]) + TotalOccurrences(Lower(url), SensitiveWords[5..])
  {
    forall i | 0 <= i < |SensitiveWords|
      ensures CountOccurrences(Lower(url), SensitiveWords[i]) <= GetNumSensitiveWords(url)
    {
      EachWordCounted(Lower(url), SensitiveWords, i);
    }
    assert SensitiveWords == SensitiveWords[..5] + SensitiveWords[5..];
    TotalOccurrencesAppend(Lower(url), SensitiveWords[..5], SensitiveWords[5..]);
  }

  /** The tokens of `re.split(r'[/.-]', url.lower())`. */
  function BrandTokens(url: string): (tokens: seq<string>)
    ensures |tokens| >= 1
  {
    SplitAny(Lower(url), BrandSeparators)
  }

  /** The three tests the extractor applies to one brand. */
  predicate BrandOutsideHost(url: string, brand: string) {
    brand in BrandTokens(url)
    && !IsSubstring(brand, UrlParse(url).netloc)
    && IsSubstring(brand, Lower(url))
  }

  /** The condition behind (26): some brand passes the three tests. */
  predicate HasEmbeddedBrand(url: string) {
    exists i :: 0 <= i < |CommonBrands| && BrandOutsideHost(url, CommonBrands[i])
  }

  /** (26) as the extractor computes it: a scan of the brands that stops at the first that passes. */
  method CheckEmbeddedBrandName(url: string) returns (flag: int)
    ensures flag == Flag(HasEmbeddedBrand(url))
  {
    var urlParts := BrandTokens(url);
    var i := 0;
    while i < |CommonBrands|
      invariant 0 <= i <= |CommonBrands|
      invariant forall j :: 0 <= j < i ==> !BrandOutsideHost(url, CommonBrands[j])
    {
      var brand := CommonBrands[i];
      if brand in urlParts {
        var host := UrlParse(url).netloc;
        if !IsSubstring(brand, host) && IsSubstring(brand, Lower(url)) {
          return 1;
        }
      }
      i := i + 1;
    }
    return 0;
  }

  /** (27)-(42): the page-content features, every one the placeholder. */
  function GetContentBasedFeatures(): (features: FeatureDict)
    ensures forall f :: f in features ==> features[f] == PlaceholderValue
  {
    map[
      PctExtHyperlinks := PlaceholderValue,
      PctExtResourceUrls := PlaceholderValue,
      ExtFavicon := PlaceholderValue,
      InsecureForms := PlaceholderValue,
      RelativeFormAction := PlaceholderValue,
      ExtFormAction := PlaceholderValue,
      AbnormalFormAction := PlaceholderValue,
      PctNullSelfRedirectHyperlinks := PlaceholderValue,
      FrequentDomainNameMismatch := PlaceholderValue,
      FakeLinkInStatusBar := PlaceholderValue,
      RightClickDisabled := PlaceholderValue,
      PopUpWindow := PlaceholderValue,
      SubmitInfoToEmail := PlaceholderValue,
      IframeOrFrame := PlaceholderValue,
      MissingTitle := PlaceholderValue,
      ImagesOnlyInForm := PlaceholderValue]
  }

  /** (43)-(48): the real-time features, every one the placeholder. */
  function GetRealtimeFeatures(): (features: FeatureDict)
    ensures forall f :: f in features ==> features[f] == PlaceholderValue
  {
    map[
      SubdomainLevelRT := PlaceholderValue,
      UrlLengthRT := PlaceholderValue,
      PctExtResourceUrlsRT := PlaceholderValue,
      AbnormalExtFormActionR := PlaceholderValue,
      ExtMetaScriptLinkRT := PlaceholderValue,
      PctExtNullSelfRedirectHyperlinksRT := PlaceholderValue]
  }

  // The dictionary the extractor builds. The proofs about it go through Assemble,
  // the same construction over values taken as given, so that no proof about the
  // dictionary has to look inside the feature computations.

  /** The seventeen values the extractor assigns one by one: ten structural, seven heuristic. */
  datatype AssignedValues = AssignedValues(
    urlLength: int, numDots: int, subdomainLevel: int, pathLevel: int, numNumericChars: int,
    noHttps: int, hostnameLength: int, pathLength: int, queryLength: int, doubleSlashInPath: int,
    randomString: int, ipAddress: int, domainInSubdomains: int, domainInPaths: int,
    httpsInHostname: int, numSensitiveWords: int, embeddedBrandName: int)

  /** The ten structural assignments, made to an empty dictionary. */
  function StructuralPart(v: AssignedValues): FeatureDict {
    var empty: FeatureDict := map[];
    empty[UrlLength := v.urlLength][NumDots := v.numDots]
      [SubdomainLevel := v.subdomainLevel][PathLevel := v.pathLevel]
      [NumNumericChars := v.numNumericChars][NoHttps := v.noHttps]
      [HostnameLength := v.hostnameLength][PathLength := v.pathLength]
      [QueryLength := v.queryLength][DoubleSlashInPath := v.doubleSlashInPath]
  }

  /** The seven heuristic assignments, made to `d`. */
  function WithHeuristics(d: FeatureDict, v: AssignedValues): FeatureDict {
    d[RandomString := v.randomString][IpAddress := v.ipAddress]
      [DomainInSubdomains := v.domainInSubdomains][DomainInPaths := v.domainInPaths]
      [HttpsInHostname := v.httpsInHostname][NumSensitiveWords := v.numSensitiveWords]
      [EmbeddedBrandName := v.embeddedBrandName]
  }

  /** The dictionary the extractor builds from what it computes, step by step as it builds it. */
  function Assemble(v: AssignedValues, symbols: FeatureDict, query: FeatureDict): FeatureDict {
    WithHeuristics(StructuralPart(v) + symbols + query, v)
    + GetContentBasedFeatures() + GetRealtimeFeatures()
  }

  /** Every entry of `part` is in `d`, with the same value. */
  ghost predicate Includes(d: FeatureDict, part: FeatureDict) {
    forall f :: f in part ==> f in d && d[f] == part[f]
  }

  /** `d.update(part)` holds all of `part`. */
  lemma IncludesMerged(d: FeatureDict, part: FeatureDict)
    ensures Includes(d + part, part)
  {
  }

  /** An update with other keys keeps what `d` held of `part`. */
  lemma IncludesAfterMerge(d: FeatureDict, part: FeatureDict, other: FeatureDict)
    requires Includes(d, part) && part.Keys * other.Keys == {}
    ensures Includes(d + other, part)
  {
    forall f | f in part
      ensures f in d + other && (d + other)[f] == part[f]
    {
      assert f !in part.Keys * other.Keys;
    }
  }

  /** The heuristic assignments keep what `d` held of a part without heuristic keys. */
  lemma IncludesAfterHeuristics(d: FeatureDict, part: FeatureDict, v: AssignedValues)
    requires Includes(d, part) && part.Keys * HeuristicFeatures == {}
    ensures Includes(WithHeuristics(d, v), part)
  {
    forall f | f in part
      ensures f in WithHeuristics(d, v) && WithHeuristics(d, v)[f] == part[f]
    {
      assert f !in part.Keys * HeuristicFeatures;
    }
  }

  /** The heuristic assignments alone. */
  function HeuristicPart(v: AssignedValues): FeatureDict {
    WithHeuristics(map[], v)
  }

  /** The structural part has the structural columns, with the values assigned. */
  lemma StructuralPartColumns(d: FeatureDict, v: AssignedValues)
    ensures StructuralPart(v).Keys == StructuralFeatures
    ensures Includes(d, StructuralPart(v)) ==>
      && d[UrlLength] == v.urlLength
      && d[NumDots] == v.numDots
      && d[SubdomainLevel] == v.subdomainLevel
      && d[PathLevel] == v.pathLevel
      && d[NumNumericChars] == v.numNumericChars
      && d[NoHttps] == v.noHttps
      && d[HostnameLength] == v.hostnameLength
      && d[PathLength] == v.pathLength
      && d[QueryLength] == v.queryLength
      && d[DoubleSlashInPath] == v.doubleSlashInPath
  {
  }

  /** The heuristic assignments add the heuristic columns, with the values assigned. */
  lemma HeuristicColumns(d: FeatureDict, v: AssignedValues)
    ensures WithHeuristics(d, v).Keys == d.Keys + HeuristicFeatures
    ensures HeuristicPart(v).Keys == HeuristicFeatures
    ensures Includes(WithHeuristics(d, v), HeuristicPart(v))
    ensures Includes(d, HeuristicPart(v)) ==>
      && d[RandomString] == v.randomString
      && d[IpAddress] == v.ipAddress
      && d[DomainInSubdomains] == v.domainInSubdomains
      && d[DomainInPaths] == v.domainInPaths
      && d[HttpsInHostname] == v.httpsInHostname
      && d[NumSensitiveWords] == v.numSensitiveWords
      && d[EmbeddedBrandName] == v.embeddedBrandName
  {
  }

  /** The structural part updated with the symbol and the query groups holds all three. */
  lemma UrlGroupsMerged(v: AssignedValues, symbols: FeatureDict, query: FeatureDict)
    requires symbols.Keys == SymbolFeatures && query.Keys == QueryFeatures
    ensures var m := StructuralPart(v) + symbols + query;
      && m.Keys == StructuralFeatures + SymbolFeatures + QueryFeatures
      && Includes(m, StructuralPart(v)) && Includes(m, symbols) && Includes(m, query)
  {
    var structural := StructuralPart(v);
    StructuralPartColumns(structural, v);
    UrlGroupsDisjoint();
    IncludesMerged(map[], structural);
    assert map[] + structural == structural;
    IncludesAfterMerge(structural, structural, symbols);
    IncludesMerged(structural, symbols);
    IncludesAfterMerge(structural + symbols, structural, query);
    IncludesAfterMerge(structural + symbols, symbols, query);
    IncludesMerged(structural + symbols, query);
  }

  /** The heuristic assignments keep the three URL groups and add the heuristic part. */
  lemma HeuristicsAssigned(m: FeatureDict, v: AssignedValues, symbols: FeatureDict, query: FeatureDict)
    requires symbols.Keys == SymbolFeatures && query.Keys == QueryFeatures
    requires m.Keys == StructuralFeatures + SymbolFeatures + QueryFeatures
    requires Includes(m, StructuralPart(v)) && Includes(m, symbols) && Includes(m, query)
    ensures var h := WithHeuristics(m, v);
      && h.Keys == UrlFeatures
      && Includes(h, StructuralPart(v)) && Includes(h, symbols) && Includes(h, query)
      && Includes(h, HeuristicPart(v))
  {
    StructuralPartColumns(m, v);
    HeuristicColumns(m, v);
    UrlGroupsDisjoint();
    IncludesAfterHeuristics(m, StructuralPart(v), v);
    IncludesAfterHeuristics(m, symbols, v);
    IncludesAfterHeuristics(m, query, v);
  }

  /** A part without placeholder columns survives both placeholder updates. */
  lemma PartSurvivesPlaceholders(d: FeatureDict, part: FeatureDict)
    requires Includes(d, part) && part.Keys * ContentFeatures == {} && part.Keys * RealtimeFeatures == {}
    ensures Includes(d + GetContentBasedFeatures() + GetRealtimeFeatures(), part)
  {
    PlaceholderKeys();
    IncludesAfterMerge(d, part, GetContentBasedFeatures());
    IncludesAfterMerge(d + GetContentBasedFeatures(), part, GetRealtimeFeatures());
  }

  /** The placeholder updates complete the 26 URL columns to all 48, placeholders included. */
  lemma PlaceholdersMerged(h: FeatureDict)
    requires h.Keys == UrlFeatures
    ensures var d := h + GetContentBasedFeatures() + GetRealtimeFeatures();
      && d.Keys == AllFeatures && |d| == 48
      && Includes(d, GetContentBasedFeatures()) && Includes(d, GetRealtimeFeatures())
  {
    var content := GetContentBasedFeatures();
    var realtime := GetRealtimeFeatures();
    PlaceholderKeys();
    PlaceholderGroupsDisjoint();
    IncludesMerged(h, content);
    IncludesAfterMerge(h + content, content, realtime);
    IncludesMerged(h + content, realtime);
    UnionRegroup(UrlFeatures, ContentFeatures, RealtimeFeatures);
    FeatureCounts();
  }

  /** `(a + b) + c == a + (b + c)` for sets of columns. */
  lemma UnionRegroup(a: set<Feature>, b: set<Feature>, c: set<Feature>)
    ensures a + b + c == a + (b + c)
  {
  }

  /**
   * What the assembled dictionary holds: exactly the 48 columns, each structural and
   * heuristic value where it was assigned, and all of each merged group.
   */
  lemma AssembleColumns(v: AssignedValues, symbols: FeatureDict, query: FeatureDict)
    requires symbols.Keys == SymbolFeatures && query.Keys == QueryFeatures
    ensures var d := Assemble(v, symbols, query);
      && d.Keys == AllFeatures && |d| == 48
      && d[UrlLength] == v.urlLength
      && d[NumDots] == v.numDots
      && d[SubdomainLevel] == v.subdomainLevel
      && d[PathLevel] == v.pathLevel
      && d[NumNumericChars] == v.numNumericChars
      && d[NoHttps] == v.noHttps
      && d[HostnameLength] == v.hostnameLength
      && d[PathLength] == v.pathLength
      && d[QueryLength] == v.queryLength
      && d[DoubleSlashInPath] == v.doubleSlashInPath
      && Includes(d, symbols) && Includes(d, query)
      && d[RandomString] == v.randomString
      && d[IpAddress] == v.ipAddress
      && d[DomainInSubdomains] == v.domainInSubdomains
      && d[DomainInPaths] == v.domainInPaths
      && d[HttpsInHostname] == v.httpsInHostname
      && d[NumSensitiveWords] == v.numSensitiveWords
      && d[EmbeddedBrandName] == v.embeddedBrandName
      && Includes(d, GetContentBasedFeatures()) && Includes(d, GetRealtimeFeatures())
      && Includes(d, StructuralPart(v)) && Includes(d, HeuristicPart(v))
  {
    var merged := StructuralPart(v) + symbols + query;
    UrlGroupsMerged(v, symbols, query);
    var h := WithHeuristics(merged, v);
    HeuristicsAssigned(merged, v, symbols, query);
    var d := h + GetContentBasedFeatures() + GetRealtimeFeatures();
    PlaceholdersMerged(h);
    StructuralPartColumns(h, v);
    HeuristicColumns(h, v);
    PlaceholderGroupsDisjoint();
    PartSurvivesPlaceholders(h, StructuralPart(v));
    PartSurvivesPlaceholders(h, symbols);
    PartSurvivesPlaceholders(h, query);
    PartSurvivesPlaceholders(h, HeuristicPart(v));
    StructuralPartColumns(d, v);
    HeuristicColumns(d, v);
  }

  /** The columns of each group the extractor merges. */
  lemma PlaceholderKeys()
    ensures GetContentBasedFeatures().Keys == ContentFeatures
    ensures GetRealtimeFeatures().Keys == RealtimeFeatures
  {
  }

  /** The seventeen assigned values of a URL, each by the definition of its feature. */
  function ComputedValues(url: string): AssignedValues {
    AssignedValues(
      GetUrlLength(url), GetNumDots(url), GetSubdomainLevel(url), GetPathLevel(url),
      GetNumNumericChars(url), CheckHttps(url), GetHostnameLength(url), GetPathLength(url),
      GetQueryLength(url), GetDoubleSlashInPath(url),
      Flag(HasRandomSegment(url)), CheckIpAddress(url), CheckDomainInSubdomains(url),
      CheckDomainInPaths(url), CheckHttpsInHostname(url), GetNumSensitiveWords(url),
      Flag(HasEmbeddedBrand(url)))
  }

  /** The dictionary the extractor returns for `url`: exactly the 48 columns, for every URL. */
  function ExtractedFeatures(url: string): (features: FeatureDict)
    ensures features.Keys == AllFeatures
  {
    AssembleKeys(ComputedValues(url), GetSymbolCounts(url), GetQueryAndFragmentInfo(url));
    Assemble(ComputedValues(url), GetSymbolCounts(url), GetQueryAndFragmentInfo(url))
  }

  /** The assembled dictionary has exactly the 48 columns. */
  lemma AssembleKeys(v: AssignedValues, symbols: FeatureDict, query: FeatureDict)
    requires symbols.Keys == SymbolFeatures && query.Keys == QueryFeatures
    ensures Assemble(v, symbols, query).Keys == AllFeatures
  {
    AssembleColumns(v, symbols, query);
  }

  /** All seventeen assigned values are at least 0. */
  predicate NonNegative(v: AssignedValues) {
    && v.urlLength >= 0 && v.numDots >= 0 && v.subdomainLevel >= 0 && v.pathLevel >= 0
    && v.numNumericChars >= 0 && v.noHttps >= 0 && v.hostnameLength >= 0 && v.pathLength >= 0
    && v.queryLength >= 0 && v.doubleSlashInPath >= 0 && v.randomString >= 0 && v.ipAddress >= 0
    && v.domainInSubdomains >= 0 && v.domainInPaths >= 0 && v.httpsInHostname >= 0
    && v.numSensitiveWords >= 0 && v.embeddedBrandName >= 0
  }

  ghost predicate ValuesNonNegative(d: FeatureDict) {
    forall f :: f in d ==> d[f] >= 0
  }

  lemma PartsNonNegative(v: AssignedValues)
    requires NonNegative(v)
    ensures ValuesNonNegative(StructuralPart(v)) && ValuesNonNegative(HeuristicPart(v))
  {
  }

  /** Every URL column of an assembled dictionary holds a value of at least 0. */
  lemma AssembleNonNegative(v: AssignedValues, symbols: FeatureDict, query: FeatureDict)
    requires symbols.Keys == SymbolFeatures && query.Keys == QueryFeatures
    requires NonNegative(v) && ValuesNonNegative(symbols) && ValuesNonNegative(query)
    ensures forall f :: f in UrlFeatures ==> Assemble(v, symbols, query)[f] >= 0
  {
    var d := Assemble(v, symbols, query);
    AssembleColumns(v, symbols, query);
    StructuralPartColumns(d, v);
    HeuristicColumns(d, v);
    PartsNonNegative(v);
    forall f | f in UrlFeatures
      ensures d[f] >= 0
    {
      if f in StructuralFeatures {
        assert f in StructuralPart(v);
      } else if f in SymbolFeatures {
        assert f in symbols;
      } else if f in QueryFeatures {
        assert f in query;
      } else {
        assert f in HeuristicPart(v);
      }
    }
  }

  /**
   * With the URL columns at least 0 and the placeholder columns at -1, a value is
   * the placeholder exactly when its column is a placeholder column.
   */
  lemma PlaceholderApart(d: FeatureDict)
    requires d.Keys == AllFeatures
    requires forall f :: f in UrlFeatures ==> d[f] >= 0
    requires forall f :: f in PlaceholderFeatures ==> d[f] == PlaceholderValue
    ensures forall f :: f in d ==> (d[f] == PlaceholderValue <==> f in PlaceholderFeatures)
  {
    FeatureCounts();
    forall f | f in d
      ensures d[f] == PlaceholderValue <==> f in PlaceholderFeatures
    {
      if f in PlaceholderFeatures {
        assert f !in UrlFeatures * PlaceholderFeatures;
      }
    }
  }

  /**
   * What the extractor returns: exactly the 48 columns, every feature's value
   * under its column, each URL column at least 0 and each placeholder column -1,
   * so that -1 marks the placeholder columns and no other.
   */
  lemma ExtractedColumns(url: string)
    ensures var d := ExtractedFeatures(url);
      && d.Keys == AllFeatures && |d| == 48
      && d[UrlLength] == GetUrlLength(url)
      && d[NumDots] == GetNumDots(url)
      && d[SubdomainLevel] == GetSubdomainLevel(url)
      && d[PathLevel] == GetPathLevel(url)
      && d[NumNumericChars] == GetNumNumericChars(url)
      && d[NoHttps] == CheckHttps(url)
      && d[HostnameLength] == GetHostnameLength(url)
      && d[PathLength] == GetPathLength(url)
      && d[QueryLength] == GetQueryLength(url)
      && d[DoubleSlashInPath] == GetDoubleSlashInPath(url)
      && Includes(d, GetSymbolCounts(url)) && Includes(d, GetQueryAndFragmentInfo(url))
      && d[RandomString] == Flag(HasRandomSegment(url))
      && d[IpAddress] == CheckIpAddress(url)
      && d[DomainInSubdomains] == CheckDomainInSubdomains(url)
      && d[DomainInPaths] == CheckDomainInPaths(url)
      && d[HttpsInHostname] == CheckHttpsInHostname(url)
      && d[NumSensitiveWords] == GetNumSensitiveWords(url)
      && d[EmbeddedBrandName] == Flag(HasEmbeddedBrand(url))
      && (forall f :: f in UrlFeatures ==> d[f] >= 0)
      && (forall f :: f in PlaceholderFeatures ==> d[f] == PlaceholderValue)
      && (forall f :: f in d ==> (d[f] == PlaceholderValue <==> f in PlaceholderFeatures))
  {
    var v := ComputedValues(url);
    AssembleColumns(v, GetSymbolCounts(url), GetQueryAndFragmentInfo(url));
    AssembleApart(v, GetSymbolCounts(url), GetQueryAndFragmentInfo(url));
  }

  /** The sentinel facts of an assembled dictionary whose assigned and merged values are at least 0. */
  lemma AssembleApart(v: AssignedValues, symbols: FeatureDict, query: FeatureDict)
    requires symbols.Keys == SymbolFeatures && query.Keys == QueryFeatures
    requires NonNegative(v) && ValuesNonNegative(symbols) && ValuesNonNegative(query)
    ensures var d := Assemble(v, symbols, query);
      && d.Keys == AllFeatures
      && (forall f :: f in UrlFeatures ==> d[f] >= 0)
      && (forall f :: f in PlaceholderFeatures ==> d[f] == PlaceholderValue)
      && (forall f :: f in d ==> (d[f] == PlaceholderValue <==> f in PlaceholderFeatures))
  {
    var d := Assemble(v, symbols, query);
    AssembleColumns(v, symbols, query);
    AssembleNonNegative(v, symbols, query);
    PlaceholderColumns(d);
    PlaceholderApart(d);
  }

  /**
   * The feature dictionary of a URL, built as the extractor builds it: ten structural
   * columns assigned one by one, the symbol and query groups merged in, seven heuristic
   * columns assigned, and the content and real-time placeholder groups merged last.
   */
  method ExtractFeaturesFromUrl(url: string) returns (features: FeatureDict)
    ensures features == ExtractedFeatures(url)
    ensures features.Keys == AllFeatures && |features| == 48
    ensures forall f :: f in features ==> (features[f] == PlaceholderValue <==> f in PlaceholderFeatures)
  {
    features := map[];
    features := features[UrlLength := GetUrlLength(url)];
    features := features[NumDots := GetNumDots(url)];
    features := features[SubdomainLevel := GetSubdomainLevel(url)];
    features := features[PathLevel := GetPathLevel(url)];
    features := features[NumNumericChars := GetNumNumericChars(url)];
    features := features[NoHttps := CheckHttps(url)];
    features := features[HostnameLength := GetHostnameLength(url)];
    features := features[PathLength := GetPathLength(url)];
    features := features[QueryLength := GetQueryLength(url)];
    features := features[DoubleSlashInPath := GetDoubleSlashInPath(url)];

    features := features + GetSymbolCounts(url);
    features := features + GetQueryAndFragmentInfo(url);

    var randomString := CheckRandomString(url);
    features := features[RandomString := randomString];
    features := features[IpAddress := CheckIpAddress(url)];
    features := features[DomainInSubdomains := CheckDomainInSubdomains(url)];
    features := features[DomainInPaths := CheckDomainInPaths(url)];
    features := features[HttpsInHostname := CheckHttpsInHostname(url)];
    features := features[NumSensitiveWords := GetNumSensitiveWords(url)];
    var embeddedBrandName := CheckEmbeddedBrandName(url);
    features := features[EmbeddedBrandName := embeddedBrandName];

    features := features + GetContentBasedFeatures();
    features := features + GetRealtimeFeatures();

    ghost var computed := AssignedValues(
      GetUrlLength(url), GetNumDots(url), GetSubdomainLevel(url), GetPathLevel(url),
      GetNumNumericChars(url), CheckHttps(url), GetHostnameLength(url), GetPathLength(url),
      GetQueryLength(url), GetDoubleSlashInPath(url),
      randomString, CheckIpAddress(url), CheckDomainInSubdomains(url), CheckDomainInPaths(url),
      CheckHttpsInHostname(url), GetNumSensitiveWords(url), embeddedBrandName);
    assert computed == ComputedValues(url);
    ExtractedColumns(url);
  }

  /** Every placeholder column of a dictionary that includes both placeholder groups holds -1. */
  lemma PlaceholderColumns(d: FeatureDict)
    requires Includes(d, GetContentBasedFeatures()) && Includes(d, GetRealtimeFeatures())
    ensures forall f :: f in PlaceholderFeatures ==> f in d && d[f] == PlaceholderValue
  {
    PlaceholderKeys();
    forall f | f in PlaceholderFeatures
      ensures f in d && d[f] == PlaceholderValue
    {
      if f in ContentFeatures {
        assert f in GetContentBasedFeatures();
      } else {
        assert f in GetRealtimeFeatures();
      }
    }
  }
}
