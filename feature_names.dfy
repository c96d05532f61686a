/**
 * The 48 columns of the feature dictionary, named as in the training data's
 * CSV header, and the lookup of a column by its name. The dictionary is keyed
 * by the enumeration below; a name from the model's schema reaches a key
 * through KeyOf, which is proved to be the inverse of Name.
 */
module FeatureNames {
  import opened Wrappers

  /** One constructor per column, in the order the extractor inserts them. */
  datatype Feature =
    // The ten structural features (1-4, 14, 15, 21-24)
    | UrlLength | NumDots | SubdomainLevel | PathLevel | NumNumericChars | NoHttps | HostnameLength
    | PathLength | QueryLength | DoubleSlashInPath
    // The symbol counts (5-10)
    | NumDash | NumDashInHostname | AtSymbol | TildeSymbol | NumUnderscore | NumPercent
    // The query and fragment features (11-13)
    | NumQueryComponents | NumAmpersand | NumHash
    // The heuristic checks (16-20, 25, 26)
    | RandomString | IpAddress | DomainInSubdomains | DomainInPaths | HttpsInHostname
    | NumSensitiveWords | EmbeddedBrandName
    // The page-content features (27-42)
    | PctExtHyperlinks | PctExtResourceUrls | ExtFavicon | InsecureForms | RelativeFormAction
    | ExtFormAction | AbnormalFormAction | PctNullSelfRedirectHyperlinks
    | FrequentDomainNameMismatch | FakeLinkInStatusBar | RightClickDisabled | PopUpWindow
    | SubmitInfoToEmail | IframeOrFrame | MissingTitle | ImagesOnlyInForm
    // The real-time features (43-48)
    | SubdomainLevelRT | UrlLengthRT | PctExtResourceUrlsRT | AbnormalExtFormActionR
    | ExtMetaScriptLinkRT | PctExtNullSelfRedirectHyperlinksRT

  /** The column name of a feature, exactly as the dictionary spells it: 7 to 34 characters. */
  function Name(f: Feature): (name: string)
    ensures 7 <= |name| <= 34
  {
    match f
    case UrlLength => "UrlLength"
    case NumDots => "NumDots"
    case SubdomainLevel => "SubdomainLevel"
    case PathLevel => "PathLevel"
    case NumNumericChars => "NumNumericChars"
    case NoHttps => "NoHttps"
    case HostnameLength => "HostnameLength"
    case PathLength => "PathLength"
    case QueryLength => "QueryLength"
    case DoubleSlashInPath => "DoubleSlashInPath"
    case NumDash => "NumDash"
    case NumDashInHostname => "NumDashInHostname"
    case AtSymbol => "AtSymbol"
    case TildeSymbol => "TildeSymbol"
    case NumUnderscore => "NumUnderscore"
    case NumPercent => "NumPercent"
    case NumQueryComponents => "NumQueryComponents"
    case NumAmpersand => "NumAmpersand"
    case NumHash => "NumHash"
    case RandomString => "RandomString"
    case IpAddress => "IpAddress"
    case DomainInSubdomains => "DomainInSubdomains"
    case DomainInPaths => "DomainInPaths"
    case HttpsInHostname => "HttpsInHostname"
    case NumSensitiveWords => "NumSensitiveWords"
    case EmbeddedBrandName => "EmbeddedBrandName"
    case PctExtHyperlinks => "PctExtHyperlinks"
    case PctExtResourceUrls => "PctExtResourceUrls"
    case ExtFavicon => "ExtFavicon"
    case InsecureForms => "InsecureForms"
    case RelativeFormAction => "RelativeFormAction"
    case ExtFormAction => "ExtFormAction"
    case AbnormalFormAction => "AbnormalFormAction"
    case PctNullSelfRedirectHyperlinks => "PctNullSelfRedirectHyperlinks"
    case FrequentDomainNameMismatch => "FrequentDomainNameMismatch"
    case FakeLinkInStatusBar => "FakeLinkInStatusBar"
    case RightClickDisabled => "RightClickDisabled"
    case PopUpWindow => "PopUpWindow"
    case SubmitInfoToEmail => "SubmitInfoToEmail"
    case IframeOrFrame => "IframeOrFrame"
    case MissingTitle => "MissingTitle"
    case ImagesOnlyInForm => "ImagesOnlyInForm"
    case SubdomainLevelRT => "SubdomainLevelRT"
    case UrlLengthRT => "UrlLengthRT"
    case PctExtResourceUrlsRT => "PctExtResourceUrlsRT"
    case AbnormalExtFormActionR => "AbnormalExtFormActionR"
    case ExtMetaScriptLinkRT => "ExtMetaScriptLinkRT"
    case PctExtNullSelfRedirectHyperlinksRT => "PctExtNullSelfRedirectHyperlinksRT"
  }

  /**
   * The feature a column name denotes, if any: the lookup of a dictionary key.
   * Names are told apart by their length and then by characters at which the
   * candidates differ; a name is accepted only when it equals the feature's name.
   */
  function KeyOf(name: string): (key: Option<Feature>)
    ensures key.Some? ==> 7 <= |name| <= 34
  {
    if |name| == 7 then
      if name[3] == 'D' then
        if name[4] == 'o' then
          if name == Name(NumDots) then Some(NumDots) else None
        else if name[4] == 'a' then
          if name == Name(NumDash) then Some(NumDash) else None
        else None
      else if name[3] == 't' then
        if name == Name(NoHttps) then Some(NoHttps) else None
      else if name[3] == 'H' then
        if name == Name(NumHash) then Some(NumHash) else None
      else None
    else if |name| == 8 then
      if name == Name(AtSymbol) then Some(AtSymbol) else None
    else if |name| == 9 then
      if name[0] == 'U' then
        if name == Name(UrlLength) then Some(UrlLength) else None
      else if name[0] == 'P' then
        if name == Name(PathLevel) then Some(PathLevel) else None
      else if name[0] == 'I' then
        if name == Name(IpAddress) then Some(IpAddress) else None
      else None
    else if |name| == 10 then
      if name[0] == 'P' then
        if name == Name(PathLength) then Some(PathLength) else None
      else if name[0] == 'N' then
        if name == Name(NumPercent) then Some(NumPercent) else None
      else if name[0] == 'E' then
        if name == Name(ExtFavicon) then Some(ExtFavicon) else None
      else None
    else if |name| == 11 then
      if name[0] == 'Q' then
        if name == Name(QueryLength) then Some(QueryLength) else None
      else if name[0] == 'T' then
        if name == Name(TildeSymbol) then Some(TildeSymbol) else None
      else if name[0] == 'P' then
        if name == Name(PopUpWindow) then Some(PopUpWindow) else None
      else if name[0] == 'U' then
        if name == Name(UrlLengthRT) then Some(UrlLengthRT) else None
      else None
    else if |name| == 12 then
      if name[0] == 'N' then
        if name == Name(NumAmpersand) then Some(NumAmpersand) else None
      else if name[0] == 'R' then
        if name == Name(RandomString) then Some(RandomString) else None
      else if name[0] == 'M' then
        if name == Name(MissingTitle) then Some(MissingTitle) else None
      else None
    else if |name| == 13 then
      if name[1] == 'u' then
        if name == Name(NumUnderscore) then Some(NumUnderscore) else None
      else if name[1] == 'o' then
        if name == Name(DomainInPaths) then Some(DomainInPaths) else None
      else if name[1] == 'n' then
        if name == Name(InsecureForms) then Some(InsecureForms) else None
      else if name[1] == 'x' then
        if name == Name(ExtFormAction) then Some(ExtFormAction) else None
      else if name[1] == 'f' then
        if name == Name(IframeOrFrame) then Some(IframeOrFrame) else None
      else None
    else if |name| == 14 then
      if name[0] == 'S' then
        if name == Name(SubdomainLevel) then Some(SubdomainLevel) else None
      else if name[0] == 'H' then
        if name == Name(HostnameLength) then Some(HostnameLength) else None
      else None
    else if |name| == 15 then
      if name[0] == 'N' then
        if name == Name(NumNumericChars) then Some(NumNumericChars) else None
      else if name[0] == 'H' then
        if name == Name(HttpsInHostname) then Some(HttpsInHostname) else None
      else None
    else if |name| == 16 then
      if name[0] == 'P' then
        if name == Name(PctExtHyperlinks) then Some(PctExtHyperlinks) else None
      else if name[0] == 'I' then
        if name == Name(ImagesOnlyInForm) then Some(ImagesOnlyInForm) else None
      else if name[0] == 'S' then
        if name == Name(SubdomainLevelRT) then Some(SubdomainLevelRT) else None
      else None
    else if |name| == 17 then
      if name[3] == 'b' then
        if name == Name(DoubleSlashInPath) then Some(DoubleSlashInPath) else None
      else if name[3] == 'D' then
        if name == Name(NumDashInHostname) then Some(NumDashInHostname) else None
      else if name[3] == 'S' then
        if name == Name(NumSensitiveWords) then Some(NumSensitiveWords) else None
      else if name[3] == 'e' then
        if name == Name(EmbeddedBrandName) then Some(EmbeddedBrandName) else None
      else if name[3] == 'm' then
        if name == Name(SubmitInfoToEmail) then Some(SubmitInfoToEmail) else None
      else None
    else if |name| == 18 then
      if name[1] == 'u' then
        if name == Name(NumQueryComponents) then Some(NumQueryComponents) else None
      else if name[1] == 'o' then
        if name == Name(DomainInSubdomains) then Some(DomainInSubdomains) else None
      else if name[1] == 'c' then
        if name == Name(PctExtResourceUrls) then Some(PctExtResourceUrls) else None
      else if name[1] == 'e' then
        if name == Name(RelativeFormAction) then Some(RelativeFormAction) else None
      else if name[1] == 'b' then
        if name == Name(AbnormalFormAction) then Some(AbnormalFormAction) else None
      else if name[1] == 'i' then
        if name == Name(RightClickDisabled) then Some(RightClickDisabled) else None
      else None
    else if |name| == 19 then
      if name[0] == 'F' then
        if name == Name(FakeLinkInStatusBar) then Some(FakeLinkInStatusBar) else None
      else if name[0] == 'E' then
        if name == Name(ExtMetaScriptLinkRT) then Some(ExtMetaScriptLinkRT) else None
      else None
    else if |name| == 20 then
      if name == Name(PctExtResourceUrlsRT) then Some(PctExtResourceUrlsRT) else None
    else if |name| == 22 then
      if name == Name(AbnormalExtFormActionR) then Some(AbnormalExtFormActionR) else None
    else if |name| == 26 then
      if name == Name(FrequentDomainNameMismatch) then Some(FrequentDomainNameMismatch) else None
    else if |name| == 29 then
      if name == Name(PctNullSelfRedirectHyperlinks) then Some(PctNullSelfRedirectHyperlinks) else None
    else if |name| == 34 then
      if name == Name(PctExtNullSelfRedirectHyperlinksRT) then Some(PctExtNullSelfRedirectHyperlinksRT) else None
    else None
  }

  /** The ten structural features (1-4, 14, 15, 21-24). */
  const StructuralFeatures: set<Feature> := {
    UrlLength, NumDots, SubdomainLevel, PathLevel, NumNumericChars, NoHttps, HostnameLength,
    PathLength, QueryLength, DoubleSlashInPath}
  /** The symbol counts (5-10). */
  const SymbolFeatures: set<Feature> := {
    NumDash, NumDashInHostname, AtSymbol, TildeSymbol, NumUnderscore, NumPercent}
  /** The query and fragment features (11-13). */
  const QueryFeatures: set<Feature> := {
    NumQueryComponents, NumAmpersand, NumHash}
  /** The heuristic checks (16-20, 25, 26). */
  const HeuristicFeatures: set<Feature> := {
    RandomString, IpAddress, DomainInSubdomains, DomainInPaths, HttpsInHostname, NumSensitiveWords,
    EmbeddedBrandName}
  /** The page-content features (27-42). */
  const ContentFeatures: set<Feature> := {
    PctExtHyperlinks, PctExtResourceUrls, ExtFavicon, InsecureForms, RelativeFormAction,
    ExtFormAction, AbnormalFormAction, PctNullSelfRedirectHyperlinks, FrequentDomainNameMismatch,
    FakeLinkInStatusBar, RightClickDisabled, PopUpWindow, SubmitInfoToEmail, IframeOrFrame,
    MissingTitle, ImagesOnlyInForm}
  /** The real-time features (43-48). */
  const RealtimeFeatures: set<Feature> := {
    SubdomainLevelRT, UrlLengthRT, PctExtResourceUrlsRT, AbnormalExtFormActionR,
    ExtMetaScriptLinkRT, PctExtNullSelfRedirectHyperlinksRT}

  /** The 26 features computed from the URL. */
  const UrlFeatures: set<Feature> :=
    StructuralFeatures + SymbolFeatures + QueryFeatures + HeuristicFeatures
  /** The 22 features a URL alone cannot supply, which hold a placeholder. */
  const PlaceholderFeatures: set<Feature> := ContentFeatures + RealtimeFeatures
  /** Every column of the dictionary. */
  const AllFeatures: set<Feature> := UrlFeatures + PlaceholderFeatures

  /** The six groups of columns, as the extractor produces them. */
  datatype Group =
    StructuralGroup | SymbolGroup | QueryGroup | HeuristicGroup | ContentGroup | RealtimeGroup

  /** The group a column belongs to. */
  function GroupOf(f: Feature): Group {
    if f.UrlLength? || f.NumDots? || f.SubdomainLevel? || f.PathLevel? || f.NumNumericChars? || f.NoHttps? || f.HostnameLength? || f.PathLength? || f.QueryLength? || f.DoubleSlashInPath? then StructuralGroup
    else if f.NumDash? || f.NumDashInHostname? || f.AtSymbol? || f.TildeSymbol? || f.NumUnderscore? || f.NumPercent? then SymbolGroup
    else if f.NumQueryComponents? || f.NumAmpersand? || f.NumHash? then QueryGroup
    else if f.RandomString? || f.IpAddress? || f.DomainInSubdomains? || f.DomainInPaths? || f.HttpsInHostname? || f.NumSensitiveWords? || f.EmbeddedBrandName? then HeuristicGroup
    else if f.PctExtHyperlinks? || f.PctExtResourceUrls? || f.ExtFavicon? || f.InsecureForms? || f.RelativeFormAction? || f.ExtFormAction? || f.AbnormalFormAction? || f.PctNullSelfRedirectHyperlinks? || f.FrequentDomainNameMismatch? || f.FakeLinkInStatusBar? || f.RightClickDisabled? || f.PopUpWindow? || f.SubmitInfoToEmail? || f.IframeOrFrame? || f.MissingTitle? || f.ImagesOnlyInForm? then ContentGroup
    else RealtimeGroup
  }

  /** Looking a feature's own name up finds that feature. */
  lemma KeyOfName(f: Feature)
    ensures KeyOf(Name(f)) == Some(f)
  {
    match f
    case UrlLength => NamesOfLength9();
    case NumDots => NamesOfLength7();
    case SubdomainLevel => NamesOfLength14();
    case PathLevel => NamesOfLength9();
    case NumNumericChars => NamesOfLength15();
    case NoHttps => NamesOfLength7();
    case HostnameLength => NamesOfLength14();
    case PathLength => NamesOfLength10();
    case QueryLength => NamesOfLength11();
    case DoubleSlashInPath => NamesOfLength17();
    case NumDash => MoreNamesOfLength7();
    case NumDashInHostname => NamesOfLength17();
    case AtSymbol => NamesOfLength8();
    case TildeSymbol => NamesOfLength11();
    case NumUnderscore => NamesOfLength13();
    case NumPercent => NamesOfLength10();
    case NumQueryComponents => NamesOfLength18();
    case NumAmpersand => NamesOfLength12();
    case NumHash => MoreNamesOfLength7();
    case RandomString => NamesOfLength12();
    case IpAddress => MoreNamesOfLength9();
    case DomainInSubdomains => NamesOfLength18();
    case DomainInPaths => NamesOfLength13();
    case HttpsInHostname => NamesOfLength15();
    case NumSensitiveWords => MoreNamesOfLength17();
    case EmbeddedBrandName => MoreNamesOfLength17();
    case PctExtHyperlinks => NamesOfLength16();
    case PctExtResourceUrls => MoreNamesOfLength18();
    case ExtFavicon => MoreNamesOfLength10();
    case InsecureForms => MoreNamesOfLength13();
    case RelativeFormAction => MoreNamesOfLength18();
    case ExtFormAction => MoreNamesOfLength13();
    case AbnormalFormAction => LastNamesOfLength18();
    case PctNullSelfRedirectHyperlinks => NamesOfLength29();
    case FrequentDomainNameMismatch => NamesOfLength26();
    case FakeLinkInStatusBar => NamesOfLength19();
    case RightClickDisabled => LastNamesOfLength18();
    case PopUpWindow => MoreNamesOfLength11();
    case SubmitInfoToEmail => LastNamesOfLength17();
    case IframeOrFrame => LastNamesOfLength13();
    case MissingTitle => MoreNamesOfLength12();
    case ImagesOnlyInForm => NamesOfLength16();
    case SubdomainLevelRT => MoreNamesOfLength16();
    case UrlLengthRT => MoreNamesOfLength11();
    case PctExtResourceUrlsRT => NamesOfLength20();
    case AbnormalExtFormActionR => NamesOfLength22();
    case ExtMetaScriptLinkRT => NamesOfLength19();
    case PctExtNullSelfRedirectHyperlinksRT => NamesOfLength34();
  }

  /** KeyOf finds a feature only under that feature's name. */
  lemma NameOfKey(name: string)
    ensures KeyOf(name).Some? ==> Name(KeyOf(name).value) == name
  {
    if |name| <= 12 {
    } else if |name| <= 18 {
    } else {
    }
  }

  /** KeyOf(name) is f exactly when f is called name. */
  lemma KeyOfIffName(name: string, f: Feature)
    ensures KeyOf(name) == Some(f) <==> Name(f) == name
  {
    KeyOfName(f);
    NameOfKey(name);
  }

  /** No two features share a column name. */
  lemma NamesDistinct(f: Feature, g: Feature)
    ensures Name(f) == Name(g) ==> f == g
  {
    KeyOfName(f);
    KeyOfName(g);
  }

  /** The 48 columns list every feature. */
  lemma EveryFeatureListed(f: Feature)
    ensures f in AllFeatures
  {
    match f
    case UrlLength =>
    case NumDots =>
    case SubdomainLevel =>
    case PathLevel =>
    case NumNumericChars =>
    case NoHttps =>
    case HostnameLength =>
    case PathLength =>
    case QueryLength =>
    case DoubleSlashInPath =>
    case NumDash =>
    case NumDashInHostname =>
    case AtSymbol =>
    case TildeSymbol =>
    case NumUnderscore =>
    case NumPercent =>
    case NumQueryComponents =>
    case NumAmpersand =>
    case NumHash =>
    case RandomString =>
    case IpAddress =>
    case DomainInSubdomains =>
    case DomainInPaths =>
    case HttpsInHostname =>
    case NumSensitiveWords =>
    case EmbeddedBrandName =>
    case PctExtHyperlinks =>
    case PctExtResourceUrls =>
    case ExtFavicon =>
    case InsecureForms =>
    case RelativeFormAction =>
    case ExtFormAction =>
    case AbnormalFormAction =>
    case PctNullSelfRedirectHyperlinks =>
    case FrequentDomainNameMismatch =>
    case FakeLinkInStatusBar =>
    case RightClickDisabled =>
    case PopUpWindow =>
    case SubmitInfoToEmail =>
    case IframeOrFrame =>
    case MissingTitle =>
    case ImagesOnlyInForm =>
    case SubdomainLevelRT =>
    case UrlLengthRT =>
    case PctExtResourceUrlsRT =>
    case AbnormalExtFormActionR =>
    case ExtMetaScriptLinkRT =>
    case PctExtNullSelfRedirectHyperlinksRT =>
  }

  /** 48 columns: 26 computed from the URL and 22 placeholders, no column in both groups. */
  lemma FeatureCounts()
    ensures |UrlFeatures| == 26 && |PlaceholderFeatures| == 22 && |AllFeatures| == 48
    ensures UrlFeatures * PlaceholderFeatures == {}
  {
    GroupSizes();
    StructuralSymbolDisjoint();
    QueryDisjoint();
    HeuristicDisjoint();
    ContentRealtimeDisjoint();
    UrlPlaceholderDisjoint();
    DisjointUnionSize(StructuralFeatures, SymbolFeatures);
    DisjointUnionSize(StructuralFeatures + SymbolFeatures, QueryFeatures);
    DisjointUnionSize(StructuralFeatures + SymbolFeatures + QueryFeatures, HeuristicFeatures);
    DisjointUnionSize(ContentFeatures, RealtimeFeatures);
    DisjointUnionSize(UrlFeatures, PlaceholderFeatures);
  }

  /** Each group has as many columns as it lists. */
  lemma GroupSizes()
    ensures |StructuralFeatures| == 10 && |SymbolFeatures| == 6 && |QueryFeatures| == 3
    ensures |HeuristicFeatures| == 7 && |ContentFeatures| == 16 && |RealtimeFeatures| == 6
  {
    UrlGroupSizes();
    PlaceholderGroupSizes();
  }

  lemma UrlGroupSizes()
    ensures |StructuralFeatures| == 10 && |SymbolFeatures| == 6 && |QueryFeatures| == 3
    ensures |HeuristicFeatures| == 7
  {
  }

  lemma PlaceholderGroupSizes()
    ensures |ContentFeatures| == 16 && |RealtimeFeatures| == 6
  {
    ContentGroupSize();
  }

  lemma ContentGroupSize()
    ensures |ContentFeatures| == 16
  {
  }

  /** Every member of a group belongs to that group. */
  lemma GroupOfMember(f: Feature)
    ensures f in StructuralFeatures ==> GroupOf(f) == StructuralGroup
    ensures f in SymbolFeatures ==> GroupOf(f) == SymbolGroup
    ensures f in QueryFeatures ==> GroupOf(f) == QueryGroup
    ensures f in HeuristicFeatures ==> GroupOf(f) == HeuristicGroup
    ensures f in ContentFeatures ==> GroupOf(f) == ContentGroup
    ensures f in RealtimeFeatures ==> GroupOf(f) == RealtimeGroup
  {
    StructuralMembers();
    SymbolMembers();
    QueryMembers();
    HeuristicMembers();
    ContentMembers();
    RealtimeMembers();
  }

  lemma StructuralMembers()
    ensures forall f :: f in StructuralFeatures ==> GroupOf(f) == StructuralGroup
  {
  }

  lemma SymbolMembers()
    ensures forall f :: f in SymbolFeatures ==> GroupOf(f) == SymbolGroup
  {
  }

  lemma QueryMembers()
    ensures forall f :: f in QueryFeatures ==> GroupOf(f) == QueryGroup
  {
  }

  lemma HeuristicMembers()
    ensures forall f :: f in HeuristicFeatures ==> GroupOf(f) == HeuristicGroup
  {
  }

  lemma ContentMembers()
    ensures forall f :: f in ContentFeatures ==> GroupOf(f) == ContentGroup
  {
    forall f | f in ContentFeatures
      ensures GroupOf(f) == ContentGroup
    {
      if f == PctExtHyperlinks {
      } else if f == PctExtResourceUrls {
      } else if f == ExtFavicon {
      } else if f == InsecureForms {
      } else if f == RelativeFormAction {
      } else if f == ExtFormAction {
      } else if f == AbnormalFormAction {
      } else if f == PctNullSelfRedirectHyperlinks {
      } else if f == FrequentDomainNameMismatch {
      } else if f == FakeLinkInStatusBar {
      } else if f == RightClickDisabled {
      } else if f == PopUpWindow {
      } else if f == SubmitInfoToEmail {
      } else if f == IframeOrFrame {
      } else if f == MissingTitle {
      } else {
        assert f == ImagesOnlyInForm;
      }
    }
  }

  lemma RealtimeMembers()
    ensures forall f :: f in RealtimeFeatures ==> GroupOf(f) == RealtimeGroup
  {
    forall f | f in RealtimeFeatures
      ensures GroupOf(f) == RealtimeGroup
    {
      if f == SubdomainLevelRT {
      } else if f == UrlLengthRT {
      } else if f == PctExtResourceUrlsRT {
      } else if f == AbnormalExtFormActionR {
      } else if f == ExtMetaScriptLinkRT {
      } else {
        assert f == PctExtNullSelfRedirectHyperlinksRT;
      }
    }
  }

  lemma StructuralSymbolDisjoint()
    ensures StructuralFeatures * SymbolFeatures == {}
  {
    forall f ensures f !in StructuralFeatures * SymbolFeatures { GroupOfMember(f); }
  }

  lemma QueryDisjoint()
    ensures (StructuralFeatures + SymbolFeatures) * QueryFeatures == {}
  {
    forall f ensures f !in (StructuralFeatures + SymbolFeatures) * QueryFeatures { GroupOfMember(f); }
  }

  lemma HeuristicDisjoint()
    ensures (StructuralFeatures + SymbolFeatures + QueryFeatures) * HeuristicFeatures == {}
  {
    forall f ensures f !in (StructuralFeatures + SymbolFeatures + QueryFeatures) * HeuristicFeatures {
      GroupOfMember(f);
    }
  }

  lemma ContentRealtimeDisjoint()
    ensures ContentFeatures * RealtimeFeatures == {}
  {
    forall f ensures f !in ContentFeatures * RealtimeFeatures { GroupOfMember(f); }
  }

  lemma UrlPlaceholderDisjoint()
    ensures UrlFeatures * PlaceholderFeatures == {}
  {
    forall f ensures f !in UrlFeatures * PlaceholderFeatures { GroupOfMember(f); }
  }

  /** The URL groups share no column with one another. */
  lemma UrlGroupsDisjoint()
    ensures StructuralFeatures * SymbolFeatures == {} && StructuralFeatures * QueryFeatures == {}
    ensures StructuralFeatures * HeuristicFeatures == {} && SymbolFeatures * QueryFeatures == {}
    ensures SymbolFeatures * HeuristicFeatures == {} && QueryFeatures * HeuristicFeatures == {}
  {
    forall f
      ensures f !in StructuralFeatures * SymbolFeatures && f !in StructuralFeatures * QueryFeatures
      ensures f !in StructuralFeatures * HeuristicFeatures && f !in SymbolFeatures * QueryFeatures
      ensures f !in SymbolFeatures * HeuristicFeatures && f !in QueryFeatures * HeuristicFeatures
    {
      GroupOfMember(f);
    }
  }

  /** No URL group shares a column with a placeholder group, nor do the placeholder groups. */
  lemma PlaceholderGroupsDisjoint()
    ensures StructuralFeatures * ContentFeatures == {} && StructuralFeatures * RealtimeFeatures == {}
    ensures SymbolFeatures * ContentFeatures == {} && SymbolFeatures * RealtimeFeatures == {}
    ensures QueryFeatures * ContentFeatures == {} && QueryFeatures * RealtimeFeatures == {}
    ensures HeuristicFeatures * ContentFeatures == {} && HeuristicFeatures * RealtimeFeatures == {}
    ensures ContentFeatures * RealtimeFeatures == {}
  {
    forall f
      ensures f !in StructuralFeatures * ContentFeatures && f !in StructuralFeatures * RealtimeFeatures
      ensures f !in SymbolFeatures * ContentFeatures && f !in SymbolFeatures * RealtimeFeatures
      ensures f !in QueryFeatures * ContentFeatures && f !in QueryFeatures * RealtimeFeatures
      ensures f !in HeuristicFeatures * ContentFeatures && f !in HeuristicFeatures * RealtimeFeatures
      ensures f !in ContentFeatures * RealtimeFeatures
    {
      GroupOfMember(f);
    }
  }

  lemma DisjointUnionSize(a: set<Feature>, b: set<Feature>)
    requires a * b == {}
    ensures |a + b| == |a| + |b|
  {
  }

  // Lookups of the names of each length, a few names at a time. They are the
  // steps of KeyOfName, split by name length (and, where one length has many
  // names, into two or three groups) so that each step is a small proof.

  lemma NamesOfLength7()
    ensures KeyOf(Name(NumDots)) == Some(NumDots)
    ensures KeyOf(Name(NoHttps)) == Some(NoHttps)
  {
  }

  lemma MoreNamesOfLength7()
    ensures KeyOf(Name(NumDash)) == Some(NumDash)
    ensures KeyOf(Name(NumHash)) == Some(NumHash)
  {
  }

  lemma NamesOfLength8()
    ensures KeyOf(Name(AtSymbol)) == Some(AtSymbol)
  {
  }

  lemma NamesOfLength9()
    ensures KeyOf(Name(UrlLength)) == Some(UrlLength)
    ensures KeyOf(Name(PathLevel)) == Some(PathLevel)
  {
  }

  lemma MoreNamesOfLength9()
    ensures KeyOf(Name(IpAddress)) == Some(IpAddress)
  {
  }

  lemma NamesOfLength10()
    ensures KeyOf(Name(PathLength)) == Some(PathLength)
    ensures KeyOf(Name(NumPercent)) == Some(NumPercent)
  {
  }

  lemma MoreNamesOfLength10()
    ensures KeyOf(Name(ExtFavicon)) == Some(ExtFavicon)
  {
  }

  lemma NamesOfLength11()
    ensures KeyOf(Name(QueryLength)) == Some(QueryLength)
    ensures KeyOf(Name(TildeSymbol)) == Some(TildeSymbol)
  {
  }

  lemma MoreNamesOfLength11()
    ensures KeyOf(Name(PopUpWindow)) == Some(PopUpWindow)
    ensures KeyOf(Name(UrlLengthRT)) == Some(UrlLengthRT)
  {
  }

  lemma NamesOfLength12()
    ensures KeyOf(Name(NumAmpersand)) == Some(NumAmpersand)
    ensures KeyOf(Name(RandomString)) == Some(RandomString)
  {
  }

  lemma MoreNamesOfLength12()
    ensures KeyOf(Name(MissingTitle)) == Some(MissingTitle)
  {
  }

  lemma NamesOfLength13()
    ensures KeyOf(Name(NumUnderscore)) == Some(NumUnderscore)
    ensures KeyOf(Name(DomainInPaths)) == Some(DomainInPaths)
  {
  }

  lemma MoreNamesOfLength13()
    ensures KeyOf(Name(InsecureForms)) == Some(InsecureForms)
    ensures KeyOf(Name(ExtFormAction)) == Some(ExtFormAction)
  {
  }

  lemma LastNamesOfLength13()
    ensures KeyOf(Name(IframeOrFrame)) == Some(IframeOrFrame)
  {
  }

  lemma NamesOfLength14()
    ensures KeyOf(Name(SubdomainLevel)) == Some(SubdomainLevel)
    ensures KeyOf(Name(HostnameLength)) == Some(HostnameLength)
  {
  }

  lemma NamesOfLength15()
    ensures KeyOf(Name(NumNumericChars)) == Some(NumNumericChars)
    ensures KeyOf(Name(HttpsInHostname)) == Some(HttpsInHostname)
  {
  }

  lemma NamesOfLength16()
    ensures KeyOf(Name(PctExtHyperlinks)) == Some(PctExtHyperlinks)
    ensures KeyOf(Name(ImagesOnlyInForm)) == Some(ImagesOnlyInForm)
  {
  }

  lemma MoreNamesOfLength16()
    ensures KeyOf(Name(SubdomainLevelRT)) == Some(SubdomainLevelRT)
  {
  }

  lemma NamesOfLength17()
    ensures KeyOf(Name(DoubleSlashInPath)) == Some(DoubleSlashInPath)
    ensures KeyOf(Name(NumDashInHostname)) == Some(NumDashInHostname)
  {
  }

  lemma MoreNamesOfLength17()
    ensures KeyOf(Name(NumSensitiveWords)) == Some(NumSensitiveWords)
    ensures KeyOf(Name(EmbeddedBrandName)) == Some(EmbeddedBrandName)
  {
  }

  lemma LastNamesOfLength17()
    ensures KeyOf(Name(SubmitInfoToEmail)) == Some(SubmitInfoToEmail)
  {
  }

  lemma NamesOfLength18()
    ensures KeyOf(Name(NumQueryComponents)) == Some(NumQueryComponents)
    ensures KeyOf(Name(DomainInSubdomains)) == Some(DomainInSubdomains)
  {
  }

  lemma MoreNamesOfLength18()
    ensures KeyOf(Name(PctExtResourceUrls)) == Some(PctExtResourceUrls)
    ensures KeyOf(Name(RelativeFormAction)) == Some(RelativeFormAction)
  {
  }

  lemma LastNamesOfLength18()
    ensures KeyOf(Name(AbnormalFormAction)) == Some(AbnormalFormAction)
    ensures KeyOf(Name(RightClickDisabled)) == Some(RightClickDisabled)
  {
  }

  lemma NamesOfLength19()
    ensures KeyOf(Name(FakeLinkInStatusBar)) == Some(FakeLinkInStatusBar)
    ensures KeyOf(Name(ExtMetaScriptLinkRT)) == Some(ExtMetaScriptLinkRT)
  {
  }

  lemma NamesOfLength20()
    ensures KeyOf(Name(PctExtResourceUrlsRT)) == Some(PctExtResourceUrlsRT)
  {
  }

  lemma NamesOfLength22()
    ensures KeyOf(Name(AbnormalExtFormActionR)) == Some(AbnormalExtFormActionR)
  {
  }

  lemma NamesOfLength26()
    ensures KeyOf(Name(FrequentDomainNameMismatch)) == Some(FrequentDomainNameMismatch)
  {
  }

  lemma NamesOfLength29()
    ensures KeyOf(Name(PctNullSelfRedirectHyperlinks)) == Some(PctNullSelfRedirectHyperlinks)
  {
  }

  lemma NamesOfLength34()
    ensures KeyOf(Name(PctExtNullSelfRedirectHyperlinksRT)) == Some(PctExtNullSelfRedirectHyperlinksRT)
  {
  }
}
