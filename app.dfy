/**
 * The prediction service: fast rule-based checks first, then the trained
 * classifier on the extracted feature vector, and the decision of the
 * `/predict` endpoint. The classifier and the loaded feature list are
 * parameters; what loading them from disk does is not modelled.
 */
module App {
  import opened Wrappers
  import opened Strings
  import opened UrlSplit
  import opened Ipv4Pattern
  import opened FeatureNames
  import opened FeatureExtraction

  /** Probability of the phishing class at or above which the classifier says "phishing". */
  const MlThreshold: real := 0.58

  /** URLs longer than this are flagged by the length rule. */
  const MaxUrlLength: nat := 75

  const AtSignReason: string := "Rule-Based (Contains '@' symbol for obfuscation)"
  const LongUrlReason: string := "Rule-Based (URL is excessively long)"
  const IpHostReason: string := "Rule-Based (Hostname is an IP address)"
  const ModelReason: string := "ML Model Prediction"
  const NotLoadedMessage: string := "ML model or feature metadata not loaded."
  const MissingJsonMessage: string := "Missing JSON in request"
  const MissingUrlMessage: string := "Missing 'url' field in request"

  // ---------------------------------------------------------------- rules

  /** The pair `(is_phishing, reason)` the rule check returns. */
  datatype RuleResult = RuleResult(isPhishing: bool, reason: Option<string>)

  /**
   * The three rules in order, the first that fires giving the reason: an `@`
   * anywhere, more than 75 characters, or a netloc matching the IPv4 pattern.
   */
  function RuleBasedCheck(url: string): (r: RuleResult)
    ensures r.isPhishing <==> r.reason.Some?
    ensures r.isPhishing ==> r.reason.value in {AtSignReason, LongUrlReason, IpHostReason}
  {
    if '@' in url then RuleResult(true, Some(AtSignReason))
    else if |url| > MaxUrlLength then RuleResult(true, Some(LongUrlReason))
    else if MatchesIpv4Pattern(UrlParse(url).netloc) then RuleResult(true, Some(IpHostReason))
    else RuleResult(false, None)
  }

  /**
   * A rule fires exactly when the URL holds an `@`, is longer than 75 characters,
   * or has a netloc in the language of the IPv4 regular expression; each reason
   * names the first of these that holds.
   */
  lemma RulesMeaning(url: string)
    ensures var r := RuleBasedCheck(url);
      && (r.isPhishing <==> '@' in url || |url| > 75 || InIpv4Language(UrlParse(url).netloc))
      && (r.reason == Some(AtSignReason) <==> '@' in url)
      && (r.reason == Some(LongUrlReason) <==> '@' !in url && |url| > 75)
      && (r.reason == Some(IpHostReason) <==>
            '@' !in url && |url| <= 75 && InIpv4Language(UrlParse(url).netloc))
  {
    MatchesIffInLanguage(UrlParse(url).netloc);
  }

  /**
   * The rules read three columns of the URL's own feature dictionary: the `@`
   * flag, the URL length and the IP-address flag.
   */
  lemma RulesReadFeatures(url: string)
    ensures var d := ExtractedFeatures(url);
      RuleBasedCheck(url).isPhishing <==> d[AtSymbol] == 1 || d[UrlLength] > 75 || d[IpAddress] == 1
  {
    ExtractedColumns(url);
    RulesReadColumns(url, ExtractedFeatures(url));
  }

  /** The same reading on any dictionary with the URL's symbol flags, length and IP-address flag. */
  lemma RulesReadColumns(url: string, d: FeatureDict)
    requires Includes(d, GetSymbolCounts(url))
    requires UrlLength in d && IpAddress in d
    requires d[UrlLength] == GetUrlLength(url) && d[IpAddress] == CheckIpAddress(url)
    ensures AtSymbol in d
    ensures RuleBasedCheck(url).isPhishing <==> d[AtSymbol] == 1 || d[UrlLength] > 75 || d[IpAddress] == 1
  {
    assert AtSymbol in GetSymbolCounts(url);
  }

  /** The length rule's boundary: 75 characters pass it and 76 do not. */
  lemma LengthRuleBoundary(url: string)
    requires '@' !in url && !MatchesIpv4Pattern(UrlParse(url).netloc)
    ensures |url| == 75 ==> !RuleBasedCheck(url).isPhishing
    ensures |url| == 76 ==> RuleBasedCheck(url).reason == Some(LongUrlReason)
  {
  }

  /** An `@` decides before anything else, whatever the length and the host. */
  lemma AtSignFirst(a: string, b: string)
    ensures RuleBasedCheck(a + "@" + b) == RuleResult(true, Some(AtSignReason))
  {
    assert (a + "@" + b)[|a|] == '@';
  }

  /**
   * On a URL `scheme://host/path` without `@`, query or fragment and of at most
   * 75 characters, the rules flag exactly a host that matches the IPv4 pattern.
   */
  lemma RulesOnSimpleUrl(scheme: string, host: string, path: string)
    requires |scheme| > 0 && forall k :: 0 <= k < |scheme| ==> scheme[k] !in SchemeStops
    requires forall k :: 0 <= k < |host| ==> host[k] !in AuthorityStops
    requires path == "" || path[0] == '/'
    requires forall k :: 0 <= k < |path| ==> path[k] != '?' && path[k] != '#'
    requires '@' !in scheme && '@' !in host && '@' !in path
    requires |scheme| + 3 + |host| + |path| <= 75
    ensures RuleBasedCheck(scheme + "://" + host + path)
      == if MatchesIpv4Pattern(host) then RuleResult(true, Some(IpHostReason)) else RuleResult(false, None)
  {
    ParseOfSimpleUrl(scheme, host, path);
    assert '@' !in "://";
    assert '@' !in scheme + "://" + host + path;
  }

  /** `http://192.168.1.1/admin-login.html` is flagged for its IP-address host. */
  lemma IpHostExample()
    ensures RuleBasedCheck("http" + "://" + "192.168.1.1" + "/admin-login.html")
      == RuleResult(true, Some(IpHostReason))
  {
    AdminLoginPieces();
    PrivateAddressMatches();
    RulesOnSimpleUrl("http", "192.168.1.1", "/admin-login.html");
  }

  /** `https://www.google.com` passes all three rules. */
  lemma PlainHostExample()
    ensures RuleBasedCheck("https" + "://" + "www.google.com" + "") == RuleResult(false, None)
  {
    GooglePieces();
    ForeignCharacterDefeatsQuad("www.google.com", 0);
    assert "www.google.com"[13] == 'm';
    RulesOnSimpleUrl("https", "www.google.com", "");
  }

  lemma PrivateAddressMatches()
    ensures MatchesIpv4Pattern("192.168.1.1")
  {
    var groups := ["192", "168", "1", "1"];
    assert Join(groups, '.') == "192.168.1.1";
    JoinedGroupsAreDottedQuad(groups);
  }

  // The two lemmas below check the literal pieces of the two example URLs on
  // their own, apart from the rules, so that IpHostExample and PlainHostExample
  // stay small proofs.

  /** The pieces of `http://192.168.1.1/admin-login.html` meet the conditions of a simple URL. */
  lemma AdminLoginPieces()
    ensures forall k :: 0 <= k < |"http"| ==> "http"[k] !in SchemeStops
    ensures forall k :: 0 <= k < |"192.168.1.1"| ==> "192.168.1.1"[k] !in AuthorityStops
    ensures forall k :: 0 <= k < |"/admin-login.html"| ==> "/admin-login.html"[k] != '?' && "/admin-login.html"[k] != '#'
    ensures '@' !in "http" && '@' !in "192.168.1.1" && '@' !in "/admin-login.html"
    ensures |"http"| + 3 + |"192.168.1.1"| + |"/admin-login.html"| <= 75
    ensures "/admin-login.html"[0] == '/'
  {
  }

  /** The pieces of `https://www.google.com` meet the conditions of a simple URL. */
  lemma GooglePieces()
    ensures forall k :: 0 <= k < |"https"| ==> "https"[k] !in SchemeStops
    ensures forall k :: 0 <= k < |"www.google.com"| ==> "www.google.com"[k] !in AuthorityStops
    ensures '@' !in "https" && '@' !in "www.google.com"
    ensures |"https"| + 3 + |"www.google.com"| <= 75
  {
  }

  // ---------------------------------------------------------------- classifier

  /** A probability of the phishing class. */
  type Probability = r: real | 0.0 <= r <= 1.0

  /** A trained classifier, seen only through its phishing probability for a feature vector. */
  datatype Classifier = Classifier(phishingProbability: seq<int> -> Probability)

  /** The loaded resources: the model and the ordered feature names, each possibly missing. */
  datatype Resources = Resources(model: Option<Classifier>, featureNames: Option<seq<string>>)

  /** `model and feature_names`: both present, and the name list not empty. */
  predicate Loaded(res: Resources) {
    res.model.Some? && res.featureNames.Some? && res.featureNames.value != []
  }

  /**
   * `raw_features[name]`: the value under the column called `name`, if there is
   * one. A value found is the entry of a column of that exact name.
   */
  function Column(features: FeatureDict, name: string): (value: Option<int>)
    ensures value.Some? ==> exists f :: f in features && Name(f) == name && features[f] == value.value
  {
    NameOfKey(name);
    match KeyOf(name)
    case Some(f) => if f in features then Some(features[f]) else None
    case None => None
  }

  /**
   * A column is found exactly when the dictionary has a column of that name,
   * the direction `Column` does not state itself.
   */
  lemma ColumnIffNamed(features: FeatureDict, name: string)
    ensures Column(features, name).Some? <==> exists f :: f in features && Name(f) == name
  {
    if exists f :: f in features && Name(f) == name {
      var f :| f in features && Name(f) == name;
      KeyOfName(f);
    }
  }

  /** The text of the `KeyError` for a missing column: it ends with the name in quotes. */
  function MissingFeatureMessage(name: string): (message: string)
    ensures |message| > |name| + 1
    ensures message[|message| - |name| - 2..] == "'" + name + "'"
  {
    "Missing feature required by model: '" + name + "'"
  }

  /** Different names give different messages, so the error tells which column is missing. */
  lemma MessageNamesColumn(a: string, b: string)
    ensures MissingFeatureMessage(a) == MissingFeatureMessage(b) ==> a == b
  {
    if MissingFeatureMessage(a) == MissingFeatureMessage(b) {
      var prefix := "Missing feature required by model: '";
      assert MissingFeatureMessage(a)[|prefix|..|prefix| + |a|] == a;
      assert MissingFeatureMessage(b)[|prefix|..|prefix| + |b|] == b;
    }
  }

  /**
   * `[raw_features[name] for name in feature_names]`: the columns in the model's
   * order, or the error for the first name without a column.
   */
  function FeatureVector(features: FeatureDict, names: seq<string>): (r: Result<seq<int>, string>)
    ensures r.Success? <==> forall i :: 0 <= i < |names| ==> Column(features, names[i]).Some?
    ensures r.Success? ==>
      |r.value| == |names| && forall i :: 0 <= i < |names| ==> Column(features, names[i]) == Some(r.value[i])
    ensures r.Failure? ==>
      exists i :: 0 <= i < |names| && Column(features, names[i]).None?
        && (forall j :: 0 <= j < i ==> Column(features, names[j]).Some?)
        && r.error == MissingFeatureMessage(names[i])
  {
    if names == [] then Success([])
    else
      match Column(features, names[0])
      case None => Failure(MissingFeatureMessage(names[0]))
      case Some(x) =>
        var rest := FeatureVector(features, names[1..]);
        assert forall i :: 1 <= i < |names| ==> names[i] == names[1..][i - 1];
        match rest
        case Failure(e) => Failure(e)
        case Success(v) => Success([x] + v)
  }

  /** On a dictionary with all 48 columns the vector fails exactly when some name is not a column name. */
  lemma VectorOfFullDictionary(d: FeatureDict, names: seq<string>)
    requires d.Keys == AllFeatures
    ensures FeatureVector(d, names).Success? <==>
      forall i :: 0 <= i < |names| ==> exists f :: Name(f) == names[i]
  {
    forall i | 0 <= i < |names|
      ensures Column(d, names[i]).Some? <==> exists f :: Name(f) == names[i]
    {
      if KeyOf(names[i]).Some? {
        EveryFeatureListed(KeyOf(names[i]).value);
        KeyOfIffName(names[i], KeyOf(names[i]).value);
      }
      if exists f :: Name(f) == names[i] {
        var f :| Name(f) == names[i];
        KeyOfIffName(names[i], f);
      }
    }
  }

  /** Names of columns only always give a vector of the extracted dictionary. */
  lemma ExtractedVector(url: string, names: seq<string>)
    requires ColumnNames(names)
    ensures FeatureVector(ExtractedFeatures(url), names).Success?
  {
    VectorOfFullDictionary(ExtractedFeatures(url), names);
  }

  /** Every name is the name of a column. */
  predicate ColumnNames(names: seq<string>) {
    forall i :: 0 <= i < |names| ==> exists f :: Name(f) == names[i]
  }

  /** The vector reads only the named columns: dictionaries that agree on them give the same vector. */
  lemma {:induction false} VectorReadsNamedColumns(d1: FeatureDict, d2: FeatureDict, names: seq<string>)
    requires forall i :: 0 <= i < |names| ==> Column(d1, names[i]) == Column(d2, names[i])
    ensures FeatureVector(d1, names) == FeatureVector(d2, names)
  {
    if names != [] {
      assert forall i :: 0 <= i < |names| - 1 ==> names[1..][i] == names[i + 1];
      VectorReadsNamedColumns(d1, d2, names[1..]);
    }
  }

  /** The triple `(prediction, probability, reason)` of the classifier step. */
  datatype MlOutcome = MlOutcome(prediction: string, probability: Probability, message: string)

  /**
   * The classifier step: an error when the resources are not loaded or a column
   * is missing, otherwise "phishing" when the phishing probability reaches the
   * threshold and "safe" below it, reporting that probability.
   */
  function MlBasedPrediction(res: Resources, url: string): (r: MlOutcome)
    ensures !Loaded(res) ==> r == MlOutcome("error", 0.0, NotLoadedMessage)
    ensures r.prediction in {"error", "phishing", "safe"}
    ensures r.prediction == "error" ==> r.probability == 0.0
    ensures r.prediction != "error" ==> r.message == ModelReason
    ensures r.prediction == "phishing" <==> r.prediction != "error" && r.probability >= MlThreshold
    ensures Loaded(res) ==> match FeatureVector(ExtractedFeatures(url), res.featureNames.value)
      case Failure(e) => r == MlOutcome("error", 0.0, e)
      case Success(v) => r.prediction != "error" && r.probability == res.model.value.phishingProbability(v)
  {
    if !Loaded(res) then MlOutcome("error", 0.0, NotLoadedMessage)
    else
      match FeatureVector(ExtractedFeatures(url), res.featureNames.value)
      case Failure(e) => MlOutcome("error", 0.0, e)
      case Success(v) =>
        var p := res.model.value.phishingProbability(v);
        MlOutcome(if p >= MlThreshold then "phishing" else "safe", p, ModelReason)
  }

  /**
   * Once the resources are loaded, the classifier step reports an error exactly
   * when some loaded name is not one of the 48 column names, so a list of
   * column names never leads to an error.
   */
  lemma MissingColumnIffUnknownName(res: Resources, url: string)
    requires Loaded(res)
    ensures MlBasedPrediction(res, url).prediction == "error" <==>
      exists i :: 0 <= i < |res.featureNames.value| && forall f :: Name(f) != res.featureNames.value[i]
  {
    VectorOfFullDictionary(ExtractedFeatures(url), res.featureNames.value);
  }

  // ---------------------------------------------------------------- endpoint

  /** The parts of a `/predict` request the endpoint looks at. */
  datatype Request = Request(isJson: bool, url: Option<string>)

  /** The JSON body and status of the response. */
  datatype Response =
    | Verdict(prediction: string, reason: string, phishingProba: Option<real>)
    | ErrorResponse(status: nat, error: string)

  /**
   * The `/predict` endpoint: a 400 for a body that is not JSON or lacks a URL,
   * "phishing" with the rule's reason when a rule fires, a 500 when the
   * classifier step reports an error, and otherwise the classifier's verdict.
   */
  function Predict(res: Resources, req: Request): (r: Response)
    ensures !req.isJson ==> r == ErrorResponse(400, MissingJsonMessage)
    ensures req.isJson && (req.url.None? || req.url.value == "") ==> r == ErrorResponse(400, MissingUrlMessage)
    ensures r.ErrorResponse? ==> r.status == 400 || r.status == 500
    ensures r.Verdict? ==> r.prediction == "phishing" || r.prediction == "safe"
    ensures r.Verdict? && r.phishingProba.Some? ==>
      (r.prediction == "phishing" <==> r.phishingProba.value >= MlThreshold)
    ensures req.isJson && req.url.Some? && req.url.value != "" && !RuleBasedCheck(req.url.value).isPhishing ==>
      var ml := MlBasedPrediction(res, req.url.value);
      && (r.ErrorResponse? <==> ml.prediction == "error")
      && (r.ErrorResponse? ==> r == ErrorResponse(500, ml.message))
  {
    if !req.isJson then ErrorResponse(400, MissingJsonMessage)
    else if req.url.None? || req.url.value == "" then ErrorResponse(400, MissingUrlMessage)
    else
      var url := req.url.value;
      var rules := RuleBasedCheck(url);
      if rules.isPhishing then Verdict("phishing", rules.reason.value, None)
      else
        var ml := MlBasedPrediction(res, url);
        if ml.prediction == "error" then ErrorResponse(500, ml.message)
        else Verdict(ml.prediction, ml.message, Some(ml.probability))
  }

  /** A fired rule decides the response, the same whatever model is loaded or missing. */
  lemma RuleDecidesAlone(res1: Resources, res2: Resources, url: string)
    requires url != "" && RuleBasedCheck(url).isPhishing
    ensures var r := Predict(res1, Request(true, Some(url)));
      && r == Predict(res2, Request(true, Some(url)))
      && r == Verdict("phishing", RuleBasedCheck(url).reason.value, None)
  {
  }

  /** A verdict carries a probability exactly when no rule fired. */
  lemma ProbabilityOnlyFromModel(res: Resources, url: string)
    requires url != ""
    ensures var r := Predict(res, Request(true, Some(url)));
      r.Verdict? ==> (r.phishingProba.None? <==> RuleBasedCheck(url).isPhishing)
  {
  }

  /** Without loaded resources every URL that passes the rules gets a 500. */
  lemma NotLoadedIsServerError(res: Resources, url: string)
    requires url != "" && !Loaded(res) && !RuleBasedCheck(url).isPhishing
    ensures Predict(res, Request(true, Some(url))) == ErrorResponse(500, NotLoadedMessage)
  {
  }

  /**
   * With a loaded model and the column names only, a URL that passes the rules
   * gets the classifier's probability and a "phishing" verdict exactly when it
   * reaches 0.58.
   */
  lemma ModelDecides(res: Resources, url: string)
    requires url != "" && !RuleBasedCheck(url).isPhishing
    requires Loaded(res) && ColumnNames(res.featureNames.value)
    ensures var r := Predict(res, Request(true, Some(url)));
      && r.Verdict? && r.reason == ModelReason && r.phishingProba.Some?
      && (r.prediction == "phishing" <==> r.phishingProba.value >= MlThreshold)
      && FeatureVector(ExtractedFeatures(url), res.featureNames.value).Success?
      && r.phishingProba.value
         == res.model.value.phishingProbability(FeatureVector(ExtractedFeatures(url), res.featureNames.value).value)
  {
    ExtractedVector(url, res.featureNames.value);
  }

  /**
   * A classifier that gives every vector the probability `p`: at 0.60 the
   * verdict is "phishing", at 0.50 "safe", and at 0.58 itself "phishing".
   */
  lemma ConstantModelVerdict(res: Resources, url: string, p: Probability)
    requires url != "" && !RuleBasedCheck(url).isPhishing
    requires Loaded(res) && ColumnNames(res.featureNames.value)
    requires forall v :: res.model.value.phishingProbability(v) == p
    ensures var r := Predict(res, Request(true, Some(url)));
      && r == Verdict(if p >= MlThreshold then "phishing" else "safe", ModelReason, Some(p))
      && (p == 0.60 ==> r.prediction == "phishing")
      && (p == 0.50 ==> r.prediction == "safe")
      && (p == 0.58 ==> r.prediction == "phishing")
  {
    ModelDecides(res, url);
  }
}
