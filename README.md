# Phishing URL detector: feature extraction and hybrid decision

This project models the core of a phishing URL detector. It has two parts.

The first part is the feature extractor. It turns a URL string into a dictionary of 48 numeric columns:
- 26 columns are computed from the URL text: structural lengths and levels, symbol counts, query and fragment information, and lexical heuristics.
- 22 columns are placeholders (`-1`) for features that would need the page's content or external data.

The second part is the prediction service:
- fast rule checks run first;
- when no rule fires, a trained classifier scores the feature vector in the order the model expects, and a threshold of 0.58 decides the verdict;
- the `/predict` endpoint turns all of this into a JSON response or an error status.

Modules, one file each:
- `wrappers.dfy` (`Wrappers`): `Option` and `Result`.
- `strings.dfy` (`Strings`): the Python string operations the features use: `str.count`, `str.split`, `re.split` on a character class, `lower` on ASCII, `in`, and `isdigit` on ASCII.
- `url_split.dfy` (`UrlSplit`): `urlparse`, modelled as the decomposition of RFC 3986, Appendix B.
  - The scheme is lower-cased.
  - The netloc keeps any userinfo and port.
  - Absent components are `""`.
- `ip_pattern.dfy` (`Ipv4Pattern`): the regular expression `^\d{1,3}\.\d{1,3}\.\d{1,3}\.\d{1,3}$`.
  - Python's `re.match` lets `$` also match before a final newline; the model includes that case.
  - Both the IP-address feature and the IP-address rule use this module.
- `feature_names.dfy` (`FeatureNames`): the 48 columns as an enumeration, in six groups.
  - `Name` gives each column's exact dictionary key.
  - `KeyOf` is the reverse key lookup.
- `feature_extraction.dfy` (`FeatureExtraction`): every feature function. Where it is short to prove, a feature's contract says what it counts or flags.
  - The two scanning features are methods with loops: `check_random_string` and `check_embedded_brand_name`.
  - `ExtractFeaturesFromUrl` builds the dictionary step by step, in the source's order. It is proved equal to the specification function `ExtractedFeatures`.
- `feature_properties.dfy` (`FeatureProperties`): the remaining meanings of the features, stated apart from how they are computed, and the bounds one feature places on another.
- `app.dfy` (`App`): `rule_based_check`, `ml_based_prediction` and the decision flow of `predict`.
  - The classifier and the loaded feature names are a `Resources` value passed in.

Four facts about the code that a reader might not expect:
- **Port and userinfo.** The netloc keeps any port and userinfo, and both the IP feature and the IP rule see them. So `1.2.3.4:80` is not recognised as an IP host (`Ipv4Pattern.PortDefeatsMatch`).
- **Hard-coded threshold.** The threshold is the constant 0.58 in the code; nothing configures it.
- **No key-set validation.** The extractor only warns about a wrong key count; it never checks which keys are present. The model proves the key set is always exactly the 48 columns, which makes the warning unreachable.
- **No octet range check.** The IP pattern checks only how many digits each group has, so `999.999.999.999` matches (`Ipv4Pattern.OutOfRangeOctetsMatch`).

## Model

| member | source | states |
|---|---|---|
| Strings.Lower | backend/feature_extraction.py:154 | `lower()` keeps the length, leaves no ASCII capital, and keeps every other character in place |
| Strings.LowerIdempotent | backend/feature_extraction.py:154 | lower-casing an already lower-cased string changes nothing |
| Strings.CountChar | backend/feature_extraction.py:12 | `s.count(c)` is at most `len(s)` and is 0 exactly when `c` does not occur |
| Strings.CountCharMultiplicity | backend/feature_extraction.py:12 | `s.count(c)` is the multiplicity of `c` in the multiset of `s` |
| Strings.CountDigits | backend/feature_extraction.py:75-77 | the digit count is 0 exactly when there is no digit, and `len(s)` exactly when all characters are digits |
| Strings.CountOccurrences | backend/feature_extraction.py:155 | non-overlapping occurrences of a non-empty word fit in the text: count times word length is at most the text length |
| Strings.CountOccurrencesPositive | backend/feature_extraction.py:155 | `s.count(w) > 0` exactly when `w in s` |
| Strings.CountPrefix | backend/feature_extraction.py:155 | an occurrence of `w` at the front is counted once, and counting goes on after it |
| Strings.RepeatedWordCountedTwice | backend/feature_extraction.py:155 | `"loginlogin".count("login")` is 2 |
| Strings.Split | backend/feature_extraction.py:105 | `split(sep)` gives at least one piece, and no piece contains the separator |
| Strings.SplitAny | backend/feature_extraction.py:162 | `re.split(r'[/.-]', ...)` gives at least one token, and no token contains a separator |
| Strings.JoinSplit | backend/feature_extraction.py:105 | joining the pieces of a split with the separator gives back the string |
| Strings.SplitJoin | backend/feature_extraction.py:105 | splitting separator-free pieces after joining them gives back the pieces |
| Strings.SplitCount | backend/feature_extraction.py:66 | a split yields one more piece than there are separators |
| Strings.SplitAnyPieceIsSubstring | backend/feature_extraction.py:162 | every token of `re.split` occurs in the split string |
| UrlSplit.RecomposeDecompose | backend/feature_extraction.py:17 | the five components of the decomposition recompose (section 5.3 of RFC 3986) into exactly the URL |
| UrlSplit.Decompose | backend/feature_extraction.py:17 | the regular expression of RFC 3986, Appendix B: a scheme, when present, is non-empty and is followed by more of the URL; RecomposeDecompose shows that the split loses nothing |
| UrlSplit.UrlParse | backend/feature_extraction.py:17 | `urlparse`: scheme, netloc, path, query and fragment are disjoint parts of the URL, so their lengths add up to at most its length; ComponentDelimiters and NetlocExtent give where each one stops |
| UrlSplit.DecomposeMaximal | backend/feature_extraction.py:17 | a scheme holds no `:`, `/`, `?` or `#` and is followed by `:`; after an authority the path is empty or starts with `/`, so the authority runs to the first `/`, `?` or `#` |
| UrlSplit.NetlocExtent | backend/feature_extraction.py:17 | after `//` an authority is always present, possibly empty, and the netloc is the text up to the first `/`, `?` or `#`, or to the end: it is followed in the URL by one of those or by nothing |
| UrlSplit.EmptyAuthorityPath | backend/feature_extraction.py:17 | `urlparse("///x")` has an empty netloc and the path `/x` |
| UrlSplit.ComponentDelimiters | backend/feature_extraction.py:17 | the netloc holds no `/`, `?` or `#`; the path holds no `?` or `#`; the query holds no `#` |
| UrlSplit.ComponentsWithinUrl | backend/feature_extraction.py:135-145 | netloc, path, query and fragment use disjoint characters of the URL: their multisets sum to at most the URL's, and their lengths to at most its length |
| UrlSplit.ParseOfSimpleUrl | backend/app.py:68 | `urlparse("scheme://host/path")` gives the lower-cased scheme, the host as netloc, the path, and empty query and fragment |
| Ipv4Pattern.MatchesIffInLanguage | backend/feature_extraction.py:99 | the split-based matcher accepts exactly four dot-joined groups of one to three digits, with an optional final newline |
| Ipv4Pattern.MatchesIpv4Pattern | backend/feature_extraction.py:99 | a matched host has 7 to 16 characters and a dot; MatchesIffInLanguage gives its exact language |
| Ipv4Pattern.JoinedGroupsAreDottedQuad | backend/app.py:69 | four digit groups joined by dots match the pattern |
| Ipv4Pattern.DottedQuadShape | backend/app.py:69 | a dotted quad (a match without the final newline) has exactly three dots and 7 to 15 characters |
| Ipv4Pattern.DottedQuadAlphabet | backend/app.py:69 | a dotted quad holds only digits and dots |
| Ipv4Pattern.ForeignCharacterDefeatsQuad | backend/app.py:69 | a character other than a digit or a dot rules out a dotted quad |
| Ipv4Pattern.OutOfRangeOctetsMatch | backend/feature_extraction.py:99 | `999.999.999.999` matches: octet values are never checked |
| Ipv4Pattern.PortDefeatsMatch | backend/app.py:68-69 | `1.2.3.4:80` does not match: the port is not stripped from the netloc |
| FeatureNames.KeyOfName | backend/feature_extraction.py:244-268 | looking up a column's own name finds that column |
| FeatureNames.Name | backend/feature_extraction.py:243-274 | each column's dictionary key is 7 to 34 characters long; KeyOfName and NamesDistinct show that the keys identify the columns |
| FeatureNames.KeyOf | backend/app.py:90 | a name that finds a column is 7 to 34 characters long; NameOfKey and KeyOfIffName show that lookup inverts `Name` |
| FeatureNames.NameOfKey | backend/app.py:90 | a lookup finds a column only under that column's exact name |
| FeatureNames.KeyOfIffName | backend/app.py:90 | `KeyOf(name)` is column `f` exactly when `f` is called `name` |
| FeatureNames.NamesDistinct | backend/feature_extraction.py:194-224 | no two columns share a dictionary key |
| FeatureNames.EveryFeatureListed | backend/feature_extraction.py:231-280 | every column belongs to the 48 columns |
| FeatureNames.FeatureCounts | backend/feature_extraction.py:276-278 | 26 URL columns and 22 placeholder columns, with no column in both: 48 in all |
| FeatureNames.GroupSizes | backend/feature_extraction.py:243-274 | the groups have 10, 6, 3, 7, 16 and 6 columns |
| FeatureNames.UrlGroupsDisjoint | backend/feature_extraction.py:243-268 | the structural, symbol, query and heuristic groups share no column |
| FeatureNames.PlaceholderGroupsDisjoint | backend/feature_extraction.py:190-226 | no URL group shares a column with a placeholder group, and the two placeholder groups share none |
| FeatureExtraction.GetUrlLength | backend/feature_extraction.py:6-8 | the URL length leaves room for the hostname, path and query together (ComponentLengthsWithinUrl) |
| FeatureExtraction.GetNumDots | backend/feature_extraction.py:10-12 | the dot count is at most the URL length and 0 exactly when there is no dot; CountCharMultiplicity makes it the multiplicity of `.` |
| FeatureExtraction.GetSubdomainLevel | backend/feature_extraction.py:14-25 | the subdomain level is the number of dot-separated netloc labels beyond the last two |
| FeatureExtraction.GetPathLevel | backend/feature_extraction.py:27-35 | the path level is 0 for an empty or root path; otherwise it is one less than the number of `/`-separated segments |
| FeatureExtraction.GetSymbolCounts | backend/feature_extraction.py:37-53 | the symbol dictionary has exactly the six symbol columns, none negative; HostnameDashesWithinUrl bounds the hostname's dashes by the URL's |
| FeatureExtraction.GetQueryAndFragmentInfo | backend/feature_extraction.py:55-73 | exactly the three query columns, none negative. The component count is 0 exactly for an empty query; otherwise it is the ampersand count plus one |
| FeatureExtraction.GetNumNumericChars | backend/feature_extraction.py:75-77 | the digit count is at most the URL length, and 0 exactly when the URL has no digit |
| FeatureExtraction.CheckHttps | backend/feature_extraction.py:79-81 | the no-HTTPS flag is 0 or 1; NoHttpsMeansPrefix gives when it is 0 |
| FeatureExtraction.CheckIpAddress | backend/feature_extraction.py:95-99 | the IP flag is 0 or 1; IpAddressMeansDottedQuad gives the language it recognises |
| FeatureExtraction.CheckDomainInSubdomains | backend/feature_extraction.py:101-113 | the flag is 0 or 1, and 1 only when the netloc has at least two dots; DomainInSubdomainsMeaning gives exactly when |
| FeatureExtraction.CheckDomainInPaths | backend/feature_extraction.py:115-128 | the flag is 0 or 1. With an empty netloc the base domain is empty, and it occurs in every path, so the flag is 1 (every URL without `//`) |
| FeatureExtraction.CheckHttpsInHostname | backend/feature_extraction.py:130-133 | the flag is 0 or 1, and 1 only for a netloc of at least 5 characters |
| FeatureExtraction.GetHostnameLength | backend/feature_extraction.py:135-137 | the netloc length is at most the URL length; ComponentLengthsWithinUrl bounds the three component lengths together |
| FeatureExtraction.GetPathLength | backend/feature_extraction.py:139-141 | the path length is at most the URL length; ComponentLengthsWithinUrl bounds the three component lengths together |
| FeatureExtraction.GetQueryLength | backend/feature_extraction.py:143-145 | the query length is at most the URL length; ComponentLengthsWithinUrl bounds the three component lengths together |
| FeatureExtraction.GetDoubleSlashInPath | backend/feature_extraction.py:147-149 | the flag is 0 or 1, and 1 only for a path of at least 2 characters; DoubleSlashDeepensPath gives a path level of at least 2 |
| FeatureExtraction.NoOccurrences | backend/feature_extraction.py:155 | summed counts are 0 exactly when no word occurs in the text |
| FeatureExtraction.EachWordCounted | backend/feature_extraction.py:155 | each word's own count is at most the summed count |
| FeatureExtraction.TotalOccurrencesAppend | backend/feature_extraction.py:155 | the summed count over two word lists is the sum of the two summed counts |
| FeatureExtraction.GetNumSensitiveWords | backend/feature_extraction.py:151-155 | the sensitive-word count is 0 exactly when none of the ten words occurs in the lower-cased URL |
| FeatureExtraction.SensitiveWordsCounted | backend/feature_extraction.py:151-155 | every occurrence of every sensitive word counts: each word's count is at most (25), and the two halves of the list add up to it |
| FeatureExtraction.PathSegments | backend/feature_extraction.py:89 | `path.split('/')` has at least one segment |
| FeatureExtraction.CheckRandomString | backend/feature_extraction.py:83-93 | the early-return scan returns 1 exactly when some path segment is longer than 15 characters and has no digit, and 0 otherwise |
| FeatureExtraction.BrandTokens | backend/feature_extraction.py:162 | the lower-cased URL split on `/`, `.` and `-` has at least one token |
| FeatureExtraction.CheckEmbeddedBrandName | backend/feature_extraction.py:157-170 | the early-return scan over the five brands returns 1 exactly when some brand is a token, is not in the netloc, and occurs in the lower-cased URL; otherwise 0 |
| FeatureExtraction.GetContentBasedFeatures | backend/feature_extraction.py:190-212 | every page-content column holds `PLACEHOLDER_VALUE` (-1) |
| FeatureExtraction.GetRealtimeFeatures | backend/feature_extraction.py:214-226 | every real-time column holds `PLACEHOLDER_VALUE` (-1) |
| FeatureExtraction.PlaceholderKeys | backend/feature_extraction.py:194-225 | the placeholder dictionaries have exactly the 16 content and 6 real-time columns |
| FeatureExtraction.AssembleColumns | backend/feature_extraction.py:240-274 | after all the updates, the dictionary has exactly the 48 columns; it holds every assigned value under its column and every entry of each merged group |
| FeatureExtraction.ExtractedColumns | backend/feature_extraction.py:231-280 | the extracted dictionary has the 48 columns, and each column holds its feature's value. The URL columns are at least 0 and the placeholders -1, so -1 marks exactly the placeholder columns |
| FeatureExtraction.ExtractedFeatures | backend/feature_extraction.py:231-280 | the extracted key set is exactly the 48 columns, for every URL including the empty one; ExtractedColumns gives each column's value |
| FeatureExtraction.ExtractFeaturesFromUrl | backend/feature_extraction.py:231-280 | the dictionary built step by step equals the specification `ExtractedFeatures`. It has exactly 48 keys, and a value is -1 exactly in a placeholder column |
| FeatureProperties.NoHttpsMeansPrefix | backend/feature_extraction.py:79-81 | the no-HTTPS flag is 0 exactly when the URL begins with `https:` in any mix of cases |
| FeatureProperties.IpAddressMeansDottedQuad | backend/feature_extraction.py:95-99 | the IP flag is 1 exactly when the netloc is in the regular language of the pattern; such a netloc has 7 to 16 characters |
| FeatureProperties.DomainInSubdomainsMeaning | backend/feature_extraction.py:101-113 | the flag is 1 exactly when there are at least three labels and the label before the last equals an earlier label |
| FeatureProperties.RandomSegmentNeedsLongPath | backend/feature_extraction.py:83-93 | a random-looking segment implies a path of more than 15 characters |
| FeatureProperties.DoubleSlashDeepensPath | backend/feature_extraction.py:147-149 | `//` in the path implies a path level of at least 2 |
| FeatureProperties.ComponentLengthsWithinUrl | backend/feature_extraction.py:135-145 | hostname, path and query lengths together never exceed the URL length |
| FeatureProperties.HostnameDashesWithinUrl | backend/feature_extraction.py:46-47 | dashes in the hostname never exceed dashes in the URL |
| FeatureProperties.BrandTokenOccursInUrl | backend/feature_extraction.py:165-168 | a token of the lower-cased URL occurs in it, so the third brand test adds nothing to the first |
| FeatureProperties.EmbeddedBrandMeaning | backend/feature_extraction.py:157-170 | the brand flag holds exactly when some brand is a token and does not occur in the netloc |
| App.RuleBasedCheck | backend/app.py:51-72 | a rule fires exactly when a reason is given, and that reason is one of the three rule reasons |
| App.RulesMeaning | backend/app.py:51-72 | a rule fires exactly on `@`, a length over 75, or a netloc in the IPv4 language. Each reason names the first of these that holds |
| App.RulesReadFeatures | backend/app.py:51-72 | a rule fires exactly when the extracted `AtSymbol` is 1, `UrlLength` is over 75, or `IpAddress` is 1 |
| App.LengthRuleBoundary | backend/app.py:61-62 | without the other two indicators, 75 characters pass and 76 characters give the length reason |
| App.AtSignFirst | backend/app.py:57-58 | any URL containing `@` gets the `@` reason, whatever its length and host |
| App.RulesOnSimpleUrl | backend/app.py:57-72 | on a short `scheme://host/path` URL free of `@`, the rules flag exactly a host matching the IPv4 pattern |
| App.IpHostExample | backend/test_api.py:60 | `http://192.168.1.1/admin-login.html` gets the IP-address reason |
| App.PlainHostExample | backend/test_api.py:50 | `https://www.google.com` passes all three rules |
| App.Column | backend/app.py:90 | `raw_features[name]`: a value found is the entry of a column with exactly that name |
| App.ColumnIffNamed | backend/app.py:90 | a column is found exactly when the dictionary has a column with that name |
| App.MissingFeatureMessage | backend/app.py:94-97 | the `KeyError` message ends with the missing name in quotes |
| App.MessageNamesColumn | backend/app.py:94-97 | different names give different messages, so the message identifies the missing column |
| App.FeatureVector | backend/app.py:88-97 | on success the vector lists each name's column in the model's order. It fails exactly when some name has no column, and the error names the first such name |
| App.VectorOfFullDictionary | backend/app.py:88-97 | over the 48 columns, the vector fails exactly when some name is not a column name |
| App.ExtractedVector | backend/app.py:84-90 | column names alone always give a vector of the extracted dictionary |
| App.VectorReadsNamedColumns | backend/app.py:90 | dictionaries that agree on the named columns give the same vector; extra keys are ignored |
| App.MlBasedPrediction | backend/app.py:74-109 | unloaded resources give the not-loaded error with probability 0.0. A missing column gives its error. Otherwise the prediction is "phishing" exactly when the classifier's probability reaches 0.58, and "safe" below it |
| App.MissingColumnIffUnknownName | backend/app.py:94-97 | once loaded, the classifier step reports an error exactly when some loaded name is not one of the 48 column names |
| App.Predict | backend/app.py:113-151 | non-JSON input and a missing or empty URL give 400. When no rule fires, the response is an error exactly when the classifier step reports one, and then it is a 500 with that step's message. Every error is a 400 or a 500. A verdict is only "phishing" or "safe", and a reported probability decides it at 0.58 |
| App.RuleDecidesAlone | backend/app.py:127-137 | a fired rule gives "phishing" with its reason and no probability, the same for any loaded or missing model |
| App.ProbabilityOnlyFromModel | backend/app.py:130-151 | a verdict carries a probability exactly when no rule fired |
| App.NotLoadedIsServerError | backend/app.py:79-80 | without loaded resources, a URL that passes the rules gets a 500 with the not-loaded message |
| App.ModelDecides | backend/app.py:139-151 | with loaded resources naming only columns, a URL that passes the rules gets the classifier's probability for its vector. The verdict is "phishing" exactly at 0.58 or above |
| App.ConstantModelVerdict | backend/app.py:104-107 | a classifier constant at `p` gives the verdict for `p`: 0.60 and 0.58 give "phishing", 0.50 gives "safe" |

## Left out

- Flask, JSON decoding and HTTP status mechanics: a request is reduced to "is JSON" plus the optional `url` value, and a response to its body plus status.
- Non-object JSON bodies and non-string `url` values: both are outside the modelled request type.
- `load_ml_resources`: file I/O, `joblib` and `json` loading, and the startup `print`s. The model and the feature names are parameters, and a load failure is their absence.
- The classifier (`predict_proba` through a pandas DataFrame): an arbitrary function from the integer vector to a probability in [0, 1].
- App.Predict: reports the model's probability unrounded. `round(proba, 4)` on binary floating point is not modelled. So the link between the reported probability and the verdict holds for the unrounded value: a raw probability in [0.57995, 0.58) would be shown as 0.58 beside a "safe" verdict.
- `print` of the key-count warning: the model proves the count is always 48, so the warning cannot be reached.
- `urlparse` corner cases:
  - the scheme is not checked to start with a letter and contain only letters, digits, `+`, `-` or `.`;
  - leading C0 controls and spaces are not stripped;
  - tab, carriage-return and newline characters are not removed;
  - `;params` are not split off the path;
  - the `ValueError` for malformed IPv6 brackets is not raised;
  - the `ValueError` for a non-ASCII netloc whose NFKC normal form adds one of `/`, `?`, `#`, `@` or `:` is not raised. In the code nothing catches it in `rule_based_check` (backend/app.py:68) or in the features without `try/except`, such as `get_symbol_counts` and `check_ip_address`.

  Because newlines are kept, the regular expression's final-newline case can be reached in the model, which real `urlparse` does not allow.
- The `try/except` fallbacks of four features (`get_subdomain_level`, `get_path_level`, `check_domain_in_subdomains` and `check_domain_in_paths`): the modelled `urlparse` never fails, so those fallbacks cannot be reached. In the code they catch the `ValueError`s listed above, and return 0.
- `str.isdigit` and `\d` on non-ASCII digits: only `0`-`9` are digits here; `lower()` is modelled on ASCII letters only.
- App.MissingFeatureMessage: the `KeyError` text is built as `'name'`. Python's `repr` quoting and escaping for names that contain quotes or backslashes is not modelled.
- Python truthiness of the model object other than `None` is not modelled: an ensemble with no estimators would count as false in Python.
