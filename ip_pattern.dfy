/**
 * The IPv4-looking host test `re.match(r"^\d{1,3}\.\d{1,3}\.\d{1,3}\.\d{1,3}$", host)`,
 * used both as a feature and as a rule. Only the number of digits per group
 * is checked, never the value of an octet.
 */
module Ipv4Pattern {
  import opened Strings

  /** `\d{1,3}`: one to three ASCII digits. */
  predicate DigitGroup(g: string) {
    1 <= |g| <= 3 && forall k :: 0 <= k < |g| ==> IsDigit(g[k])
  }

  /** Four `.`-separated digit groups and nothing else. */
  predicate DottedQuad(h: string) {
    var groups := Split(h, '.');
    |groups| == 4 && forall i :: 0 <= i < 4 ==> DigitGroup(groups[i])
  }

  /**
   * The match as Python's `re` performs it: `^` anchors at the start and `$`
   * matches at the end or just before a final newline.
   */
  predicate MatchesIpv4Pattern(h: string): (m: bool)
    ensures m ==> 7 <= |h| <= 16 && '.' in h
  {
    if DottedQuad(h) then
      DottedQuadShape(h);
      true
    else if |h| > 0 && h[|h| - 1] == '\n' && DottedQuad(h[..|h| - 1]) then
      DottedQuadShape(h[..|h| - 1]);
      assert h[..|h| - 1] <= h;
      true
    else
      false
  }

  /** The strings the regular expression matches: four digit groups joined by `.`, with an optional final newline. */
  ghost predicate InIpv4Language(h: string) {
    exists groups: seq<string> ::
      |groups| == 4 && (forall i :: 0 <= i < 4 ==> DigitGroup(groups[i]))
      && (h == Join(groups, '.') || h == Join(groups, '.') + "\n")
  }

  /** Joining four digit groups gives a dotted quad. */
  lemma JoinedGroupsAreDottedQuad(groups: seq<string>)
    requires |groups| == 4 && forall i :: 0 <= i < 4 ==> DigitGroup(groups[i])
    ensures DottedQuad(Join(groups, '.'))
  {
    SplitJoin(groups, '.');
  }

  /** The split-based matcher accepts exactly the language of the regular expression. */
  lemma MatchesIffInLanguage(h: string)
    ensures MatchesIpv4Pattern(h) <==> InIpv4Language(h)
  {
    if DottedQuad(h) {
      JoinSplit(h, '.');
      assert Join(Split(h, '.'), '.') == h;
    } else if |h| > 0 && h[|h| - 1] == '\n' && DottedQuad(h[..|h| - 1]) {
      var body := h[..|h| - 1];
      JoinSplit(body, '.');
      assert h == Join(Split(body, '.'), '.') + "\n";
    }
    if InIpv4Language(h) {
      var groups :| |groups| == 4 && (forall i :: 0 <= i < 4 ==> DigitGroup(groups[i]))
        && (h == Join(groups, '.') || h == Join(groups, '.') + "\n");
      JoinedGroupsAreDottedQuad(groups);
      if h != Join(groups, '.') {
        assert h[..|h| - 1] == Join(groups, '.');
      }
    }
  }

  /** A dotted quad is its four groups joined by dots. */
  lemma DottedQuadPieces(h: string)
    requires DottedQuad(h)
    ensures var g := Split(h, '.'); h == g[0] + "." + (g[1] + "." + (g[2] + "." + g[3]))
  {
    JoinSplit(h, '.');
    var g := Split(h, '.');
    assert Join(g[3..], '.') == g[3];
    assert Join(g[2..], '.') == g[2] + "." + g[3];
    assert Join(g[1..], '.') == g[1] + "." + (g[2] + "." + g[3]);
  }

  /** A dotted quad has exactly three dots and seven to fifteen characters. */
  lemma DottedQuadShape(h: string)
    requires DottedQuad(h)
    ensures CountChar(h, '.') == 3
    ensures 7 <= |h| <= 15
  {
    SplitCount(h, '.');
    DottedQuadPieces(h);
  }

  /** A dotted quad holds nothing but ASCII digits and dots. */
  lemma DottedQuadAlphabet(h: string)
    requires DottedQuad(h)
    ensures forall k :: 0 <= k < |h| ==> IsDigit(h[k]) || h[k] == '.'
  {
    DottedQuadPieces(h);
    var g := Split(h, '.');
    assert DigitGroup(g[0]) && DigitGroup(g[1]) && DigitGroup(g[2]) && DigitGroup(g[3]);
  }

  /** One character other than a digit or a dot rules a dotted quad out. */
  lemma ForeignCharacterDefeatsQuad(h: string, k: nat)
    requires k < |h| && !IsDigit(h[k]) && h[k] != '.'
    ensures !DottedQuad(h)
  {
    if DottedQuad(h) {
      DottedQuadAlphabet(h);
    }
  }

  /** No octet range check: `999.999.999.999` matches. */
  lemma OutOfRangeOctetsMatch()
    ensures MatchesIpv4Pattern("999.999.999.999")
  {
    var groups := ["999", "999", "999", "999"];
    assert DigitGroup("999");
    assert Join(groups, '.') == "999.999.999.999";
    JoinedGroupsAreDottedQuad(groups);
  }

  /** A port is not stripped: `1.2.3.4:80` does not match. */
  lemma PortDefeatsMatch()
    ensures !MatchesIpv4Pattern("1.2.3.4:80")
  {
    var h := "1.2.3.4:80";
    assert h[7] == ':';
    ForeignCharacterDefeatsQuad(h, 7);
    assert h[|h| - 1] == '0';
  }
}
