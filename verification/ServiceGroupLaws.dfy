/** What the classifier answers, in terms of what speaks for each group; and what it makes of white space and labels. */
module ServiceGroupLaws {
  import opened Prelude
  import opened KeywordText
  import opened ServiceGroup
  import CourseRow

  // ---------- what speaks for a group ----------

  function SourceCode(rules: Rules, c: Course): string {
    Convert(Clean(c.source), rules.lower)
  }

  function ProviderCode(rules: Rules, c: Course): string {
    Convert(Clean(c.provider), rules.upper)
  }

  /** Some field that describes the course's origin contains one of the keywords. */
  ghost predicate OriginSays(rules: Rules, c: Course, keywords: set<string>) {
    exists k :: k in keywords && FieldsSay({c.collection, c.domain, c.source, c.operator}, k, rules.lower)
  }

  /** The title or the category contains one of the keywords. */
  ghost predicate ContentSays(rules: Rules, c: Course, keywords: set<string>) {
    exists k :: k in keywords && FieldsSay({c.title, c.category}, k, rules.lower)
  }

  ghost predicate FieldsSay(fields: set<Text>, k: string, lower: CaseMap) {
    exists v :: v in fields && v.Some? && Contains(Convert(v.value, lower), Convert(k, lower))
  }

  ghost predicate IsCulture(rules: Rules, c: Course, explicit: Option<Group>) {
    || explicit == Some(Culture)
    || Normalize(rules, c.collection) == Some(Culture) || Normalize(rules, c.domain) == Some(Culture)
    || ProviderCode(rules, c) in rules.cultureProviders || SourceCode(rules, c) == "retail_culture"
  }

  ghost predicate IsExcluded(rules: Rules, c: Course) {
    SourceCode(rules, c) in rules.excludedSources || Clean(c.domain) in rules.excludedDomains
  }

  ghost predicate HasPublicSource(rules: Rules, c: Course) {
    || SourceCode(rules, c) in rules.publicSources
    || "municipal_" <= SourceCode(rules, c) || "MUNI_" <= ProviderCode(rules, c)
  }

  ghost predicate SuggestsExperience(rules: Rules, c: Course) {
    || SourceCode(rules, c) in rules.experienceSources || Clean(c.program) in rules.experiencePrograms
    || OriginSays(rules, c, rules.experienceKeywords) || ContentSays(rules, c, rules.contentKeywords)
    || exists token :: token in rules.urlTokens && c.url.Some? && Contains(Convert(c.url.value, rules.lower), token)
  }

  ghost predicate SuggestsPublic(rules: Rules, c: Course) {
    HasPublicSource(rules, c) || OriginSays(rules, c, rules.publicKeywords)
  }

  lemma OriginIsText(rules: Rules, c: Course, keywords: set<string>)
    requires LowerCases(rules.lower) && AreKeywords(keywords)
    ensures ContainsAny(SourceText([c.collection, c.domain, c.source, c.operator], rules.lower), keywords, rules.lower)
      <==> OriginSays(rules, c, keywords)
  {
    hide SourceText, Contains, Convert;
    var values := [c.collection, c.domain, c.source, c.operator];
    forall k | k in keywords
      ensures Contains(SourceText(values, rules.lower), Convert(k, rules.lower)) <==>
        FieldsSay({c.collection, c.domain, c.source, c.operator}, k, rules.lower)
    {
      KeywordIsInOneField(values, k, rules.lower);
    }
  }

  lemma ContentIsText(rules: Rules, c: Course, keywords: set<string>)
    requires LowerCases(rules.lower) && AreKeywords(keywords)
    ensures ContainsAny(SourceText([c.title, c.category], rules.lower), keywords, rules.lower) <==>
      ContentSays(rules, c, keywords)
  {
    hide SourceText, Contains, Convert;
    var values := [c.title, c.category];
    forall k | k in keywords
      ensures Contains(SourceText(values, rules.lower), Convert(k, rules.lower)) <==>
        FieldsSay({c.title, c.category}, k, rules.lower)
    {
      KeywordIsInOneField(values, k, rules.lower);
    }
  }

  lemma UrlIsText(rules: Rules, c: Course)
    requires WellFormed(rules)
    ensures (exists token :: token in rules.urlTokens && Contains(Convert(Clean(c.url), rules.lower), token)) <==>
      (exists token :: token in rules.urlTokens && c.url.Some? && Contains(Convert(c.url.value, rules.lower), token))
  {
    forall token | token in rules.urlTokens
      ensures Contains(Convert(Clean(c.url), rules.lower), token) <==>
        c.url.Some? && Contains(Convert(c.url.value, rules.lower), token)
    {
      if c.url.Some? {
        ConvertStripped(c.url.value, rules.lower);
        ContainsStripped(Convert(c.url.value, rules.lower), token);
      }
    }
  }

  // ---------- the answers ----------

  /** The four answers exactly; the Python classifier never lets a weaker sign outweigh a stronger one. */
  lemma ClassifiesBySigns(rules: Rules, c: Course, group: Text)
    requires WellFormed(rules)
    ensures var explicit, answer := Normalize(rules, group), Classify(rules, c, group);
            var open := !IsCulture(rules, c, explicit) && !IsExcluded(rules, c);
            var ordinary := open && Clean(c.program) !in rules.excludedPrograms;
            var lively := explicit == Some(Experience) || SuggestsExperience(rules, c);
      && (answer == Culture <==> IsCulture(rules, c, explicit))
      && (answer == Experience <==> ordinary && lively)
      && (answer == Public <==>
            if ordinary then !lively && (explicit == Some(Public) || SuggestsPublic(rules, c))
            else open && (explicit == Some(Public) || HasPublicSource(rules, c)))
  {
    hide Convert, Contains, SourceText, Strip, Normalize, OriginSays, ContentSays;
    OriginIsText(rules, c, rules.experienceKeywords);
    OriginIsText(rules, c, rules.publicKeywords);
    ContentIsText(rules, c, rules.contentKeywords);
    UrlIsText(rules, c);
    hide ContainsAny, WellFormed;
  }

  /** A row whose policy is "locked" keeps the group it is given, if that is a group at all; any other is classified. */
  lemma LockKeepsGroup(rules: Rules, before: Option<TableRow>, row: TableRow)
    requires WellFormed(rules)
    ensures var stored, given := Trigger(rules, before, row), exists g :: row.group == Some(rules.name(g));
      && stored == row.(group := stored.group) && (exists g :: stored.group == Some(rules.name(g)))
      && (Convert(Trim(row.policy), rules.lower) == "locked" && given ==> stored == row)
      && (!(Convert(Trim(row.policy), rules.lower) == "locked" && given) ==>
            stored.group == Some(rules.name(Resolve(rules, Titled(row),
              if before.Some? && before.value.group == row.group then None else row.group))))
  {
    hide Resolve, Convert, Trim, Titled, WellFormed;
    if Locked(rules, row) {
      assert row.group == Some(rules.name(Culture)) || row.group == Some(rules.name(Experience))
        || row.group == Some(rules.name(Public)) || row.group == Some(rules.name(Other));
    } else if g :| row.group == Some(rules.name(g)) {
      match g { case Culture => case Experience => case Public => case Other => }
    }
  }

  // ---------- white space and labels ----------

  /** White space, by code point. */
  lemma WhiteIsListed(c: char)
    ensures IsWhite(c) <==>
      c as int in {0x09, 0x0A, 0x0B, 0x0C, 0x0D, 0x1C, 0x1D, 0x1E, 0x1F, 0x20, 0x85, 0xA0, 0x1680, 0x2000, 0x2001,
                   0x2002, 0x2003, 0x2004, 0x2005, 0x2006, 0x2007, 0x2008, 0x2009, 0x200A, 0x2028, 0x2029, 0x202F,
                   0x205F, 0x3000}
  {
  }

  /** Strip cuts off white space, all of it and nothing else. */
  lemma {:induction false} StripCutsWhite(s: string)
    ensures exists i, j :: 0 <= i <= j <= |s| && IsInner(s, i, j) && Strip(s) == s[i..j]
    decreases |s|
  {
    hide IsWhite;
    if s != "" && IsWhite(s[0]) {
      StripCutsWhite(s[1..]);
      var i, j :| 0 <= i <= j <= |s[1..]| && IsInner(s[1..], i, j) && Strip(s[1..]) == s[1..][i..j];
      assert s[1..][i..j] == s[i + 1..j + 1] && IsInner(s, i + 1, j + 1);
    } else if s != "" && IsWhite(s[|s| - 1]) {
      var t := s[..|s| - 1];
      StripCutsWhite(t);
      var i, j :| 0 <= i <= j <= |t| && IsInner(t, i, j) && Strip(t) == t[i..j];
      assert t[i..j] == s[i..j] && IsInner(s, i, j);
    } else {
      assert s[0..|s|] == s && IsInner(s, 0, |s|);
    }
  }

  /** Around s[i..j] there is only white space, and s[i..j] neither begins nor ends with any. */
  ghost predicate IsInner(s: string, i: int, j: int)
    requires 0 <= i <= j <= |s|
  {
    && (forall k :: 0 <= k < i || j <= k < |s| ==> IsWhite(s[k]))
    && (i < j ==> !IsWhite(s[i]) && !IsWhite(s[j - 1]))
  }

  /** Btrim cuts off blanks, all of them and nothing else. */
  lemma {:induction false} BtrimCutsBlanks(s: string)
    ensures exists i, j :: 0 <= i <= j <= |s| && IsUnpadded(s, i, j) && CourseRow.Btrim(s) == s[i..j]
    decreases |s|
  {
    if s != "" && s[0] == ' ' {
      BtrimCutsBlanks(s[1..]);
      var i, j :| 0 <= i <= j <= |s[1..]| && IsUnpadded(s[1..], i, j) && CourseRow.Btrim(s[1..]) == s[1..][i..j];
      assert s[1..][i..j] == s[i + 1..j + 1] && IsUnpadded(s, i + 1, j + 1);
    } else if s != "" && s[|s| - 1] == ' ' {
      var t := s[..|s| - 1];
      BtrimCutsBlanks(t);
      var i, j :| 0 <= i <= j <= |t| && IsUnpadded(t, i, j) && CourseRow.Btrim(t) == t[i..j];
      assert t[i..j] == s[i..j] && IsUnpadded(s, i, j);
    } else {
      assert s[0..|s|] == s && IsUnpadded(s, 0, |s|);
    }
  }

  ghost predicate IsUnpadded(s: string, i: int, j: int)
    requires 0 <= i <= j <= |s|
  {
    && (forall k :: 0 <= k < i || j <= k < |s| ==> s[k] == ' ')
    && (i < j ==> s[i] != ' ' && s[j - 1] != ' ')
  }

  /** The compact form of a label: piece by piece, every blank is dropped and every other character kept. */
  lemma {:induction false} BlanksDoNotCount(s: string, t: string)
    ensures WithoutBlanks(s + t) == WithoutBlanks(s) + WithoutBlanks(t)
  {
    if s == "" {
      assert s + t == t;
    } else {
      BlanksDoNotCount(s[1..], t);
      assert (s + t)[1..] == s[1..] + t;
    }
  }

  lemma OneCharacter(c: char)
    ensures WithoutBlanks([c]) == if c == ' ' then "" else [c]
  {
    assert [c][1..] == "";
  }
}
