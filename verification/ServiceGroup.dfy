/**
  The service-group classifier, written once in Python and once in SQL (infer, then resolve, then a trigger), as a
  function of the same rule tables.
*/
module ServiceGroup {
  import opened Prelude
  import opened KeywordText
  import CourseRow

  datatype Group = Culture | Experience | Public | Other

  datatype Rules = Rules(
    name: Group -> string,
    aliases: Group -> set<string>,
    cultureProviders: set<string>,
    experienceSources: set<string>,
    excludedSources: set<string>,
    excludedDomains: set<string>,
    experiencePrograms: set<string>,
    excludedPrograms: set<string>,
    publicSources: set<string>,
    experienceKeywords: set<string>,
    contentKeywords: set<string>,
    urlTokens: set<string>,
    publicKeywords: set<string>,
    lower: CaseMap,
    upper: CaseMap)

  type Text = Option<string>

  datatype Course = Course(
    provider: Text,
    collection: Text,
    domain: Text,
    source: Text,
    operator: Text,
    url: Text,
    title: Text,
    category: Text,
    program: Text)

  predicate StartsWith(s: string, prefix: string) {
    |prefix| <= |s| && s[..|prefix|] == prefix
  }

  function WithoutBlanks(s: string): string {
    if s == "" then ""
    else if s[0] == ' ' then WithoutBlanks(s[1..])
    else [s[0]] + WithoutBlanks(s[1..])
  }

  /** The group a compact label is an alias of. */
  function AliasOf(rules: Rules, compact: string): Option<Group> {
    if compact in rules.aliases(Culture) then Some(Culture)
    else if compact in rules.aliases(Experience) then Some(Experience)
    else if compact in rules.aliases(Public) then Some(Public)
    else if compact in rules.aliases(Other) then Some(Other)
    else None
  }

  // ---------- Python ----------

  /** normalize_service_group; None for the empty string */
  function Normalize(rules: Rules, value: Text): Option<Group> {
    AliasOf(rules, WithoutBlanks(Clean(value)))
  }

  /** infer_service_group */
  function Classify(rules: Rules, c: Course, group: Text): Group {
    var explicit := Normalize(rules, group);
    var provider := Convert(Clean(c.provider), rules.upper);
    var source := Convert(Clean(c.source), rules.lower);
    var metadata := SourceText([c.collection, c.domain, c.source, c.operator], rules.lower);
    var content := SourceText([c.title, c.category], rules.lower);
    var url := Convert(Clean(c.url), rules.lower);
    var program := Clean(c.program);
    if provider in rules.cultureProviders
       || explicit == Some(Culture)
       || Normalize(rules, c.collection) == Some(Culture)
       || Normalize(rules, c.domain) == Some(Culture)
       || source == "retail_culture"
    then Culture
    else if source in rules.excludedSources || Clean(c.domain) in rules.excludedDomains then Other
    else if program in rules.excludedPrograms then
      if explicit == Some(Public) then Public
      else if source in rules.publicSources || StartsWith(source, "municipal_") || StartsWith(provider, "MUNI_")
      then Public
      else Other
    else if explicit == Some(Experience) then Experience
    else if source in rules.experienceSources
            || program in rules.experiencePrograms
            || ContainsAny(metadata, rules.experienceKeywords, rules.lower)
            || ContainsAny(content, rules.contentKeywords, rules.lower)
            || (exists token :: token in rules.urlTokens && Contains(url, token))
    then Experience
    else if explicit == Some(Public) then Public
    else if source in rules.publicSources || StartsWith(source, "municipal_") || StartsWith(provider, "MUNI_")
            || ContainsAny(metadata, rules.publicKeywords, rules.lower)
    then Public
    else if explicit.Some? then explicit.value
    else Other
  }

  // ---------- SQL ----------

  /** btrim(coalesce(v, '')) */
  function Trim(v: Text): string {
    if v.Some? then CourseRow.Btrim(v.value) else ""
  }

  /** mooncen_infer_course_service_group */
  function Infer(rules: Rules, c: Course): Group {
    var provider := Convert(Trim(c.provider), rules.upper);
    var source := Convert(Trim(c.source), rules.lower);
    var domain := Trim(c.domain);
    var program := Trim(c.program);
    var metadata := ConcatText([c.collection, c.domain, c.source, c.operator], rules.lower);
    var content := ConcatText([c.title, c.category], rules.lower);
    var url := Convert(Convert(if c.url.Some? then c.url.value else "", rules.lower), rules.lower);
    if provider in rules.cultureProviders
       || WithoutBlanks(Trim(c.collection)) in rules.aliases(Culture)
       || WithoutBlanks(domain) in rules.aliases(Culture)
       || source == "retail_culture"
    then Culture
    else if source in rules.excludedSources || domain in rules.excludedDomains then Other
    else if program in rules.excludedPrograms then
      if source in rules.publicSources || StartsWith(source, "municipal_") || StartsWith(provider, "MUNI_")
      then Public
      else Other
    else if source in rules.experienceSources
            || program in rules.experiencePrograms
            || ContainsAny(metadata, rules.experienceKeywords, rules.lower)
            || ContainsAny(content, rules.contentKeywords, rules.lower)
            || ContainsAny(url, rules.urlTokens, rules.lower)
    then Experience
    else if source in rules.publicSources || StartsWith(source, "municipal_") || StartsWith(provider, "MUNI_")
            || ContainsAny(metadata, rules.publicKeywords, rules.lower)
    then Public
    else Other
  }

  /** mooncen_resolve_course_service_group */
  function Resolve(rules: Rules, c: Course, group: Text): Group {
    var inferred := Infer(rules, c);
    var source := Convert(Trim(c.source), rules.lower);
    var explicit := AliasOf(rules, WithoutBlanks(Trim(group)));
    if inferred == Culture then inferred
    else if explicit == Some(Culture) then Culture
    else if source in rules.excludedSources || Trim(c.domain) in rules.excludedDomains then Other
    else if Trim(c.program) in rules.excludedPrograms then inferred
    else if explicit == Some(Experience) then Experience
    else if inferred == Experience then inferred
    else if explicit == Some(Public) then Public
    else if inferred != Other then inferred
    else if explicit.Some? then explicit.value
    else inferred
  }

  // ---------- agreement ----------

  /** What the generated SQL relies on in the rule tables. */
  ghost predicate WellFormed(rules: Rules) {
    && LowerCases(rules.lower)
    && AreKeywords(rules.experienceKeywords) && AreKeywords(rules.contentKeywords)
    && AreKeywords(rules.publicKeywords) && AreKeywords(rules.urlTokens)
    && (forall token :: token in rules.urlTokens ==> Convert(token, rules.lower) == token)
    && (forall g :: Normalize(rules, Some(rules.name(g))) == Some(g))
    && (forall g :: AliasOf(rules, WithoutBlanks(Trim(Some(rules.name(g))))) == Some(g))
    && AliasOf(rules, "") == None
  }

  /** Both languages see the same trimmed value: at either end there are at most blanks. */
  predicate SameTrim(v: Text) {
    Clean(v) == Trim(v)
  }

  predicate SameTrims(c: Course, group: Text) {
    SameTrim(c.provider) && SameTrim(c.collection) && SameTrim(c.domain) && SameTrim(c.source)
    && SameTrim(c.program) && SameTrim(group)
  }

  lemma UrlsAgree(rules: Rules, v: Text)
    requires WellFormed(rules)
    ensures (exists token :: token in rules.urlTokens && Contains(Convert(Clean(v), rules.lower), token)) <==>
      ContainsAny(Convert(Convert(if v.Some? then v.value else "", rules.lower), rules.lower),
                  rules.urlTokens, rules.lower)
  {
    var raw := if v.Some? then v.value else "";
    ConvertTwice(raw, rules.lower);
    forall token | token in rules.urlTokens
      ensures Contains(Convert(Clean(v), rules.lower), token) <==>
        Contains(Convert(raw, rules.lower), Convert(token, rules.lower))
    {
      ConvertStripped(raw, rules.lower);
      ContainsStripped(Convert(raw, rules.lower), token);
    }
  }

  /**
    The one disagreement: an excluded kind of programme (lodging, room hire) that its crawler explicitly calls a
    public course, with neither culture nor exclusion evidence and no public source.
  */
  predicate Disagree(rules: Rules, c: Course, group: Text) {
    var provider := Convert(Clean(c.provider), rules.upper);
    var source := Convert(Clean(c.source), rules.lower);
    && Clean(c.program) in rules.excludedPrograms
    && Normalize(rules, group) == Some(Public)
    && provider !in rules.cultureProviders && source != "retail_culture"
    && Normalize(rules, c.collection) != Some(Culture) && Normalize(rules, c.domain) != Some(Culture)
    && source !in rules.excludedSources && Clean(c.domain) !in rules.excludedDomains
    && source !in rules.publicSources && !StartsWith(source, "municipal_") && !StartsWith(provider, "MUNI_")
  }

  /** Python and SQL agree on every course except exactly that one kind. */
  lemma PythonAgreesWithSql(rules: Rules, c: Course, group: Text)
    requires WellFormed(rules) && SameTrims(c, group)
    ensures Classify(rules, c, group) == Resolve(rules, c, group) <==> !Disagree(rules, c, group)
    ensures Disagree(rules, c, group) ==> Classify(rules, c, group) == Public && Resolve(rules, c, group) == Other
  {
    hide WellFormed, Contains, Convert, Join, StrippedParts, NonNullParts, SourceText, ConcatText, ContainsAny;
    EvidenceAgrees(rules, c);
  }

  lemma EvidenceAgrees(rules: Rules, c: Course)
    requires WellFormed(rules)
    ensures forall keywords :: keywords in {rules.experienceKeywords, rules.publicKeywords} ==>
      (ContainsAny(SourceText([c.collection, c.domain, c.source, c.operator], rules.lower), keywords, rules.lower) <==>
       ContainsAny(ConcatText([c.collection, c.domain, c.source, c.operator], rules.lower), keywords, rules.lower))
    ensures ContainsAny(SourceText([c.title, c.category], rules.lower), rules.contentKeywords, rules.lower) <==>
      ContainsAny(ConcatText([c.title, c.category], rules.lower), rules.contentKeywords, rules.lower)
    ensures (exists token :: token in rules.urlTokens && Contains(Convert(Clean(c.url), rules.lower), token)) <==>
      ContainsAny(Convert(Convert(if c.url.Some? then c.url.value else "", rules.lower), rules.lower),
                  rules.urlTokens, rules.lower)
  {
    var metadata := [c.collection, c.domain, c.source, c.operator];
    TextsAgree(metadata, rules.experienceKeywords, rules.lower);
    TextsAgree(metadata, rules.publicKeywords, rules.lower);
    TextsAgree([c.title, c.category], rules.contentKeywords, rules.lower);
    UrlsAgree(rules, c.url);
  }

  // ---------- edges ----------

  function Stripped(v: Text): Text {
    if v.Some? then Some(Strip(v.value)) else None
  }

  function StrippedCourse(c: Course): Course {
    Course(Stripped(c.provider), Stripped(c.collection), Stripped(c.domain), Stripped(c.source), Stripped(c.operator),
           Stripped(c.url), Stripped(c.title), Stripped(c.category), Stripped(c.program))
  }

  lemma {:induction false} StripTwice(s: string)
    ensures Strip(Strip(s)) == Strip(s) && CourseRow.Btrim(Strip(s)) == Strip(s)
    decreases |s|
  {
    if s != "" {
      if IsWhite(s[0]) { StripTwice(s[1..]); }
      else if IsWhite(s[|s| - 1]) { StripTwice(s[..|s| - 1]); }
    }
  }

  lemma StrippedTrims(v: Text)
    ensures SameTrim(Stripped(v)) && Clean(Stripped(v)) == Clean(v)
  {
    if v.Some? { StripTwice(v.value); }
  }

  lemma {:induction false} StrippedSameParts(values: seq<Text>, edged: seq<Text>)
    requires |values| == |edged| && forall i :: 0 <= i < |edged| ==> values[i] == Stripped(edged[i])
    ensures StrippedParts(values) == StrippedParts(edged)
  {
    if values != [] {
      StrippedTrims(edged[0]);
      StrippedSameParts(values[1..], edged[1..]);
    }
  }

  /** White space at the ends of its inputs makes no difference to the Python classifier. */
  lemma PythonIgnoresEdges(rules: Rules, c: Course, group: Text)
    ensures Classify(rules, StrippedCourse(c), Stripped(group)) == Classify(rules, c, group)
    ensures Disagree(rules, StrippedCourse(c), Stripped(group)) <==> Disagree(rules, c, group)
    ensures SameTrims(StrippedCourse(c), Stripped(group))
  {
    StrippedTrims(c.provider); StrippedTrims(c.collection); StrippedTrims(c.domain); StrippedTrims(c.source);
    StrippedTrims(c.url); StrippedTrims(c.program); StrippedTrims(group);
    hide Clean, Convert, Strip, Contains, ContainsAny, StrippedParts, Join, Trim, Stripped;
    var d := StrippedCourse(c);
    StrippedSameParts([d.collection, d.domain, d.source, d.operator], [c.collection, c.domain, c.source, c.operator]);
    StrippedSameParts([d.title, d.category], [c.title, c.category]);
  }

  /** On all inputs: Python's answer is SQL's answer to the stripped input, except for exactly that one kind. */
  lemma PythonAgreesWithSqlOnStripped(rules: Rules, c: Course, group: Text)
    requires WellFormed(rules)
    ensures Classify(rules, c, group) == Resolve(rules, StrippedCourse(c), Stripped(group)) <==>
      !Disagree(rules, c, group)
  {
    hide Classify, Resolve, Disagree, WellFormed;
    PythonIgnoresEdges(rules, c, group);
    PythonAgreesWithSql(rules, StrippedCourse(c), Stripped(group));
  }

  // ---------- the trigger ----------

  /** A row of the courses table: the course, its raw title, raw_fields ->> 'service_group_policy', its group. */
  datatype TableRow = TableRow(course: Course, titleRaw: Text, policy: Text, group: Text)

  predicate Locked(rules: Rules, row: TableRow) {
    && Convert(Trim(row.policy), rules.lower) == "locked"
    && row.group.Some?
    && row.group.value in {rules.name(Culture), rules.name(Experience), rules.name(Public), rules.name(Other)}
  }

  /** The course with the title the trigger passes on: both titles, joined. */
  function Titled(row: TableRow): Course {
    row.course.(title := Some(Join(NonNullParts([row.course.title, row.titleRaw]))))
  }

  /** mooncen_set_course_service_group; `old` is None on INSERT. */
  function Trigger(rules: Rules, before: Option<TableRow>, row: TableRow): TableRow {
    if Locked(rules, row) then row
    else
      var explicit := if before.None? || row.group != before.value.group then row.group else None;
      row.(group := Some(rules.name(Resolve(rules, Titled(row), explicit))))
  }

  lemma ResolveWithoutGroup(rules: Rules, c: Course)
    requires WellFormed(rules)
    ensures Resolve(rules, c, None) == Infer(rules, c)
  {
  }

  const NOTHING := Course(None, None, None, None, None, None, None, None, None)

  /** An update that leaves the group alone stores the inferred group, whatever was stored before. */
  lemma UntouchedGroupIsInferred(rules: Rules, before: TableRow, row: TableRow)
    requires WellFormed(rules) && !Locked(rules, row) && row.group == before.group
    ensures Trigger(rules, Some(before), row).group == Some(rules.name(Infer(rules, Titled(row))))
  {
  }

  /**
    A group given on INSERT outlives a later update of other columns, whichever they are, exactly when the updated
    row is locked or the group is the one that is inferred for it.
  */
  lemma GivenGroupSurvives(rules: Rules, row: TableRow, updated: TableRow)
    requires WellFormed(rules) && !Locked(rules, row) && updated.group == Trigger(rules, None, row).group
    ensures var stored := Trigger(rules, None, row);
            Trigger(rules, Some(stored), updated) == updated <==>
              Locked(rules, updated) || stored.group == Some(rules.name(Infer(rules, Titled(updated))))
  {
    if !Locked(rules, updated) { UntouchedGroupIsInferred(rules, Trigger(rules, None, row), updated); }
  }

  /** An unlocked INSERT stores what Python would have answered, except for exactly that one kind. */
  lemma InsertStoresPythonsGroup(rules: Rules, row: TableRow)
    requires WellFormed(rules) && !Locked(rules, row) && SameTrims(Titled(row), row.group)
    ensures Trigger(rules, None, row).group == Some(rules.name(Classify(rules, Titled(row), row.group))) <==>
      !Disagree(rules, Titled(row), row.group)
  {
    hide Classify, Resolve, Disagree, SameTrims, Locked, Titled;
    PythonAgreesWithSql(rules, Titled(row), row.group);
    NamesDiffer(rules);
  }

  lemma NamesDiffer(rules: Rules)
    requires WellFormed(rules)
    ensures forall g, h :: rules.name(g) == rules.name(h) ==> g == h
  {
  }
}
