/**
  Why the agreement asks for the same trimmed value in both languages: white space other than a blank at the edge of
  any one of the six values makes the answers differ.
*/
module ServiceGroupEdges {
  import opened Prelude
  import opened KeywordText
  import opened ServiceGroup
  import opened ServiceGroupRules
  import CourseRow

  datatype Field = ProviderField | CollectionField | DomainField | SourceField | ProgramField | GroupField

  /** A course of which nothing is known but one value. */
  function CourseWith(f: Field, v: Text): Course {
    match f
    case ProviderField => NOTHING.(provider := v)
    case CollectionField => NOTHING.(collection := v)
    case DomainField => NOTHING.(domain := v)
    case SourceField => NOTHING.(source := v)
    case ProgramField => NOTHING.(program := v)
    case GroupField => NOTHING
  }

  function GroupWith(f: Field, v: Text): Text {
    if f.GroupField? then v else None
  }

  /** A value of the field that decides the answer by itself. */
  function LabelOf(f: Field): string {
    match f
    case ProviderField => "HOMEPLUS"
    case CollectionField => Name(Culture)
    case DomainField => Name(Culture)
    case SourceField => "retail_culture"
    case ProgramField => "체험"
    case GroupField => Name(Experience)
  }

  /** Both languages trim the values alike, but for the one of this field. */
  predicate SameTrimsBut(f: Field, c: Course, group: Text) {
    && (!f.ProviderField? ==> SameTrim(c.provider)) && (!f.CollectionField? ==> SameTrim(c.collection))
    && (!f.DomainField? ==> SameTrim(c.domain)) && (!f.SourceField? ==> SameTrim(c.source))
    && (!f.ProgramField? ==> SameTrim(c.program)) && (!f.GroupField? ==> SameTrim(group))
  }

  /** What is used of the case mappings. */
  ghost predicate CaseMaps(lower: CaseMap, upper: CaseMap) {
    && LowerCases(lower)
    && (forall c :: 'a' <= c <= 'z' || c == '/' || c == '_' ==> lower(c) == c)
    && (forall c :: 'A' <= c <= 'Z' ==> upper(c) == c)
    && (forall c :: IsWhite(c) ==> IsWhite(upper(c)))
  }

  /** A table of values of which none is empty or begins with white space. */
  ghost predicate BeginsWell(table: set<string>) {
    forall k :: k in table ==> k != "" && !IsWhite(k[0])
  }

  ghost predicate AllBeginWell(rules: Rules) {
    && (forall g :: BeginsWell(rules.aliases(g)))
    && BeginsWell(rules.cultureProviders) && BeginsWell(rules.experienceSources)
    && BeginsWell(rules.experiencePrograms)
  }

  lemma ProvidersBeginWell()
    ensures BeginsWell(CULTURE_CENTER_PROVIDERS)
  {
  }

  lemma SourcesBeginWell()
    ensures BeginsWell(EXPERIENCE_SOURCE_GROUPS)
  {
  }

  lemma ProgramsBeginWell()
    ensures BeginsWell(EXPERIENCE_PROGRAM_TYPES)
  {
  }

  lemma AliasesBeginWell(g: Group)
    ensures BeginsWell(Aliases(g))
  {
  }

  lemma TablesBeginWell(lower: CaseMap, upper: CaseMap)
    ensures AllBeginWell(RulesFor(lower, upper))
  {
    ProvidersBeginWell();
    SourcesBeginWell();
    ProgramsBeginWell();
    hide BeginsWell, Aliases, Name;
    forall g ensures BeginsWell(Aliases(g)) { AliasesBeginWell(g); }
  }

  /** Python strips the edge, SQL does not. */
  lemma EdgeTrims(w: char, word: string)
    requires IsWhite(w) && w != ' ' && IsKeyword(word)
    ensures Clean(Some([w] + word)) == word && Clean(Some(word)) == word
    ensures Trim(Some([w] + word)) == [w] + word && WithoutBlanks([w] + word) == [w] + word
    ensures WithoutBlanks(word) == word
  {
    var t := [w] + word;
    PlainLabel(word);
    assert t[1..] == word && word[|word| - 1] in word && t[|t| - 1] == word[|word| - 1];
  }

  lemma EdgedIsNotIn(w: char, rest: string, table: set<string>)
    requires IsWhite(w) && BeginsWell(table)
    ensures [w] + rest !in table && "" !in table
  {
  }

  lemma NothingTrims()
    ensures Clean(None) == "" && Trim(None) == "" && WithoutBlanks("") == ""
    ensures forall f: CaseMap :: Convert("", f) == ""
  {
  }

  /** No keyword is in an empty text. */
  lemma NothingContained(rules: Rules, program: Text)
    requires WellFormed(rules)
    ensures var c := NOTHING.(program := program);
            && !ContainsAny(ConcatText([c.collection, c.domain, c.source, c.operator], rules.lower),
                            rules.experienceKeywords, rules.lower)
            && !ContainsAny(ConcatText([c.title, c.category], rules.lower), rules.contentKeywords, rules.lower)
            && !ContainsAny("", rules.urlTokens, rules.lower)
  {
    var four: seq<Text>, two: seq<Text> := [None, None, None, None], [None, None];
    assert four[1..] == [None, None, None] && four[1..][1..] == two && two[1..] == [None] && two[1..][1..] == [];
    assert NonNullParts(two) == [] && NonNullParts(four) == [];
    assert ConcatText(four, rules.lower) == "" && ConcatText(two, rules.lower) == "";
  }

  /** SQL's answer about an edged provider, collection, domain or source is not the culture centre. */
  lemma SqlMissesCulture(rules: Rules, f: Field, w: char, word: string)
    requires AllBeginWell(rules) && LowerCases(rules.lower) && IsWhite(w) && w != ' ' && IsKeyword(word)
    requires IsWhite(rules.upper(w)) && (f.ProviderField? || f.CollectionField? || f.DomainField? || f.SourceField?)
    ensures Infer(rules, CourseWith(f, Some([w] + word))) != Culture
  {
    hide ContainsAny, ConcatText, Strip, CourseRow.Btrim, WithoutBlanks, IsKeyword, BeginsWell;
    EdgeTrims(w, word);
    NothingTrims();
    var p, s := Convert([w] + word, rules.upper), Convert([w] + word, rules.lower);
    assert p == [p[0]] + p[1..] && s == [s[0]] + s[1..];
    assert IsWhite(p[0]) && IsWhite(s[0]);
    EdgedIsNotIn(p[0], p[1..], rules.cultureProviders);
    EdgedIsNotIn(w, word, rules.aliases(Culture));
    assert s != "retail_culture" by { assert !IsWhite("retail_culture"[0]); }
  }

  /** SQL's answer about nothing but an edged programme is not the experience. */
  lemma SqlMissesExperience(rules: Rules, program: Text)
    requires WellFormed(rules) && AllBeginWell(rules) && Trim(program) !in rules.experiencePrograms
    ensures Infer(rules, NOTHING.(program := program)) != Experience
  {
    NothingContained(rules, program);
    hide ContainsAny, ConcatText, CourseRow.Btrim, WithoutBlanks, IsKeyword;
    NothingTrims();
    EdgedIsNotIn(' ', "", rules.experienceSources);
  }

  lemma SqlAnswers(rules: Rules, f: Field, w: char, word: string)
    requires WellFormed(rules) && AllBeginWell(rules) && IsWhite(w) && w != ' ' && IsKeyword(word)
    requires IsWhite(rules.upper(w))
    ensures Resolve(rules, CourseWith(f, Some([w] + word)), GroupWith(f, Some([w] + word))) !=
      if f.ProgramField? || f.GroupField? then Experience else Culture
  {
    hide AllBeginWell, WellFormed, Infer, AliasOf, IsKeyword, Convert, ContainsAny, CourseRow.Btrim, Strip;
    var v := Some([w] + word);
    EdgeTrims(w, word);
    match f {
      case ProgramField =>
        ResolveWithoutGroup(rules, CourseWith(f, v));
        EdgedPrograms(rules, w, word);
        SqlMissesExperience(rules, v);
      case GroupField =>
        EdgedPrograms(rules, w, word);
        SqlMissesExperience(rules, None);
        EdgedAliases(rules, w, word);
      case _ =>
        ResolveWithoutGroup(rules, CourseWith(f, v));
        LowerOfRules(rules);
        SqlMissesCulture(rules, f, w, word);
    }
  }

  lemma EdgedPrograms(rules: Rules, w: char, word: string)
    requires AllBeginWell(rules) && IsWhite(w)
    ensures [w] + word !in rules.experiencePrograms && Trim(None) !in rules.experiencePrograms
  {
  }

  lemma EdgedAliases(rules: Rules, w: char, word: string)
    requires AllBeginWell(rules) && IsWhite(w)
    ensures AliasOf(rules, [w] + word) == None
  {
  }

  lemma LowerOfRules(rules: Rules)
    requires WellFormed(rules)
    ensures LowerCases(rules.lower)
  {
  }

  /** Where Python finds the culture centre, and where the experience. */
  lemma PythonFinds(rules: Rules, c: Course, group: Text)
    requires AllBeginWell(rules)
    ensures (Convert(Clean(c.provider), rules.upper) in rules.cultureProviders
             || Normalize(rules, c.collection) == Some(Culture) || Normalize(rules, c.domain) == Some(Culture)
             || Convert(Clean(c.source), rules.lower) == "retail_culture") ==> Classify(rules, c, group) == Culture
    ensures c == NOTHING.(program := c.program) && Normalize(rules, group) in {None, Some(Experience)}
            && AliasOf(rules, "") == None && "" !in rules.excludedSources && "" !in rules.excludedDomains
            && Clean(c.program) !in rules.excludedPrograms
            && (Normalize(rules, group) == Some(Experience) || Clean(c.program) in rules.experiencePrograms) ==>
              Classify(rules, c, group) == Experience
  {
  }

  lemma ProviderInTable()
    ensures "HOMEPLUS" in CULTURE_CENTER_PROVIDERS
  {
  }

  lemma ProgramInTable()
    ensures "체험" in EXPERIENCE_PROGRAM_TYPES
  {
  }

  lemma NothingExcluded(lower: CaseMap, upper: CaseMap)
    ensures var rules := RulesFor(lower, upper);
            && "" !in rules.excludedSources && "" !in rules.excludedDomains && "" !in rules.excludedPrograms
            && "체험" !in rules.excludedPrograms
  {
  }

  /** The values are in the repository's tables. */
  lemma InTables(lower: CaseMap, upper: CaseMap, f: Field)
    requires CaseMaps(lower, upper)
    ensures var rules, word := RulesFor(lower, upper), LabelOf(f);
            && (f.ProviderField? ==> Convert(word, rules.upper) in rules.cultureProviders)
            && (f.CollectionField? || f.DomainField? ==> AliasOf(rules, word) == Some(Culture))
            && (f.SourceField? ==> Convert(word, rules.lower) == "retail_culture")
            && (f.ProgramField? ==> word in rules.experiencePrograms && word !in rules.excludedPrograms)
            && (f.GroupField? ==> AliasOf(rules, word) == Some(Experience) && "" !in rules.excludedPrograms)
            && "" !in rules.excludedSources && "" !in rules.excludedDomains
  {
    hide AliasOf, Convert, Name, Aliases;
    CasesOfLabels(lower, upper);
    NothingExcluded(lower, upper);
    match f
    case ProviderField => ProviderInTable();
    case CollectionField => NamesAreAliases(lower, upper, Culture);
    case DomainField => NamesAreAliases(lower, upper, Culture);
    case SourceField =>
    case ProgramField => ProgramInTable();
    case GroupField => NamesAreAliases(lower, upper, Experience);
  }

  /** Python's answer is decided by the value alone, edged or not. */
  lemma PythonAnswers(lower: CaseMap, upper: CaseMap, f: Field, w: char)
    requires CaseMaps(lower, upper) && IsWhite(w) && w != ' '
    ensures IsKeyword(LabelOf(f))
    ensures var v := Some([w] + LabelOf(f));
            Classify(RulesFor(lower, upper), CourseWith(f, v), GroupWith(f, v)) ==
              if f.ProgramField? || f.GroupField? then Experience else Culture
  {
    LabelIsWord(f);
    hide LabelOf, RulesFor, Strip, CourseRow.Btrim, WithoutBlanks, AliasOf, IsKeyword, Convert, AllBeginWell, Classify;
    var rules, v := RulesFor(lower, upper), Some([w] + LabelOf(f));
    EdgeTrims(w, LabelOf(f));
    NothingTrims();
    InTables(lower, upper, f);
    TablesBeginWell(lower, upper);
    NoEmptyAlias(lower, upper);
    PythonFinds(rules, CourseWith(f, v), GroupWith(f, v));
  }

  lemma LabelIsWord(f: Field)
    ensures IsKeyword(LabelOf(f))
  {
  }

  lemma CasesOfLabels(lower: CaseMap, upper: CaseMap)
    requires CaseMaps(lower, upper)
    ensures Convert("HOMEPLUS", upper) == "HOMEPLUS" && Convert("retail_culture", lower) == "retail_culture"
  {
    assert forall c :: c in "HOMEPLUS" ==> 'A' <= c <= 'Z';
    assert forall c :: c in "retail_culture" ==> 'a' <= c <= 'z' || c == '_';
    SameCase("HOMEPLUS", upper);
    SameCase("retail_culture", lower);
  }

  lemma {:induction false} SameCase(s: string, f: CaseMap)
    requires forall c :: c in s ==> f(c) == c
    ensures Convert(s, f) == s
  {
  }

  /**
    None of the six conditions of the agreement can be dropped: with the repository's tables, white space at the edge
    of the value of any one field, all others being trimmed alike, makes Python and SQL answer differently.
  */
  lemma NoTrimCanBeDropped(lower: CaseMap, upper: CaseMap, f: Field, w: char)
    requires CaseMaps(lower, upper) && IsWhite(w) && w != ' '
    ensures var v := Some([w] + LabelOf(f));
            && SameTrimsBut(f, CourseWith(f, v), GroupWith(f, v))
            && Classify(RulesFor(lower, upper), CourseWith(f, v), GroupWith(f, v)) !=
                 Resolve(RulesFor(lower, upper), CourseWith(f, v), GroupWith(f, v))
  {
    hide Classify, Resolve, LabelOf, RulesFor, IsKeyword;
    NothingTrims();
    PythonAnswers(lower, upper, f, w);
    TablesAreWellFormed(lower, upper);
    TablesBeginWell(lower, upper);
    UpperOf(lower, upper);
    SqlAnswers(RulesFor(lower, upper), f, w, LabelOf(f));
  }

  lemma UpperOf(lower: CaseMap, upper: CaseMap)
    ensures RulesFor(lower, upper).upper == upper
  {
  }
}
