/** The rule tables of service_group.py, and what the classifier needs of them. */
module ServiceGroupRules {
  import opened Prelude
  import opened KeywordText
  import opened ServiceGroup
  import CourseRow

  const CULTURE_CENTER_PROVIDERS := {
    "HOMEPLUS", "LOTTE", "EMART", "HYUNDAI_DEPT", "GALLERIA", "AK_PLAZA", "ELAND_RETAIL",
    "SHINSEGAE_ACADEMY", "LOTTE_MART"
  }

  const EXPERIENCE_SOURCE_GROUPS := {
    "museum_science", "science_museum", "museum", "arts_culture", "national_institution"
  }

  const EXPERIENCE_PROGRAM_TYPES := {
    "체험", "견학", "탐방", "관람", "전시", "공연", "캠프"
  }

  const PUBLIC_COURSE_SOURCE_GROUPS := {
    "public_reservation", "municipal_reservation", "lifelong_learning",
    "municipal_lifelong_learning", "education_office_reservation", "sports_reservation", "library"
  }

  const EXPERIENCE_KEYWORDS := {
    "체험", "교육체험", "교육·체험", "체험·견학", "체험/견학", "체험행사", "견학", "탐방", "박물관", "과학관", "미술관", "문화재단",
    "예술/공연", "예술공연", "전시", "공연", "문화행사", "관람", "수목원", "생태"
  }

  const EXPERIENCE_CONTENT_KEYWORDS := {
    "체험", "교육체험", "교육·체험", "체험·견학", "체험/견학", "체험행사", "견학", "탐방", "전시", "공연", "문화행사", "관람"
  }

  const EXPERIENCE_URL_TOKENS := {
    "/experience", "/exprn", "/exp/"
  }

  const PUBLIC_COURSE_KEYWORDS := {
    "시청", "구청", "군청", "주민센터", "주민자치", "행정복지센터", "평생학습", "평생교육", "공공예약", "공공강좌", "통합예약", "도서관",
    "복지관", "노인복지관", "사회복지관", "체육문화회관", "체육"
  }

  function Name(g: Group): string {
    match g
    case Culture => "문화센터"
    case Experience => "체험"
    case Public => "공공강좌"
    case Other => "기타"
  }

  function Aliases(g: Group): set<string> {
    match g
    case Culture => {"문화센터"}
    case Experience => {"체험", "경험", "교육체험", "체험행사", "체험견학"}
    case Public => {"공공강좌", "교육", "공공교육", "공공강의"}
    case Other => {"기타"}
  }

  function RulesFor(lower: CaseMap, upper: CaseMap): Rules {
    Rules(Name, Aliases, CULTURE_CENTER_PROVIDERS, EXPERIENCE_SOURCE_GROUPS, {"deprecated"}, {"제외"},
          EXPERIENCE_PROGRAM_TYPES, {"숙박", "대관"}, PUBLIC_COURSE_SOURCE_GROUPS,
          EXPERIENCE_KEYWORDS, EXPERIENCE_CONTENT_KEYWORDS, EXPERIENCE_URL_TOKENS, PUBLIC_COURSE_KEYWORDS,
          lower, upper)
  }

  /** Hangul, printable ASCII or a middle dot, in all places. */
  predicate IsPlain(s: string) {
    s == "" || (('!' <= s[0] <= '~' || '가' <= s[0] <= '힣' || s[0] == '·') && IsPlain(s[1..]))
  }

  lemma {:induction false} PlainIsKeyword(s: string)
    requires s != "" && IsPlain(s)
    ensures IsKeyword(s)
  {
    if |s| > 1 { PlainIsKeyword(s[1..]); }
  }

  lemma ExperienceTable()
    ensures AreKeywords(EXPERIENCE_KEYWORDS)
  {
    hide IsWhite, IsKeyword;
    forall k | k in EXPERIENCE_KEYWORDS ensures IsKeyword(k) { PlainIsKeyword(k); }
  }

  lemma ContentTable()
    ensures AreKeywords(EXPERIENCE_CONTENT_KEYWORDS)
  {
  }

  lemma UrlTable()
    ensures AreKeywords(EXPERIENCE_URL_TOKENS)
  {
  }

  lemma PublicTable()
    ensures AreKeywords(PUBLIC_COURSE_KEYWORDS)
  {
    hide IsWhite, IsKeyword;
    forall k | k in PUBLIC_COURSE_KEYWORDS ensures IsKeyword(k) { PlainIsKeyword(k); }
  }

  /** A label without white space is its own compact form. */
  lemma {:induction false} PlainLabel(s: string)
    requires forall c :: c in s ==> !IsWhite(c)
    ensures WithoutBlanks(s) == s && Strip(s) == s && CourseRow.Btrim(s) == s
  {
    if s != "" {
      assert s[0] in s && s[|s| - 1] in s;
      PlainLabel(s[1..]);
      assert s == [s[0]] + s[1..];
    }
  }

  lemma NamesAreAliases(lower: CaseMap, upper: CaseMap, g: Group)
    ensures AliasOf(RulesFor(lower, upper), Name(g)) == Some(g)
  {
  }

  lemma NamesArePlain(g: Group)
    ensures IsKeyword(Name(g))
  {
  }

  predicate IsLowerPath(s: string) {
    s == "" || (('a' <= s[0] <= 'z' || s[0] == '/') && IsLowerPath(s[1..]))
  }

  lemma {:induction false} StaysLower(s: string, lower: CaseMap)
    requires IsLowerPath(s) && forall c :: 'a' <= c <= 'z' || c == '/' ==> lower(c) == c
    ensures Convert(s, lower) == s
  {
    if s != "" { StaysLower(s[1..], lower); }
  }

  lemma TokensStay(lower: CaseMap)
    requires forall c :: 'a' <= c <= 'z' || c == '/' ==> lower(c) == c
    ensures forall token :: token in EXPERIENCE_URL_TOKENS ==> Convert(token, lower) == token
  {
    hide Convert;
    forall token | token in EXPERIENCE_URL_TOKENS ensures Convert(token, lower) == token {
      StaysLower(token, lower);
    }
  }

  /** The repository's tables meet what the classifier needs, for any case mapping that does. */
  lemma TablesAreWellFormed(lower: CaseMap, upper: CaseMap)
    requires LowerCases(lower)
    requires forall c :: 'a' <= c <= 'z' || c == '/' ==> lower(c) == c
    ensures WellFormed(RulesFor(lower, upper))
  {
    hide LowerCases, AreKeywords, Convert, WithoutBlanks, AliasOf, Clean, Strip, CourseRow.Btrim;
    ExperienceTable();
    ContentTable();
    PublicTable();
    UrlTable();
    TokensStay(lower);
    forall g
      ensures Normalize(RulesFor(lower, upper), Some(Name(g))) == Some(g)
      ensures AliasOf(RulesFor(lower, upper), WithoutBlanks(Trim(Some(Name(g))))) == Some(g)
    {
      NameIsLabel(lower, upper, g);
    }
    NoEmptyAlias(lower, upper);
  }

  lemma NameIsLabel(lower: CaseMap, upper: CaseMap, g: Group)
    ensures Normalize(RulesFor(lower, upper), Some(Name(g))) == Some(g)
    ensures AliasOf(RulesFor(lower, upper), WithoutBlanks(Trim(Some(Name(g))))) == Some(g)
  {
    NamesArePlain(g);
    NamesAreAliases(lower, upper, g);
    hide Name, AliasOf;
    PlainLabel(Name(g));
  }

  lemma NoEmptyAlias(lower: CaseMap, upper: CaseMap)
    ensures AliasOf(RulesFor(lower, upper), "") == None
  {
  }

  /** With these tables there is a course on which the two classifiers disagree. */
  lemma LodgingCalledPublic(lower: CaseMap, upper: CaseMap)
    requires LowerCases(lower)
    requires forall c :: 'a' <= c <= 'z' || c == '/' ==> lower(c) == c
    ensures var c := NOTHING.(program := Some("숙박"));
            && Classify(RulesFor(lower, upper), c, Some(Name(Public))) == Public
            && Resolve(RulesFor(lower, upper), c, Some(Name(Public))) == Other
  {
    hide LowerCases, IsKeyword, AreKeywords, Convert, WithoutBlanks, AliasOf, Strip, CourseRow.Btrim;
    hide WellFormed, Classify, Resolve, Name, RulesFor;
    var rules, c := RulesFor(lower, upper), NOTHING.(program := Some("숙박"));
    TablesAreWellFormed(lower, upper);
    LodgingTrims(lower, upper);
    PythonAgreesWithSql(rules, c, Some(Name(Public)));
  }

  lemma LodgingTrims(lower: CaseMap, upper: CaseMap)
    ensures var c := NOTHING.(program := Some("숙박"));
            SameTrims(c, Some(Name(Public))) && Disagree(RulesFor(lower, upper), c, Some(Name(Public)))
  {
    PlainIsKeyword("숙박");
    PlainLabel("숙박");
    NamesArePlain(Public);
    PlainLabel(Name(Public));
    NameIsLabel(lower, upper, Public);
    NoEmptyAlias(lower, upper);
    hide Name, AliasOf;
    assert Clean(None) == "" && Convert("", lower) == "" && Convert("", upper) == "" && WithoutBlanks("") == "";
  }
}
