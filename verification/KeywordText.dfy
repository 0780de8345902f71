/**
  Text as the two classifiers see it. Python strips every kind of white space and joins the non-empty values; SQL
  trims blanks only and joins the values that are not NULL. A keyword without white space cannot tell.
*/
module KeywordText {
  import opened Prelude

  /** The characters that str.strip() removes. */
  predicate IsWhite(c: char) {
    || '\U{9}' <= c <= '\U{D}' || '\U{1C}' <= c <= '\U{20}' || c == '\U{85}' || c == '\U{A0}' || c == '\U{1680}'
    || '\U{2000}' <= c <= '\U{200A}' || c == '\U{2028}' || c == '\U{2029}' || c == '\U{202F}' || c == '\U{205F}'
    || c == '\U{3000}'
  }

  function Strip(s: string): string {
    if s == "" then ""
    else if IsWhite(s[0]) then Strip(s[1..])
    else if IsWhite(s[|s| - 1]) then Strip(s[..|s| - 1])
    else s
  }

  /** A character-wise case mapping, such as the ones both languages apply. */
  type CaseMap = char -> char

  function Convert(s: string, f: CaseMap): (r: string)
    ensures |r| == |s| && forall i :: 0 <= i < |s| ==> r[i] == f(s[i])
  {
    if s == "" then "" else [f(s[0])] + Convert(s[1..], f)
  }

  /** Lower-casing twice is lower-casing once, and it neither makes nor removes white space. */
  ghost predicate LowerCases(f: CaseMap) {
    && (forall c :: f(f(c)) == f(c))
    && (forall c :: IsWhite(f(c)) == IsWhite(c))
    && (forall c :: f(c) == ' ' <==> c == ' ')
  }

  predicate OccursAt(s: string, k: string, i: int) {
    0 <= i <= |s| - |k| && s[i..i + |k|] == k
  }

  predicate Contains(s: string, k: string) {
    exists i: nat | i <= |s| :: OccursAt(s, k, i)
  }

  predicate ContainsAny(s: string, keywords: set<string>, f: CaseMap) {
    exists k :: k in keywords && Contains(s, Convert(k, f))
  }

  /** " ".join */
  function Join(parts: seq<string>): string {
    if parts == [] then ""
    else if |parts| == 1 then parts[0]
    else parts[0] + " " + Join(parts[1..])
  }

  function Clean(v: Option<string>): string {
    if v.Some? then Strip(v.value) else ""
  }

  /** The values that _source_text joins. */
  function StrippedParts(values: seq<Option<string>>): seq<string> {
    if values == [] then []
    else if Clean(values[0]) != "" then [Clean(values[0])] + StrippedParts(values[1..])
    else StrippedParts(values[1..])
  }

  /** The values that concat_ws joins. */
  function NonNullParts(values: seq<Option<string>>): seq<string> {
    if values == [] then []
    else if values[0].Some? then [values[0].value] + NonNullParts(values[1..])
    else NonNullParts(values[1..])
  }

  /** _source_text */
  function SourceText(values: seq<Option<string>>, f: CaseMap): string {
    Convert(Join(StrippedParts(values)), f)
  }

  /** lower(concat_ws(' ', ...)), lowered once more by mooncen_text_contains_any */
  function ConcatText(values: seq<Option<string>>, f: CaseMap): string {
    Convert(Convert(Join(NonNullParts(values)), f), f)
  }

  /** A keyword as it is matched: not empty and free of white space. */
  predicate IsKeyword(k: string) {
    k != "" && forall c :: c in k ==> !IsWhite(c)
  }

  predicate SomeFieldContains(values: seq<Option<string>>, k: string, f: CaseMap) {
    exists v :: v in values && v.Some? && Contains(Convert(v.value, f), k)
  }

  lemma ConvertTwice(s: string, f: CaseMap)
    requires LowerCases(f)
    ensures Convert(Convert(s, f), f) == Convert(s, f)
  {
  }

  lemma ConvertedKeyword(k: string, f: CaseMap)
    requires LowerCases(f) && IsKeyword(k)
    ensures IsKeyword(Convert(k, f))
  {
  }

  /** An occurrence in a stretch of the text. */
  lemma OccursInside(s: string, from: nat, to: nat, k: string, i: int)
    requires from <= to <= |s|
    ensures OccursAt(s[from..to], k, i) <==> from <= i + from <= to - |k| && OccursAt(s, k, i + from)
  {
    if from <= i + from <= to - |k| {
      var at := i + from;
      var x, y := s[from..to][i..i + |k|], s[at..at + |k|];
      assert forall j :: 0 <= j < |k| ==> x[j] == y[j];
    }
  }

  /** No occurrence of a keyword covers white space. */
  lemma OccursBesideWhite(s: string, k: string, i: int, at: nat)
    requires IsKeyword(k) && at < |s| && IsWhite(s[at]) && OccursAt(s, k, i)
    ensures at < i || i + |k| <= at
  {
  }

  /** White space ends every occurrence of a keyword. */
  lemma ContainsAroundWhite(s: string, at: nat, k: string)
    requires IsKeyword(k) && at < |s| && IsWhite(s[at])
    ensures Contains(s, k) <==> Contains(s[..at], k) || Contains(s[at + 1..], k)
  {
    assert s[..at] == s[0..at] && s[at + 1..] == s[at + 1..|s|];
    if Contains(s, k) {
      var i: nat :| i <= |s| && OccursAt(s, k, i);
      OccursBesideWhite(s, k, i, at);
      OccursInside(s, 0, at, k, i);
      OccursInside(s, at + 1, |s|, k, i - at - 1);
    }
    if Contains(s[..at], k) {
      var i: nat :| i <= |s[..at]| && OccursAt(s[..at], k, i);
      OccursInside(s, 0, at, k, i);
    }
    if Contains(s[at + 1..], k) {
      var i: nat :| i <= |s[at + 1..]| && OccursAt(s[at + 1..], k, i);
      OccursInside(s, at + 1, |s|, k, i);
      assert OccursAt(s, k, i + at + 1);
    }
  }

  /** Stripping cannot remove a keyword. */
  lemma {:induction false} ContainsStripped(s: string, k: string)
    requires IsKeyword(k)
    ensures Contains(Strip(s), k) <==> Contains(s, k)
    decreases |s|
  {
    if s != "" {
      if IsWhite(s[0]) {
        ContainsStripped(s[1..], k);
        ContainsAroundWhite(s, 0, k);
      } else if IsWhite(s[|s| - 1]) {
        ContainsStripped(s[..|s| - 1], k);
        ContainsAroundWhite(s, |s| - 1, k);
      }
    }
  }

  lemma {:induction false} ConvertStripped(s: string, f: CaseMap)
    requires LowerCases(f)
    ensures Convert(Strip(s), f) == Strip(Convert(s, f))
    decreases |s|
  {
    if s != "" {
      var t := Convert(s, f);
      assert t[1..] == Convert(s[1..], f);
      assert t[..|t| - 1] == Convert(s[..|s| - 1], f);
      if IsWhite(s[0]) { ConvertStripped(s[1..], f); }
      else if IsWhite(s[|s| - 1]) { ConvertStripped(s[..|s| - 1], f); }
    }
  }

  predicate AnyContains(parts: seq<string>, k: string, f: CaseMap) {
    parts != [] && (Contains(Convert(parts[0], f), k) || AnyContains(parts[1..], k, f))
  }

  lemma {:induction false} JoinContains(parts: seq<string>, k: string, f: CaseMap)
    requires LowerCases(f) && IsKeyword(k)
    ensures Contains(Convert(Join(parts), f), k) <==> AnyContains(parts, k, f)
  {
    if |parts| > 1 {
      JoinContains(parts[1..], k, f);
      var rest := Join(parts[1..]);
      var s := Convert(Join(parts), f);
      var n := |parts[0]|;
      assert s[..n] == Convert(parts[0], f) && s[n + 1..] == Convert(rest, f);
      ContainsAroundWhite(s, n, k);
    }
  }

  lemma {:induction false} PartsContain(values: seq<Option<string>>, k: string, f: CaseMap)
    requires LowerCases(f) && IsKeyword(k)
    ensures AnyContains(StrippedParts(values), k, f) <==> SomeFieldContains(values, k, f)
    ensures AnyContains(NonNullParts(values), k, f) <==> SomeFieldContains(values, k, f)
  {
    if values != [] {
      PartsContain(values[1..], k, f);
      var v := values[0];
      assert SomeFieldContains(values, k, f) <==>
        (v.Some? && Contains(Convert(v.value, f), k)) || SomeFieldContains(values[1..], k, f) by {
        assert forall x :: x in values <==> x == v || x in values[1..];
      }
      if v.Some? {
        ConvertStripped(v.value, f);
        ContainsStripped(Convert(v.value, f), k);
      }
    }
  }

  /** A keyword is in either joined text exactly when it is in one of the fields. */
  lemma KeywordIsInOneField(values: seq<Option<string>>, k: string, f: CaseMap)
    requires LowerCases(f) && IsKeyword(k)
    ensures Contains(SourceText(values, f), Convert(k, f)) <==> SomeFieldContains(values, Convert(k, f), f)
    ensures Contains(ConcatText(values, f), Convert(k, f)) <==> SomeFieldContains(values, Convert(k, f), f)
  {
    ConvertedKeyword(k, f);
    PartsContain(values, Convert(k, f), f);
    JoinContains(StrippedParts(values), Convert(k, f), f);
    JoinContains(NonNullParts(values), Convert(k, f), f);
    ConvertTwice(Join(NonNullParts(values)), f);
  }

  predicate AreKeywords(keywords: set<string>) {
    forall k :: k in keywords ==> IsKeyword(k)
  }

  lemma TextsAgree(values: seq<Option<string>>, keywords: set<string>, f: CaseMap)
    requires LowerCases(f) && AreKeywords(keywords)
    ensures ContainsAny(SourceText(values, f), keywords, f) <==> ContainsAny(ConcatText(values, f), keywords, f)
  {
    forall k | k in keywords
      ensures Contains(SourceText(values, f), Convert(k, f)) <==> Contains(ConcatText(values, f), Convert(k, f))
    {
      KeywordIsInOneField(values, k, f);
    }
  }
}
