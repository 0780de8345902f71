/**
  The SQL text arrays of the generated classifier, and a reader for them: string literals as in section 5.3 of
  ISO/IEC 9075-2, where a quote inside a literal is written twice and nothing else is special (PostgreSQL manual,
  section 4.1.2.1, with standard-conforming strings).
*/
module SqlText {
  import opened Prelude
  import opened Ordering

  /** value.replace("'", "''") */
  function DoubleQuotes(value: string): string {
    if value == "" then ""
    else if value[0] == '\'' then "''" + DoubleQuotes(value[1..])
    else [value[0]] + DoubleQuotes(value[1..])
  }

  /** _sql_literal */
  function Literal(value: string): string {
    "'" + DoubleQuotes(value) + "'"
  }

  /** ", ".join of the literals */
  function Literals(values: seq<string>): string {
    if values == [] then ""
    else if |values| == 1 then Literal(values[0])
    else Literal(values[0]) + ", " + Literals(values[1..])
  }

  /** _sql_text_array */
  function TextArray(values: seq<string>): string {
    "ARRAY[" + Literals(Sort(values, StringLe)) + "]::text[]"
  }

  // ---------- reading ----------

  datatype Token = Word(text: string) | Symbol(c: char) | Quoted(value: string)

  datatype Scanned = Unterminated | Scanned(value: string, rest: string)

  /** The rest of a literal whose opening quote has been read. */
  function Scan(s: string): (r: Scanned)
    ensures r.Scanned? ==> |r.rest| < |s|
  {
    if s == "" then Unterminated
    else if s[0] != '\'' then Prepend(s[0], Scan(s[1..]))
    else if |s| > 1 && s[1] == '\'' then Prepend('\'', Scan(s[2..]))
    else Scanned("", s[1..])
  }

  function Prepend(c: char, r: Scanned): Scanned {
    if r.Scanned? then Scanned([c] + r.value, r.rest) else r
  }

  predicate IsLetter(c: char) {
    'a' <= c <= 'z' || 'A' <= c <= 'Z'
  }

  function WordLength(s: string): (n: nat)
    ensures n <= |s|
  {
    if s != "" && IsLetter(s[0]) then 1 + WordLength(s[1..]) else 0
  }

  /** The tokens of a piece of SQL; None when a literal is not closed. */
  function Lex(s: string): Option<seq<Token>>
    decreases |s|
  {
    if s == "" then Some([])
    else if s[0] == ' ' then Lex(s[1..])
    else if s[0] == '\'' then
      var r := Scan(s[1..]);
      if r.Scanned? then After(Quoted(r.value), Lex(r.rest)) else None
    else if IsLetter(s[0]) then
      var n := WordLength(s);
      After(Word(s[..n]), Lex(s[n..]))
    else After(Symbol(s[0]), Lex(s[1..]))
  }

  function After(t: Token, rest: Option<seq<Token>>): Option<seq<Token>> {
    if rest.Some? then Some([t] + rest.value) else None
  }

  function QuotedTokens(values: seq<string>): seq<Token> {
    if values == [] then []
    else if |values| == 1 then [Quoted(values[0])]
    else [Quoted(values[0]), Symbol(',')] + QuotedTokens(values[1..])
  }

  const OPENING := [Word("ARRAY"), Symbol('[')]
  const CLOSING := [Symbol(']'), Symbol(':'), Symbol(':'), Word("text"), Symbol('['), Symbol(']')]

  lemma ScanOne(c: char, t: string)
    ensures c != '\'' ==> Scan([c] + t) == Prepend(c, Scan(t))
    ensures Scan("''" + t) == Prepend('\'', Scan(t))
    ensures t == "" || t[0] != '\'' ==> Scan("'" + t) == Scanned("", t)
  {
  }

  lemma DoubledOne(value: string, rest: string)
    requires value != ""
    ensures var t := DoubleQuotes(value[1..]) + rest;
            DoubleQuotes(value) + rest == (if value[0] == '\'' then "''" else [value[0]]) + t
  {
  }

  lemma {:induction false} ScanLiteral(value: string, rest: string)
    requires rest == "" || rest[0] != '\''
    ensures Scan(DoubleQuotes(value) + "'" + rest) == Scanned(value, rest)
    decreases |value|
  {
    assert DoubleQuotes(value) + "'" + rest == DoubleQuotes(value) + ("'" + rest);
    if value == "" {
      ScanOne('\'', rest);
      assert DoubleQuotes(value) + ("'" + rest) == "'" + rest;
    } else {
      hide Scan, DoubleQuotes;
      var t := DoubleQuotes(value[1..]) + ("'" + rest);
      ScanLiteral(value[1..], rest);
      assert DoubleQuotes(value[1..]) + "'" + rest == t;
      DoubledOne(value, "'" + rest);
      ScanOne(value[0], t);
      assert value == [value[0]] + value[1..];
    }
  }

  /** A literal is read back as its value, whatever quotes, commas and brackets it holds. */
  lemma LexLiteral(value: string, rest: string)
    requires rest == "" || rest[0] != '\''
    ensures Lex(Literal(value) + rest) == After(Quoted(value), Lex(rest))
  {
    hide Scan, DoubleQuotes, WordLength;
    var s := Literal(value) + rest;
    ScanLiteral(value, rest);
    assert s[1..] == DoubleQuotes(value) + "'" + rest;
  }

  lemma LexSymbol(c: char, rest: string)
    requires c != ' ' && c != '\'' && !IsLetter(c)
    ensures Lex([c] + rest) == After(Symbol(c), Lex(rest))
  {
  }

  lemma LexBlank(rest: string)
    ensures Lex(" " + rest) == Lex(rest)
  {
  }

  lemma {:induction false} WordEnds(word: string, rest: string)
    requires forall c :: c in word ==> IsLetter(c)
    requires rest == "" || !IsLetter(rest[0])
    ensures WordLength(word + rest) == |word|
  {
    if word != "" {
      assert (word + rest)[1..] == word[1..] + rest;
      WordEnds(word[1..], rest);
    } else {
      assert word + rest == rest;
    }
  }

  lemma LexWord(word: string, rest: string)
    requires word != "" && forall c :: c in word ==> IsLetter(c)
    requires rest == "" || !IsLetter(rest[0])
    ensures Lex(word + rest) == After(Word(word), Lex(rest))
  {
    WordEnds(word, rest);
    assert IsLetter((word + rest)[0]);
    assert (word + rest)[..|word|] == word && (word + rest)[|word|..] == rest;
  }

  lemma LexSeparated(value: string, more: string)
    ensures Lex(Literal(value) + ", " + more) == After(Quoted(value), After(Symbol(','), Lex(more)))
  {
    hide Lex, Literal;
    assert Literal(value) + ", " + more == Literal(value) + ([','] + (" " + more));
    LexLiteral(value, [','] + (" " + more));
    LexSymbol(',', " " + more);
    LexBlank(more);
  }

  lemma {:induction false} LexLiterals(values: seq<string>, rest: string, tokens: seq<Token>)
    requires Lex(rest) == Some(tokens) && (rest == "" || rest[0] != '\'')
    ensures Lex(Literals(values) + rest) == Some(QuotedTokens(values) + tokens)
    decreases |values|
  {
    hide Lex, Literal;
    if values == [] {
      assert Literals(values) + rest == rest;
      assert QuotedTokens(values) + tokens == tokens;
    } else if |values| == 1 {
      LexLiteral(values[0], rest);
    } else {
      var more := Literals(values[1..]) + rest;
      LexLiterals(values[1..], rest, tokens);
      assert Literals(values) + rest == Literal(values[0]) + ", " + more;
      LexSeparated(values[0], more);
      TokensAhead(values, tokens);
    }
  }

  lemma TokensAhead(values: seq<string>, tokens: seq<Token>)
    requires |values| > 1
    ensures QuotedTokens(values) + tokens ==
      [Quoted(values[0])] + ([Symbol(',')] + (QuotedTokens(values[1..]) + tokens))
  {
  }

  lemma LexType()
    ensures Lex("text[]") == Some([Word("text"), Symbol('['), Symbol(']')])
  {
    assert Lex("") == Some([]);
    hide Lex, WordLength;
    LexSymbol(']', "");
    LexSymbol('[', "]");
    assert [']'] + "" == "]" && ['['] + "]" == "[]" && "text" + "[]" == "text[]";
    LexWord("text", "[]");
    assert [Symbol('[')] + ([Symbol(']')] + []) == [Symbol('['), Symbol(']')];
    assert [Word("text")] + [Symbol('['), Symbol(']')] == [Word("text"), Symbol('['), Symbol(']')];
  }

  lemma LexClosing()
    ensures Lex("]::text[]") == Some(CLOSING)
  {
    LexType();
    hide Lex, WordLength;
    LexSymbol(':', "text[]");
    LexSymbol(':', ":text[]");
    LexSymbol(']', "::text[]");
    assert [':'] + "text[]" == ":text[]" && [':'] + ":text[]" == "::text[]" && [']'] + "::text[]" == "]::text[]";
    assert CLOSING == [Symbol(']')] + ([Symbol(':')] + ([Symbol(':')] + [Word("text"), Symbol('['), Symbol(']')]));
  }

  /** Reading the generated array gives exactly the sorted values, each as it was. */
  lemma ArrayReadsBack(values: seq<string>)
    ensures Lex(TextArray(values)) == Some(OPENING + QuotedTokens(Sort(values, StringLe)) + CLOSING)
  {
    hide Lex, Literals, Sort, QuotedTokens;
    var sorted := Sort(values, StringLe);
    var body := Literals(sorted) + "]::text[]";
    LexClosing();
    LexLiterals(sorted, "]::text[]", CLOSING);
    LexSymbol('[', body);
    LexWord("ARRAY", ['['] + body);
    assert TextArray(values) == "ARRAY" + (['['] + body);
    assert OPENING + QuotedTokens(sorted) + CLOSING ==
      [Word("ARRAY")] + ([Symbol('[')] + (QuotedTokens(sorted) + CLOSING));
  }

  function QuotedValues(tokens: seq<Token>): seq<string> {
    if tokens == [] then []
    else if tokens[0].Quoted? then [tokens[0].value] + QuotedValues(tokens[1..])
    else QuotedValues(tokens[1..])
  }

  lemma {:induction false} ValuesOfTokens(values: seq<string>, more: seq<Token>)
    ensures QuotedValues(QuotedTokens(values) + more) == values + QuotedValues(more)
  {
    var s := QuotedTokens(values) + more;
    if values == [] {
      assert s == more;
    } else if |values| == 1 {
      assert s[1..] == more;
    } else {
      ValuesOfTokens(values[1..], more);
      assert s[2..] == QuotedTokens(values[1..]) + more && s[1..][1..] == s[2..];
      assert values == [values[0]] + values[1..];
    }
  }

  /** The text of an array determines its values, up to their order. */
  lemma ArrayIsInjective(a: seq<string>, b: seq<string>)
    ensures TextArray(a) == TextArray(b) <==> multiset(a) == multiset(b)
  {
    if TextArray(a) == TextArray(b) {
      ArrayReadsBack(a);
      ArrayReadsBack(b);
      ArrayValues(a);
      ArrayValues(b);
      SortPermutes(a, StringLe);
      SortPermutes(b, StringLe);
    }
    if multiset(a) == multiset(b) { SortIsCanonical(a, b); }
  }

  lemma ArrayValues(values: seq<string>)
    ensures QuotedValues(OPENING + QuotedTokens(Sort(values, StringLe)) + CLOSING) == Sort(values, StringLe)
  {
    var sorted := Sort(values, StringLe);
    var s := OPENING + QuotedTokens(sorted) + CLOSING;
    ValuesOfTokens(sorted, CLOSING);
    assert s[1..][1..] == QuotedTokens(sorted) + CLOSING;
    assert QuotedValues(CLOSING) == [];
  }

  /** The order in which a set of values is iterated makes no difference to what is generated. */
  lemma SortIsCanonical(a: seq<string>, b: seq<string>)
    requires multiset(a) == multiset(b)
    ensures Sort(a, StringLe) == Sort(b, StringLe)
  {
    StringOrder();
    SortPermutes(a, StringLe);
    SortPermutes(b, StringLe);
    SortSorts(a, StringLe);
    SortSorts(b, StringLe);
    SortedIsUnique(Sort(a, StringLe), Sort(b, StringLe));
  }

  lemma SameHead(a: seq<string>, b: seq<string>)
    requires multiset(a) == multiset(b) && IsSorted(a, StringLe) && IsSorted(b, StringLe) && a != []
    ensures b != [] && a[0] == b[0]
  {
    hide StringLe;
    assert a[0] in multiset(b);
    var i :| 0 <= i < |b| && b[i] == a[0];
    assert b[0] in multiset(a);
    var j :| 0 <= j < |a| && a[j] == b[0];
    StringLeTotal(a[0], b[0]);
    StringLeTotal(a[0], a[0]);
  }

  lemma TailBag(a: seq<string>)
    requires a != []
    ensures multiset(a[1..]) == multiset(a) - multiset{a[0]}
  {
    assert a == [a[0]] + a[1..];
  }

  lemma {:induction false} SortedIsUnique(a: seq<string>, b: seq<string>)
    requires multiset(a) == multiset(b) && IsSorted(a, StringLe) && IsSorted(b, StringLe)
    ensures a == b
    decreases |a|
  {
    hide StringLe;
    if a != [] {
      SameHead(a, b);
      TailBag(a);
      TailBag(b);
      SortedIsUnique(a[1..], b[1..]);
      assert a == [a[0]] + a[1..] && b == [b[0]] + b[1..];
    } else {
      assert |multiset(b)| == 0;
    }
  }
}
