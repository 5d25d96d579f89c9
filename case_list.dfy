/**
 * The case list's search box: the cases whose identifier or number contains
 * the trimmed, lowercased search text, in their original order.
 */
module CaseList {
  import opened Common
  import opened Strings
  import opened ClientCases

  /** The text a search is matched against: the identifier and the number, joined by a space. */
  function Haystack(c: CaseRecord): (haystack: string)
    ensures haystack == Lower(c.identifier) + " " + IntToDecimal(c.id)
  {
    LowerAppend(c.identifier + " ", IntToDecimal(c.id));
    LowerAppend(c.identifier, " ");
    LowerOfDecimal(c.id);
    assert [c.identifier, IntToDecimal(c.id)][1..] == [IntToDecimal(c.id)];
    assert Join([c.identifier, IntToDecimal(c.id)], ' ') == c.identifier + " " + IntToDecimal(c.id);
    assert Lower(" ") == " ";
    Lower(Join([c.identifier, IntToDecimal(c.id)], ' '))
  }

  function SearchQuery(searchValue: string): string {
    Lower(Trim(searchValue))
  }

  predicate Matches(c: CaseRecord, query: string) {
    Includes(Haystack(c), query)
  }

  function MatchesQuery(query: string): CaseRecord -> bool {
    c => Matches(c, query)
  }

  /** The empty query is contained in every haystack, so it keeps the whole list. */
  lemma EmptyQueryKeepsAll(cases: seq<CaseRecord>)
    ensures Filter(cases, MatchesQuery([])) == cases
  {
    forall i | 0 <= i < |cases| ensures MatchesQuery([])(cases[i]) {
      assert StartsWith(Haystack(cases[i]), []);
    }
    FilterKeepsAll(cases, MatchesQuery([]));
  }

  /** `filteredCases`: the whole list for an empty query, otherwise the matching cases in order. */
  function FilterCases(cases: seq<CaseRecord>, searchValue: string): (filtered: seq<CaseRecord>)
    ensures SearchQuery(searchValue) == [] ==> filtered == cases
    ensures IsSubsequence(filtered, cases)
    ensures filtered == Filter(cases, MatchesQuery(SearchQuery(searchValue)))
  {
    var query := SearchQuery(searchValue);
    if query == [] then
      EmptyQueryKeepsAll(cases);
      FilterIsSubsequence(cases, MatchesQuery(query));
      cases
    else
      FilterIsSubsequence(cases, MatchesQuery(query));
      Filter(cases, MatchesQuery(query))
  }

  /** A case is listed exactly when it is in the list and its haystack contains the query. */
  lemma FilterCasesMembership(cases: seq<CaseRecord>, searchValue: string, c: CaseRecord)
    ensures c in FilterCases(cases, searchValue) <==> c in cases && Matches(c, SearchQuery(searchValue))
  {
    var keep := MatchesQuery(SearchQuery(searchValue));
    var filtered := FilterCases(cases, searchValue);
    if c in filtered {
      var i :| 0 <= i < |filtered| && filtered[i] == c;
    }
    if c in cases && Matches(c, SearchQuery(searchValue)) {
      var i :| 0 <= i < |cases| && cases[i] == c;
      assert keep(cases[i]);
    }
  }

  /** Searching again with the same text keeps every result. */
  lemma FilterCasesIdempotent(cases: seq<CaseRecord>, searchValue: string)
    ensures FilterCases(FilterCases(cases, searchValue), searchValue) == FilterCases(cases, searchValue)
  {
    var query := SearchQuery(searchValue);
    if query != [] {
      FilterIdempotent(cases, MatchesQuery(query));
    }
  }

  /** Typing a case's number, with or without spaces around it, always finds that case. */
  lemma ExactIdKept(cases: seq<CaseRecord>, searchValue: string, i: nat)
    requires i < |cases| && Trim(searchValue) == IntToDecimal(cases[i].id)
    ensures cases[i] in FilterCases(cases, searchValue)
  {
    var c := cases[i];
    LowerOfDecimal(c.id);
    assert SearchQuery(searchValue) == IntToDecimal(c.id);
    IncludesSuffix(Lower(c.identifier) + " ", IntToDecimal(c.id));
    assert Haystack(c) == Lower(c.identifier) + " " + IntToDecimal(c.id);
  }

  /** Letter case and surrounding whitespace in the search text do not change the result. */
  lemma SearchIgnoresCaseAndPadding(cases: seq<CaseRecord>, w1: string, s: string, w2: string, t: string)
    requires AllWhitespace(w1) && AllWhitespace(w2) && Lower(t) == Lower(s)
    ensures FilterCases(cases, w1 + s + w2) == FilterCases(cases, s)
    ensures FilterCases(cases, t) == FilterCases(cases, s)
  {
    TrimIgnoresPadding(w1, s, w2);
    TrimLower(t);
    TrimLower(s);
    assert SearchQuery(t) == SearchQuery(s);
  }
}
