/**
  The data logic of the history page (frontend/src/components/HistoryPage.tsx): reading
  array fields that may arrive as JSON text, the search filter, the five-per-page
  pagination, the page kept after a deletion, and the confidence colour.
*/
module HistoryPage {
  import opened Common
  import opened Text
  import opened JsonValues
  import opened Paging
  import opened AnalysisContext

  /** `itemsPerPage`. */
  const ItemsPerPage: nat := 5

  // ----- parseArrayField -----

  /**
    `parseArrayField(field)`: an array is returned as it is, a string is handed to
    `JSON.parse` (`parse`) and whatever it yields is returned, a string it refuses
    gives `[]`, and any other value gives `[]`.
  */
  function ParseArrayField(field: Json, parse: string -> Result<Json, string>): (r: Json)
    ensures field.JArr? ==> r == field
    ensures field.JStr? && parse(field.s).Err? ==> r == JArr([])
    ensures field.JStr? && parse(field.s).Ok? ==> r == parse(field.s).value
    ensures !field.JArr? && !field.JStr? ==> r == JArr([])
  {
    match field
    case JArr(_) => field
    case JStr(s) => (match parse(s) case Ok(v) => v case Err(_) => JArr([]))
    case _ => JArr([])
  }

  /**
    The field yields an array unless it is a string whose text parses to something that
    is not an array (the source does not check what `JSON.parse` returned).
  */
  lemma ParseArrayFieldIsArrayUnlessParsedOtherwise(field: Json, parse: string -> Result<Json, string>)
    ensures ParseArrayField(field, parse).JArr? <==>
      !(field.JStr? && parse(field.s).Ok? && !parse(field.s).value.JArr?)
  {
  }

  // ----- filteredAnalyses -----

  /** `value?.toLowerCase().includes(term)`: false for a missing field. */
  predicate FieldContains(value: Option<string>, term: string)
  {
    value.Some? && Contains(Lower(value.value), term)
  }

  /** The test of the search filter, for an already lower-cased term. */
  predicate Matches(a: ClientAnalysis, term: string)
  {
    FieldContains(a.documentName, term) || FieldContains(a.summary, term) || FieldContains(a.shortSummary, term)
  }

  function MatchesTerm(term: string): ClientAnalysis -> bool
  {
    (a: ClientAnalysis) => Matches(a, term)
  }

  /**
    `filteredAnalyses`: all analyses for a blank search term; otherwise those whose name,
    summary or short summary contains the lower-cased term. The term is only trimmed
    for the blank test: the lower-cased term keeps its surrounding spaces.
  */
  function Filtered(analyses: seq<ClientAnalysis>, searchTerm: string): seq<ClientAnalysis>
  {
    if Trim(JavaScript, searchTerm) == [] then analyses
    else Filter(analyses, MatchesTerm(Lower(searchTerm)))
  }

  /** A blank term shows every analysis in its order. */
  lemma BlankSearchShowsAll(analyses: seq<ClientAnalysis>, searchTerm: string)
    requires AllSpace(JavaScript, searchTerm)
    ensures Filtered(analyses, searchTerm) == analyses
  {
    TrimEmptyIffAllSpace(JavaScript, searchTerm);
  }

  /**
    Any other term shows exactly the matching analyses, in their order: every shown
    analysis matches, every matching analysis is shown.
  */
  lemma SearchShowsExactlyMatches(analyses: seq<ClientAnalysis>, searchTerm: string)
    requires !AllSpace(JavaScript, searchTerm)
    ensures var f := Filtered(analyses, searchTerm);
      && IsSubsequence(f, analyses)
      && (forall i :: 0 <= i < |f| ==> Matches(f[i], Lower(searchTerm)))
      && (forall i :: 0 <= i < |analyses| && Matches(analyses[i], Lower(searchTerm)) ==> analyses[i] in f)
  {
    TrimEmptyIffAllSpace(JavaScript, searchTerm);
    var keep := MatchesTerm(Lower(searchTerm));
    var f := Filtered(analyses, searchTerm);
    assert f == Filter(analyses, keep);
    FilterIsSubsequence(analyses, keep);
    forall i | 0 <= i < |f| ensures Matches(f[i], Lower(searchTerm)) {
      assert keep(f[i]);
    }
    forall i | 0 <= i < |analyses| && Matches(analyses[i], Lower(searchTerm)) ensures analyses[i] in f {
      assert keep(analyses[i]);
    }
  }

  /** Lower-casing is the identity on an already lower-cased text. */
  lemma LowerIdempotent(s: string)
    ensures Lower(Lower(s)) == Lower(s)
  {
    forall i | 0 <= i < |s| ensures Lower(Lower(s))[i] == Lower(s)[i] {
      var c := s[i];
      if 'A' <= c <= 'Z' || ('\U{C0}' <= c <= '\U{DE}' && c != '\U{D7}') {
        assert 'a' <= LowerChar(c) <= 'z' || ('\U{E0}' <= LowerChar(c) <= '\U{FE}');
      }
    }
  }

  /** The search is case-insensitive in its term: a term and its lower-cased form show the same analyses. */
  lemma SearchIgnoresTermCase(analyses: seq<ClientAnalysis>, searchTerm: string)
    ensures Filtered(analyses, Lower(searchTerm)) == Filtered(analyses, searchTerm)
  {
    LowerIdempotent(searchTerm);
    LowerKeepsBlank(searchTerm);
  }

  /** Lower-casing maps spaces to spaces and other characters to other characters. */
  lemma LowerCharKeepsSpace(c: char)
    ensures JsSpace(LowerChar(c)) <==> JsSpace(c)
  {
  }

  /** A term is blank exactly when its lower-cased form is. */
  lemma LowerKeepsBlank(s: string)
    ensures Trim(JavaScript, Lower(s)) == [] <==> Trim(JavaScript, s) == []
  {
    TrimEmptyIffAllSpace(JavaScript, s);
    TrimEmptyIffAllSpace(JavaScript, Lower(s));
    var l := Lower(s);
    forall i | 0 <= i < |s| ensures JsSpace(l[i]) <==> JsSpace(s[i]) {
      LowerCharKeepsSpace(s[i]);
    }
    assert AllSpace(JavaScript, l) <==> AllSpace(JavaScript, s);
  }

  // ----- paginatedAnalyses and totalPages -----

  /** `paginatedAnalyses`: the slice `[(page - 1) * 5, page * 5)` of the filtered list. */
  function PageItems(filtered: seq<ClientAnalysis>, currentPage: nat): seq<ClientAnalysis>
    requires currentPage >= 1
  {
    PageOf(filtered, currentPage, ItemsPerPage)
  }

  /** `totalPages = Math.ceil(filteredAnalyses.length / itemsPerPage)`. */
  function TotalPages(filtered: seq<ClientAnalysis>): nat
  {
    CeilDiv(|filtered|, ItemsPerPage)
  }

  /**
    Page `p` shows at most five analyses: those at positions `(p - 1) * 5` onwards, and
    as many as remain up to five.
  */
  lemma PageShowsItsSlice(filtered: seq<ClientAnalysis>, currentPage: nat)
    requires currentPage >= 1
    ensures var page := PageItems(filtered, currentPage);
      var start := (currentPage - 1) * ItemsPerPage;
      && |page| <= ItemsPerPage
      && |page| == (if start >= |filtered| then 0 else Min(ItemsPerPage, |filtered| - start))
      && forall k :: 0 <= k < |page| ==> page[k] == filtered[start + k]
  {
  }

  /**
    Pages 1 to `totalPages`, one after the other, give back the filtered list: every
    analysis is shown on exactly one page, in order.
  */
  lemma PagesPartitionFiltered(filtered: seq<ClientAnalysis>)
    ensures Pages(filtered, ItemsPerPage, TotalPages(filtered)) == filtered
    ensures forall i :: 0 <= i < |filtered| ==>
      var p := i / ItemsPerPage + 1;
      1 <= p <= TotalPages(filtered) && PageItems(filtered, p)[i % ItemsPerPage] == filtered[i]
  {
    PagesPartition(filtered, ItemsPerPage);
    forall i | 0 <= i < |filtered|
      ensures var p := i / ItemsPerPage + 1;
        1 <= p <= TotalPages(filtered) && PageItems(filtered, p)[i % ItemsPerPage] == filtered[i]
    {
      RowOnItsPage(filtered, ItemsPerPage, i);
      var p := i / ItemsPerPage + 1;
      assert (p - 1) * ItemsPerPage <= i;
    }
  }

  /** A page after the last one is empty. */
  lemma PageBeyondLastIsEmpty(filtered: seq<ClientAnalysis>, currentPage: nat)
    requires currentPage > TotalPages(filtered)
    ensures PageItems(filtered, currentPage) == []
  {
    PageAfterLastIsEmpty(filtered, ItemsPerPage, currentPage);
  }

  // ----- searchTerm and currentPage -----

  datatype View = View(searchTerm: string, currentPage: nat)

  /** Typing in the search box: a changed term resets the page to 1 (the effect on `[searchTerm]`). */
  function OnSearchInput(v: View, term: string): (r: View)
    ensures r.searchTerm == term
    ensures term != v.searchTerm ==> r.currentPage == 1
    ensures term == v.searchTerm ==> r == v
  {
    if term == v.searchTerm then v else View(term, 1)
  }

  /**
    The page kept after the user confirms a deletion: one page back when the current
    page showed a single analysis and was not the first. The context's `deleteAnalysis`
    catches its own errors, so this happens whether or not the server removed the row.
  */
  function PageAfterDelete(itemsOnPage: nat, currentPage: nat): (p: nat)
    requires currentPage >= 1
    ensures p >= 1
    ensures p == currentPage - 1 <==> itemsOnPage == 1 && currentPage > 1
    ensures p != currentPage - 1 ==> p == currentPage
  {
    if itemsOnPage == 1 && currentPage > 1 then currentPage - 1 else currentPage
  }

  /** `s` with the element at position `k` removed. */
  function Without<T>(s: seq<T>, k: nat): (r: seq<T>)
    requires k < |s|
    ensures |r| == |s| - 1
  {
    s[..k] + s[k + 1..]
  }

  /**
    Deleting the only analysis shown on page `p > 1` empties that page; the page kept
    afterwards is the new last page and it is full.
  */
  lemma DeletingLoneItemMovesBack(filtered: seq<ClientAnalysis>, currentPage: nat)
    requires currentPage > 1
    requires |PageItems(filtered, currentPage)| == 1
    ensures var k := (currentPage - 1) * ItemsPerPage;
      var after := Without(filtered, k);
      var p := PageAfterDelete(1, currentPage);
      && k == |filtered| - 1
      && PageItems(after, currentPage) == []
      && p == TotalPages(after)
      && |PageItems(after, p)| == ItemsPerPage
  {
    var k := (currentPage - 1) * ItemsPerPage;
    var after := Without(filtered, k);
    assert k < |filtered|;
    assert |after| == k;
    var p := currentPage - 1;
    assert (p - 1) * ItemsPerPage == k - ItemsPerPage;
    assert CeilDiv(k, ItemsPerPage) == p by {
      assert k == p * ItemsPerPage;
    }
  }

  /**
    Deleting one of several analyses shown on a page leaves that page non-empty, so the
    page is kept.
  */
  lemma DeletingOneOfSeveralKeepsPage(filtered: seq<ClientAnalysis>, currentPage: nat, k: nat)
    requires currentPage >= 1
    requires |PageItems(filtered, currentPage)| >= 2
    requires (currentPage - 1) * ItemsPerPage <= k < |filtered|
    ensures PageAfterDelete(|PageItems(filtered, currentPage)|, currentPage) == currentPage
    ensures PageItems(Without(filtered, k), currentPage) != []
  {
    var start := (currentPage - 1) * ItemsPerPage;
    assert start + 1 < |filtered|;
  }

  // ----- getConfidenceColor -----

  const Green := "text-green-600 bg-green-100"
  const Yellow := "text-yellow-600 bg-yellow-100"
  const Red := "text-red-600 bg-red-100"

  /** `getConfidenceColor(confidence)`. */
  function ConfidenceColor(confidence: real): (c: string)
    ensures c == Green <==> confidence >= 80.0
    ensures c == Yellow <==> 60.0 <= confidence < 80.0
    ensures c == Red <==> confidence < 60.0
  {
    if confidence >= 80.0 then Green
    else if confidence >= 60.0 then Yellow
    else Red
  }

  /** The three bands partition the scale and never rank a higher confidence worse. */
  lemma ConfidenceColorMonotone(a: real, b: real)
    requires a <= b
    ensures ConfidenceColor(a) == Green ==> ConfidenceColor(b) == Green
    ensures ConfidenceColor(a) == Yellow ==> ConfidenceColor(b) != Red
  {
  }
}
