/**
 * Free-text search of the destination browser (`searchDestinations` in
 * client/src/pages/Destinations.tsx): the query is cut into lower-case terms,
 * a destination is kept when some term occurs in its searchable text, its
 * country or its name, and the kept destinations are stably sorted by a
 * relevance score.
 */
module Search {
  import opened Wrappers
  import opened Seqs
  import opened Text
  import opened Schema

  /** The separators of the query split `/[\s,]+/`. */
  predicate IsTermSeparator(c: char) {
    IsWhitespace(c) || c == ','
  }

  predicate IsTermChar(c: char) {
    !IsTermSeparator(c)
  }

  /** The separators of the name split `/[\s-]+/`. */
  predicate IsNameSeparator(c: char) {
    IsWhitespace(c) || c == '-'
  }

  predicate NonEmpty(t: string) {
    t != []
  }

  predicate NotUpper(c: char) {
    !('A' <= c <= 'Z')
  }

  /** `query.toLowerCase().split(/[\s,]+/).filter(term => term.length > 0)`. */
  function SearchTerms(query: string): (r: seq<string>)
    ensures forall k :: 0 <= k < |r| ==> r[k] != []
  {
    FilterSatisfies(SplitRuns(Lower(query), IsTermSeparator), NonEmpty);
    Filter(SplitRuns(Lower(query), IsTermSeparator), NonEmpty)
  }

  /** The location keywords a destination's name adds to its searchable text. */
  function NameKeywords(name: string): seq<string> {
    (if Contains(name, "Island") then ["island"] else [])
    + (if Contains(name, "Beach") then ["beach", "coastal"] else [])
    + (if Contains(name, "Mountain") then ["mountain", "alpine"] else [])
    + (if Contains(name, "City") then ["city", "urban"] else [])
    + (if Contains(name, "Desert") then ["desert"] else [])
    + (if Contains(name, "Forest") then ["forest", "jungle"] else [])
  }

  function SearchablePieces(d: Destination): seq<string> {
    [d.name, d.country, d.description] + SplitRuns(d.name, IsNameSeparator) + NameKeywords(d.name)
  }

  /** The pieces joined with spaces and lower-cased: it holds the lower-cased name, country and description. */
  function SearchableText(d: Destination): (r: string)
    ensures Contains(r, Lower(d.name)) && Contains(r, Lower(d.country)) && Contains(r, Lower(d.description))
  {
    var pieces := SearchablePieces(d);
    assert pieces[0] == d.name && pieces[1] == d.country && pieces[2] == d.description;
    JoinContainsPiece(pieces, " ", 0);
    JoinContainsPiece(pieces, " ", 1);
    JoinContainsPiece(pieces, " ", 2);
    ContainsLower(Join(pieces, " "), d.name);
    ContainsLower(Join(pieces, " "), d.country);
    ContainsLower(Join(pieces, " "), d.description);
    Lower(Join(pieces, " "))
  }

  /** The test inside `searchTerms.some(...)` for one term. */
  predicate TermMatches(term: string, d: Destination) {
    || Contains(SearchableText(d), term)
    || Contains(Lower(d.country), term)
    || Contains(Lower(d.name), term)
  }

  /** `searchTerms.some(...)`: the destination survives the search filter. */
  predicate Keeps(terms: seq<string>, d: Destination) {
    exists k :: 0 <= k < |terms| && TermMatches(terms[k], d)
  }

  function KeepFor(terms: seq<string>): Destination -> bool {
    d => Keeps(terms, d)
  }

  /**
   * What one term adds to a destination's relevance: at most 20, at least 10
   * for a name match, and only terms that keep the destination score at all.
   */
  function TermScore(term: string, d: Destination): (r: nat)
    ensures r <= 20
    ensures Contains(Lower(d.name), term) ==> r >= 10
    ensures r > 0 ==> TermMatches(term, d)
  {
    assert Contains(Lower(d.description), term) ==> TermMatches(term, d) by {
      if Contains(Lower(d.description), term) {
        ContainsTransitive(SearchableText(d), Lower(d.description), term);
      }
    }
    (if Contains(Lower(d.name), term) then 10 else 0)
    + (if Contains(Lower(d.country), term) then 8 else 0)
    + (if Contains(Lower(d.description), term) then 2 else 0)
  }

  /** `searchTerms.reduce(..., 0)`: the relevance score, at most 20 per term. */
  function Score(terms: seq<string>, d: Destination): (r: nat)
    ensures r <= 20 * |terms|
  {
    if terms == [] then 0 else Score(terms[..|terms| - 1], d) + TermScore(terms[|terms| - 1], d)
  }

  /** The comparator `bScore - aScore`: `a` may stay before `b` unless `b` scores higher. */
  function ByRelevance(terms: seq<string>): (Destination, Destination) -> bool {
    (a, b) => Score(terms, a) >= Score(terms, b)
  }

  /**
   * The value `searchDestinations(query, destinations)` returns: no
   * destination more often than in the input, and after a non-blank query
   * only destinations some term matches.
   */
  function SearchResult(query: string, ds: seq<Destination>): (r: seq<Destination>)
    ensures multiset(r) <= multiset(ds)
    ensures Trim(query) != [] ==> forall i :: 0 <= i < |r| ==> Keeps(SearchTerms(query), r[i])
  {
    if Trim(query) == [] then ds
    else
      var terms := SearchTerms(query);
      var kept := Filter(ds, KeepFor(terms));
      InsertionSortPermutes(kept, ByRelevance(terms));
      FilterSubMultiset(ds, KeepFor(terms));
      PermutedFilterSatisfies(ds, KeepFor(terms), InsertionSort(kept, ByRelevance(terms)));
      InsertionSort(kept, ByRelevance(terms))
  }

  /**
   * `searchDestinations`: a blank query hands back the very same array; any
   * other query builds a new array with `filter` and sorts it in place.
   */
  method SearchDestinations(query: string, destinations: array<Destination>) returns (r: array<Destination>)
    ensures Trim(query) == [] ==> r == destinations
    ensures Trim(query) != [] ==> fresh(r)
    ensures r[..] == SearchResult(query, destinations[..])
  {
    if Trim(query) == [] {
      return destinations;
    }
    var terms := SearchTerms(query);
    var kept := Filter(destinations[..], KeepFor(terms));
    r := new Destination[|kept|](i requires 0 <= i < |kept| => kept[i]);
    assert r[..] == kept;
    SortInPlace(r, ByRelevance(terms));
  }

  /** An empty or all-white-space query returns the list unchanged, in the same order. */
  lemma BlankQueryKeepsList(query: string, ds: seq<Destination>)
    requires AllWhitespace(query)
    ensures SearchResult(query, ds) == ds
  {
    TrimEmptyIffBlank(query);
  }

  /**
   * The terms are the lower-cased query cut at separators: none is empty, none
   * holds a separator or an upper-case ASCII letter, and together they are
   * exactly the query's non-separator characters, in order.
   */
  lemma SearchTermsShape(query: string)
    ensures forall k :: 0 <= k < |SearchTerms(query)| ==> SearchTerms(query)[k] != []
    ensures forall k, i :: 0 <= k < |SearchTerms(query)| && 0 <= i < |SearchTerms(query)[k]|
              ==> IsTermChar(SearchTerms(query)[k][i]) && NotUpper(SearchTerms(query)[k][i])
    ensures Concat(SearchTerms(query)) == Filter(Lower(query), IsTermChar)
  {
    var pieces := SplitRuns(Lower(query), IsTermSeparator);
    var terms := SearchTerms(query);
    SplitRunsAvoidSeparator(Lower(query), IsTermSeparator);
    SplitRunsPiecesFrom(Lower(query), IsTermSeparator, NotUpper);
    forall k | 0 <= k < |terms|
      ensures terms[k] in pieces && terms[k] != []
    {
      assert terms[k] in terms;
      FilterMember(pieces, NonEmpty, terms[k]);
    }
    SplitRunsConcat(Lower(query), IsTermSeparator, IsTermChar);
    DropEmptyPieces(pieces);
  }

  /**
   * A separator cuts the query in two: the terms are those of the text before
   * it followed by those of the text after it.
   */
  lemma SearchTermsSplitAtSeparator(a: string, c: char, b: string)
    requires IsTermSeparator(c)
    ensures SearchTerms(a + [c] + b) == SearchTerms(a) + SearchTerms(b)
  {
    LowerAppend(a + [c], b);
    LowerAppend(a, [c]);
    assert Lower([c]) == [c];
    SplitRunsAtSeparator(Lower(a), c, Lower(b), IsTermSeparator, NonEmpty);
  }

  /** A non-empty query without separators is one term, the query lower-cased. */
  lemma SearchTermsOfWord(w: string)
    requires w != []
    requires forall i :: 0 <= i < |w| ==> IsTermChar(w[i])
    ensures SearchTerms(w) == [Lower(w)]
  {
    assert forall i :: 0 <= i < |Lower(w)| ==> IsTermChar(Lower(w)[i]) by {
      forall i | 0 <= i < |Lower(w)| ensures IsTermChar(Lower(w)[i]) {
        assert Lower(w)[i] == LowerChar(w[i]);
      }
    }
    SplitRunsWord(Lower(w), IsTermSeparator);
    FilterKeepsAll([Lower(w)], NonEmpty);
  }

  lemma {:induction false} DropEmptyPieces(ss: seq<string>)
    ensures Concat(Filter(ss, NonEmpty)) == Concat(ss)
  {
    if ss != [] {
      var front, last := ss[..|ss| - 1], ss[|ss| - 1];
      DropEmptyPieces(front);
      assert ss == front + [last];
      ConcatAppend(front, [last]);
      ConcatAppend(Filter(front, NonEmpty), if NonEmpty(last) then [last] else []);
      assert Concat([last]) == last + Concat([]);
    }
  }

  /** A query made only of separators, with at least one comma, matches nothing at all. */
  lemma SeparatorQueryFindsNothing(query: string, ds: seq<Destination>)
    requires !AllWhitespace(query)
    requires forall i :: 0 <= i < |query| ==> IsTermSeparator(query[i])
    ensures SearchResult(query, ds) == []
  {
    TrimEmptyIffBlank(query);
    var terms := SearchTerms(query);
    SearchTermsShape(query);
    FilterKeepsNone(Lower(query), IsTermChar);
    ConcatEmpty(terms);
    assert terms == [];
    FilterKeepsNone(ds, KeepFor(terms));
  }

  /**
   * The result holds exactly the input's destinations that some term matches,
   * each as often as in the input.
   */
  lemma SearchKeepsMatches(query: string, ds: seq<Destination>, d: Destination)
    requires Trim(query) != []
    ensures d in SearchResult(query, ds) <==> d in ds && Keeps(SearchTerms(query), d)
    ensures multiset(SearchResult(query, ds))[d]
         == if Keeps(SearchTerms(query), d) then multiset(ds)[d] else 0
  {
    var terms := SearchTerms(query);
    var kept := Filter(ds, KeepFor(terms));
    InsertionSortPermutes(kept, ByRelevance(terms));
    FilterMember(ds, KeepFor(terms), d);
    FilterMultiset(ds, KeepFor(terms), d);
    assert d in SearchResult(query, ds) <==> d in multiset(kept);
  }

  /** A destination whose lower-cased name contains a term is always found. */
  lemma NameMatchIsKept(query: string, ds: seq<Destination>, d: Destination, k: nat)
    requires Trim(query) != [] && d in ds
    requires k < |SearchTerms(query)| && Contains(Lower(d.name), SearchTerms(query)[k])
    ensures d in SearchResult(query, ds)
  {
    SearchKeepsMatches(query, ds, d);
  }

  /** A term that occurs in the lower-cased description occurs in the searchable text. */
  lemma DescriptionMatches(term: string, d: Destination)
    requires Contains(Lower(d.description), term)
    ensures TermMatches(term, d)
  {
    ContainsTransitive(SearchableText(d), Lower(d.description), term);
  }

  /** A destination whose description contains a term is found. */
  lemma DescriptionMatchIsKept(query: string, ds: seq<Destination>, d: Destination, k: nat)
    requires Trim(query) != [] && d in ds
    requires k < |SearchTerms(query)| && Contains(Lower(d.description), SearchTerms(query)[k])
    ensures d in SearchResult(query, ds)
  {
    DescriptionMatches(SearchTerms(query)[k], d);
    SearchKeepsMatches(query, ds, d);
  }

  /** The keyword expansion: a name containing "Forest" is found by the term "jungle". */
  lemma ForestNameMatchesJungle(d: Destination)
    requires Contains(d.name, "Forest")
    ensures TermMatches("jungle", d)
  {
    var pieces := SearchablePieces(d);
    var words := SplitRuns(d.name, IsNameSeparator);
    var kws := NameKeywords(d.name);
    assert kws[|kws| - 1] == "jungle";
    assert pieces == [d.name, d.country, d.description] + words + kws;
    assert pieces[|pieces| - 1] == "jungle";
    JoinContainsPiece(pieces, " ", |pieces| - 1);
    ContainsLower(Join(pieces, " "), "jungle");
    assert Lower("jungle") == "jungle";
  }

  lemma RelevanceIsPreorder(terms: seq<string>)
    ensures TotalPreorder(ByRelevance(terms))
  {
  }

  /** Results come out in non-increasing relevance. */
  lemma SearchByRelevance(query: string, ds: seq<Destination>)
    requires Trim(query) != []
    ensures forall i, j :: 0 <= i < j < |SearchResult(query, ds)| ==>
              Score(SearchTerms(query), SearchResult(query, ds)[i])
              >= Score(SearchTerms(query), SearchResult(query, ds)[j])
  {
    var terms := SearchTerms(query);
    RelevanceIsPreorder(terms);
    InsertionSortSorted(Filter(ds, KeepFor(terms)), ByRelevance(terms));
  }

  function HasScore(terms: seq<string>, score: nat): Destination -> bool {
    d => Score(terms, d) == score
  }

  /** The sort is stable: destinations with equal scores keep their input order. */
  lemma EqualScoresKeepOrder(query: string, ds: seq<Destination>, score: nat)
    requires Trim(query) != []
    ensures Filter(SearchResult(query, ds), HasScore(SearchTerms(query), score))
         == Filter(Filter(ds, KeepFor(SearchTerms(query))), HasScore(SearchTerms(query), score))
  {
    var terms := SearchTerms(query);
    RelevanceIsPreorder(terms);
    InsertionSortKeepsClass(Filter(ds, KeepFor(terms)), ByRelevance(terms), HasScore(terms, score));
  }
}
