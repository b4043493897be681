/** The discovery service's search-index client: it creates the index,
    writes and removes documents, and runs the faceted search, the
    suggestions, the recommendations and the trending list. `available`
    says whether the search cluster answers at all. */
module Search {
  import opened Common
  import opened Ordering
  import opened Entities
  import opened Table
  import opened Pagination
  import opened SearchIndex
  import opened SearchDto

  /** One search result: the selected columns of the document and its
      `_score` (absent when the sort does not compute one). */
  datatype ScoredListing = ScoredListing(listing: Listing, score: Option<int>)

  function Scored(h: Hit): ScoredListing
  {
    ScoredListing(ListingOfDocument(h.source), h.score)
  }

  datatype SearchPage = SearchPage(
    data: seq<ScoredListing>,
    total: int,
    page: int,
    limit: int,
    totalPages: int,
    hasMore: bool,
    aggregations: Option<Facets>)

  /** The documents a search asks for: the requested status and language
      always, the text match and the type, category and source equalities
      only when the request gives a non-empty value. */
  predicate Wanted(p: SearchParams, d: SearchDocument, matches: (string, SearchDocument) -> bool)
  {
    && d.status == p.status
    && d.language == p.language
    && (Truthy(p.q) ==> matches(p.q.value, d))
    && (Truthy(p.contentType) ==> d.contentType == p.contentType.value)
    && (Truthy(p.category) ==> d.category == p.category.value)
    && (Truthy(p.source) ==> d.source == Some(p.source.value))
  }

  function WantedBy(p: SearchParams, matches: (string, SearchDocument) -> bool): SearchDocument -> bool
  {
    d => Wanted(p, d, matches)
  }

  /** Relevance first when there is a text query, then the requested field;
      the order string is lower-cased before it is sent. */
  function SortFor(p: SearchParams): (sort: seq<SortKey>)
    ensures |sort| >= 1 && (Tracked(sort) <==> Truthy(p.q))
    ensures sort[|sort| - 1] == FieldSort(p.sortBy, ToLower(p.sortOrder))
  {
    if Truthy(p.q) then [ScoreDesc, FieldSort(p.sortBy, ToLower(p.sortOrder))]
    else [FieldSort(p.sortBy, ToLower(p.sortOrder))]
  }

  function PublishedNewestFirst(): seq<SortKey>
  {
    [FieldSort("publishedAt", "desc")]
  }

  function RecommendationSort(): seq<SortKey>
  {
    [FieldSort("publishedAt", "desc"), ScoreDesc]
  }

  /** `a` may precede `b` newest first: a later (or equal) publication
      time, documents without one last. */
  predicate NewerFirst(a: SearchDocument, b: SearchDocument)
  {
    ValueLeq(OptNum(a.publishedAt), OptNum(b.publishedAt), false, false)
  }

  /** Both the trending and the recommendation sorts are accepted by the
      engine and put newer publications first. */
  lemma NewestFirstSorts(relevance: SearchDocument -> int, position: SearchDocument -> int)
    ensures CompileSort(PublishedNewestFirst(), relevance, position).Ok?
    ensures CompileSort(RecommendationSort(), relevance, position).Ok?
    ensures forall a, b :: KeysLeq(CompileSort(PublishedNewestFirst(), relevance, position).value, a, b) ==> NewerFirst(a, b)
    ensures forall a, b :: KeysLeq(CompileSort(RecommendationSort(), relevance, position).value, a, b) ==> NewerFirst(a, b)
  {
    assert FieldNamed("publishedAt") == PublishedAt;
    var k1 := CompileSort(PublishedNewestFirst(), relevance, position).value;
    var k2 := CompileSort(RecommendationSort(), relevance, position).value;
    assert k1[0] == k2[0];
    forall a, b ensures KeysLeq(k1, a, b) ==> NewerFirst(a, b) {
      assert k1[0].value(a) == OptNum(a.publishedAt) && k1[0].value(b) == OptNum(b.publishedAt);
    }
    forall a, b ensures KeysLeq(k2, a, b) ==> NewerFirst(a, b) {
      assert k2[0].value(a) == OptNum(a.publishedAt) && k2[0].value(b) == OptNum(b.publishedAt);
    }
  }

  /** Terms requiring the same type, category and language as `seed`. */
  function SimilarTo(seed: SearchDocument): seq<Clause>
  {
    [Term(Type, seed.contentType), Term(Category, seed.category), Term(Language, seed.language)]
  }

  /** The seed document a recommendation request finds: only for a
      non-empty id, and only when the lookup succeeds. */
  function SeedOf(reachable: bool, docs: map<string, SearchDocument>, contentId: Option<string>): Option<SearchDocument>
  {
    if reachable && Truthy(contentId) && contentId.value in docs then Some(docs[contentId.value]) else None
  }

  /** The query a recommendation request sends: published only, plus the
      similarity terms when a seed was found, with the given `must_not`. */
  function RecommendationQuery(seed: Option<SearchDocument>, mustNot: Option<seq<Clause>>): BoolQuery
  {
    BoolQuery([Term(Status, "published")] + (if seed.Some? then SimilarTo(seed.value) else []), [], mustNot)
  }

  function RecommendationBody(seed: Option<SearchDocument>, mustNot: Option<seq<Clause>>, limit: int): SearchBody
  {
    SearchBody(RecommendationQuery(seed, mustNot), RecommendationSort(), 0, limit, false)
  }

  /** The `must_not` list of the intended recommendation query: the seed's
      own id when the seed was found, and nothing otherwise. */
  function SeedExclusion(seed: Option<SearchDocument>, contentId: Option<string>): Option<seq<Clause>>
  {
    if seed.Some? && contentId.Some? then Some([Term(Id, contentId.value)]) else Some([])
  }

  /** The body the trending list sends: published only, newest first, the
      first `limit` hits. */
  function TrendingBody(limit: int): SearchBody
  {
    SearchBody(BoolQuery([Term(Status, "published")], [], None), PublishedNewestFirst(), 0, limit, false)
  }

  predicate SameKind(d: SearchDocument, seed: SearchDocument)
  {
    d.contentType == seed.contentType && d.category == seed.category && d.language == seed.language
  }

  lemma SimilarAccepted(seed: Option<SearchDocument>, mustNot: Option<seq<Clause>>, d: SearchDocument,
                        matches: (string, SearchDocument) -> bool)
    requires Accepts(RecommendationQuery(seed, mustNot), d, matches)
    ensures d.status == "published"
    ensures seed.Some? ==> SameKind(d, seed.value)
  {
    var q := RecommendationQuery(seed, mustNot);
    assert ClauseHolds(q.must[0], d, matches);
    if seed.Some? {
      assert ClauseHolds(q.must[1], d, matches);
      assert ClauseHolds(q.must[2], d, matches);
      assert ClauseHolds(q.must[3], d, matches);
    }
  }

  /** As written, a found seed is never excluded: when it is published and
      the page is large enough to hold every document, the seed itself is
      among its own recommendations. */
  lemma SeedRecommendsItself(docs: map<string, SearchDocument>, scan: seq<string>, contentId: string,
                             limit: int, relevance: SearchDocument -> int)
    requires IsListing(scan, docs)
    requires contentId != "" && contentId in docs && docs[contentId].status == "published"
    requires |scan| <= limit <= MaxResultWindow
    ensures var seed := SeedOf(true, docs, Some(contentId));
      var r := Execute(true, docs, scan, RecommendationBody(seed, None, limit), AnyText, relevance);
      r.Ok? && docs[contentId] in MapSeq(r.value.hits, HitSource)
  {
    var d := docs[contentId];
    var seed := SeedOf(true, docs, Some(contentId));
    var body := RecommendationBody(seed, None, limit);
    NewestFirstSorts(relevance, DocPosition(scan));
    var q := body.query;
    assert Accepts(q, d, AnyText) by {
      assert forall i :: 0 <= i < |q.must| ==> ClauseHolds(q.must[i], d, AnyText);
    }
    ListedIsRanked(docs, scan, contentId, Acceptor(q, AnyText), CompileSort(body.sort, relevance, DocPosition(scan)).value, limit);
  }

  /** A listed document the query accepts is among the ranked documents. */
  lemma AcceptedIsRanked(docs: map<string, SearchDocument>, scan: seq<string>, key: string,
                         accept: SearchDocument -> bool, keys: seq<Key<SearchDocument>>)
    requires IsListing(scan, docs)
    requires key in docs && accept(docs[key])
    ensures docs[key] in Ranked(docs, scan, accept, keys)
  {
    var d := docs[key];
    var all := Scan(docs, scan);
    var j :| 0 <= j < |scan| && scan[j] == key;
    assert all[j] == d;
    var m := Matching(docs, scan, accept);
    assert d in m;
    assert d in multiset(m);
  }

  /** A document of a window is the source of one of its hits. */
  lemma HitOfWindow(w: seq<SearchDocument>, d: SearchDocument, flag: bool, relevance: SearchDocument -> int)
    requires d in w
    ensures d in MapSeq(MapSeq(w, ToHit(flag, relevance)), HitSource)
  {
    var k :| 0 <= k < |w| && w[k] == d;
    var hits := MapSeq(w, ToHit(flag, relevance));
    assert hits[k] == Hit(d, if flag then Some(relevance(d)) else None);
    assert MapSeq(hits, HitSource)[k] == d;
  }

  /** A listed document the query accepts is ranked and, when the window
      covers the whole listing, it is among the hits. */
  lemma ListedIsRanked(docs: map<string, SearchDocument>, scan: seq<string>, key: string,
                       accept: SearchDocument -> bool, keys: seq<Key<SearchDocument>>, take: nat)
    requires IsListing(scan, docs)
    requires key in docs && accept(docs[key]) && |scan| <= take
    ensures forall flag, relevance ::
      docs[key] in MapSeq(MapSeq(Window(Ranked(docs, scan, accept, keys), 0, take), ToHit(flag, relevance)), HitSource)
  {
    AcceptedIsRanked(docs, scan, key, accept, keys);
    var ranked := Ranked(docs, scan, accept, keys);
    assert |ranked| == |multiset(Matching(docs, scan, accept))|;
    var w := Window(ranked, 0, take);
    assert w == ranked;
    forall flag, relevance
      ensures docs[key] in MapSeq(MapSeq(w, ToHit(flag, relevance)), HitSource)
    {
      HitOfWindow(w, docs[key], flag, relevance);
    }
  }

  /** The engine's answer to a query that accepts exactly the wanted
      documents, stated in terms of the wanted documents. */
  lemma SearchExecution(exists_: bool, docs: map<string, SearchDocument>, scan: seq<string>, p: SearchParams,
                        query: BoolQuery, from: nat, matches: (string, SearchDocument) -> bool,
                        relevance: SearchDocument -> int)
    requires IsListing(scan, docs) && p.limit >= 0
    requires forall d :: Accepts(query, d, matches) <==> Wanted(p, d, matches)
    ensures var r := Execute(exists_, docs, scan, SearchBody(query, SortFor(p), from, p.limit, true), matches, relevance);
      var wanted := WantedBy(p, matches);
      && (r.Ok? <==> exists_ && from + p.limit <= MaxResultWindow && CompileSort(SortFor(p), relevance, DocPosition(scan)).Ok?)
      && (r.Ok? ==> r.value.total == TotalObject(Some(Min(|Matching(docs, scan, wanted)|, TrackTotalHits))))
      && (r.Ok? ==> r.value.hits == MapSeq(Window(Ranked(docs, scan, wanted, CompileSort(SortFor(p), relevance, DocPosition(scan)).value),
                                                  from, p.limit),
                                           ToHit(Truthy(p.q), relevance)))
      && (r.Ok? ==> r.value.aggregations == Some(FacetsOf(Matching(docs, scan, wanted))))
      && (r.Err? ==> r.error.Search?)
  {
    FilterExt(Scan(docs, scan), Acceptor(query, matches), WantedBy(p, matches));
  }

  /** The transport's failure when the cluster does not answer, and the
      engine's answer to a delete of a missing document. */
  const ConnectionRefused := "ECONNREFUSED"
  const DocumentNotFound := "not_found"

  class SearchService {
    var available: bool
    var indexExists: bool
    var docs: map<string, SearchDocument>

    /** Every document is stored under its own id, and an index that does
        not exist holds nothing. */
    ghost predicate Valid()
      reads this
    {
      (!indexExists ==> docs == map[]) && forall k :: k in docs ==> docs[k].id == k
    }

    constructor(available: bool)
      ensures Valid()
      ensures this.available == available && !indexExists && docs == map[]
    {
      this.available := available;
      indexExists := false;
      docs := map[];
    }

    /** Creates the index when it does not exist; any failure is rethrown. */
    method CreateIndex() returns (r: Outcome)
      requires Valid()
      modifies this
      ensures Valid()
      ensures available == old(available) && docs == old(docs)
      ensures r.Pass? <==> available
      ensures indexExists == (old(indexExists) || available)
    {
      if !available {
        return Fail(Search(ConnectionRefused));
      }
      if !indexExists {
        indexExists := true;
      }
      return Pass;
    }

    /** Writes the document of `content` under its id, replacing any
        earlier one; an absent index is created by the write. */
    method IndexContent(content: ContentRecord) returns (r: Outcome)
      requires Valid()
      modifies this
      ensures Valid()
      ensures available == old(available)
      ensures r.Pass? <==> available
      ensures available ==> indexExists && docs == old(docs)[content.id := Project(content)]
      ensures !available ==> indexExists == old(indexExists) && docs == old(docs)
    {
      if !available {
        return Fail(Search(ConnectionRefused));
      }
      var document := Project(content);
      indexExists := true;
      docs := docs[content.id := document];
      return Pass;
    }

    /** The same write as `IndexContent`. */
    method UpdateContent(content: ContentRecord) returns (r: Outcome)
      requires Valid()
      modifies this
      ensures Valid()
      ensures available == old(available)
      ensures r.Pass? <==> available
      ensures available ==> indexExists && docs == old(docs)[content.id := Project(content)]
      ensures !available ==> indexExists == old(indexExists) && docs == old(docs)
    {
      r := IndexContent(content);
    }

    /** Removes the document with that id; a missing index, a missing
        document or an unreachable cluster is an error, and is rethrown. */
    method DeleteContent(contentId: string) returns (r: Outcome)
      requires Valid()
      modifies this
      ensures Valid()
      ensures available == old(available) && indexExists == old(indexExists)
      ensures r.Pass? <==> available && indexExists && contentId in old(docs)
      ensures r.Pass? ==> docs == old(docs) - {contentId}
      ensures r.Fail? ==> docs == old(docs) && r.error.Search?
    {
      if !available {
        return Fail(Search(ConnectionRefused));
      }
      if !indexExists {
        return Fail(Search(IndexNotFound));
      }
      if contentId !in docs {
        return Fail(Search(DocumentNotFound));
      }
      docs := docs - {contentId};
      return Pass;
    }

    /** The faceted search. The query is built clause by clause: status and
        language always go into `must`, the text query too when given; type,
        category and source go into `filter` when given. */
    method BuildQuery(p: SearchParams) returns (query: BoolQuery)
      ensures query.mustNot.None?
      ensures forall d, matches :: Accepts(query, d, matches) <==> Wanted(p, d, matches)
    {
      var must := [Term(Status, p.status), Term(Language, p.language)];
      var filter := [];
      if Truthy(p.q) {
        must := must + [MultiMatch(p.q.value)];
      }
      if Truthy(p.contentType) {
        filter := filter + [Term(Type, p.contentType.value)];
      }
      if Truthy(p.category) {
        filter := filter + [Term(Category, p.category.value)];
      }
      if Truthy(p.source) {
        filter := filter + [Term(Source, p.source.value)];
      }
      query := BoolQuery(must, filter, None);
      forall d, matches ensures Accepts(query, d, matches) <==> Wanted(p, d, matches) {
        assert ClauseHolds(Term(Status, p.status), d, matches) <==> d.status == p.status;
        if Accepts(query, d, matches) {
          assert ClauseHolds(must[0], d, matches) && ClauseHolds(must[1], d, matches);
          if Truthy(p.q) { assert ClauseHolds(must[2], d, matches); }
          if Truthy(p.contentType) { assert ClauseHolds(filter[0], d, matches); }
          if Truthy(p.category) { assert ClauseHolds(filter[|filter| - 1 - (if Truthy(p.source) then 1 else 0)], d, matches); }
          if Truthy(p.source) { assert ClauseHolds(filter[|filter| - 1], d, matches); }
        }
      }
    }

    /** One page of the documents the request wants, in the requested
        order, with the total, the page count and the facets. */
    method SearchContent(d: SearchRequest, scan: seq<string>,
                         matches: (string, SearchDocument) -> bool, relevance: SearchDocument -> int)
      returns (r: Result<SearchPage>)
      requires SearchDto.Valid(d) && IsListing(scan, docs)
      ensures var p := Resolve(d);
        r.Ok? <==> available && indexExists && Skip(p.page, p.limit) + p.limit <= MaxResultWindow
                   && CompileSort(SortFor(p), relevance, DocPosition(scan)).Ok?
      ensures var p := Resolve(d);
        r.Ok? ==> r.value.page == p.page && r.value.limit == p.limit
                  && r.value.total == Min(|Matching(docs, scan, WantedBy(p, matches))|, TrackTotalHits)
                  && r.value.totalPages == TotalPages(r.value.total, p.limit)
                  && r.value.hasMore == (p.page < r.value.totalPages)
      ensures var p := Resolve(d);
        r.Ok? ==> r.value.data == MapSeq(MapSeq(Window(Ranked(docs, scan, WantedBy(p, matches),
                                                              CompileSort(SortFor(p), relevance, DocPosition(scan)).value),
                                                       Skip(p.page, p.limit), p.limit),
                                                ToHit(Truthy(p.q), relevance)),
                                         Scored)
      ensures var p := Resolve(d);
        r.Ok? ==> r.value.aggregations == Some(FacetsOf(Matching(docs, scan, WantedBy(p, matches))))
      ensures r.Err? ==> r.error.Search?
    {
      ResolveValid(d);
      r := SearchResolved(Resolve(d), scan, matches, relevance);
    }

    /** The search once the defaults are filled in. */
    method SearchResolved(p: SearchParams, scan: seq<string>,
                          matches: (string, SearchDocument) -> bool, relevance: SearchDocument -> int)
      returns (r: Result<SearchPage>)
      requires WellFormed(p) && IsListing(scan, docs)
      ensures r.Ok? <==> available && indexExists && Skip(p.page, p.limit) + p.limit <= MaxResultWindow
                         && CompileSort(SortFor(p), relevance, DocPosition(scan)).Ok?
      ensures r.Ok? ==> r.value.page == p.page && r.value.limit == p.limit
                        && r.value.total == Min(|Matching(docs, scan, WantedBy(p, matches))|, TrackTotalHits)
                        && r.value.totalPages == TotalPages(r.value.total, p.limit)
                        && r.value.hasMore == (p.page < r.value.totalPages)
      ensures r.Ok? ==> r.value.data == MapSeq(MapSeq(Window(Ranked(docs, scan, WantedBy(p, matches),
                                                                    CompileSort(SortFor(p), relevance, DocPosition(scan)).value),
                                                             Skip(p.page, p.limit), p.limit),
                                                      ToHit(Truthy(p.q), relevance)),
                                               Scored)
      ensures r.Ok? ==> r.value.aggregations == Some(FacetsOf(Matching(docs, scan, WantedBy(p, matches))))
      ensures r.Err? ==> r.error.Search?
    {
      var from := Skip(p.page, p.limit);
      var query := BuildQuery(p);
      var sort := SortFor(p);
      var response := Execute(available && indexExists, docs, scan, SearchBody(query, sort, from, p.limit, true),
                              matches, relevance);
      SearchExecution(available && indexExists, docs, scan, p, query, from, matches, relevance);
      if response.Err? {
        return Err(response.error);
      }
      var total := ExtractTotal(response.value.total);
      var totalPages := TotalPages(total, p.limit);
      r := Ok(SearchPage(MapSeq(response.value.hits, Scored), total, p.page, p.limit,
                         totalPages, p.page < totalPages, response.value.aggregations));
    }

    /** Title completions for a prefix; any failure (no cluster, no index, an
        engine error) yields the empty list instead of an error. */
    method GetSuggestions(query: string, size: int, complete: (string, int) -> Option<seq<string>>)
      returns (r: seq<string>)
      ensures !(available && indexExists) ==> r == []
      ensures available && indexExists && complete(query, size).Some? ==> r == complete(query, size).value
      ensures complete(query, size).None? ==> r == []
    {
      if !available || !indexExists {
        return [];
      }
      var options := complete(query, size);
      if options.None? {
        return [];
      }
      return options.value;
    }

    /** Recommendations, as written: published documents newest first and,
        when the seed is found, of its type, category and language. The
        exclusion of the seed pushes onto a `must_not` list the query never
        created; the `TypeError` is swallowed with the lookup's errors, so
        the query runs without any exclusion. `userId` is not read. */
    method GetRecommendations(contentId: Option<string>, userId: Option<string>, limit: int, scan: seq<string>,
                              relevance: SearchDocument -> int)
      returns (r: Result<seq<SearchDocument>>)
      requires IsListing(scan, docs)
      ensures r.Ok? <==> available && indexExists && WindowAllowed(0, limit)
      ensures var seed := SeedOf(available && indexExists, docs, contentId);
        r.Ok? ==> r.value == MapSeq(Execute(true, docs, scan, RecommendationBody(seed, None, limit),
                                            AnyText, relevance).value.hits, HitSource)
      ensures r.Ok? ==> |r.value| <= limit
      ensures r.Ok? ==> forall i :: 0 <= i < |r.value| ==> r.value[i] in docs.Values && r.value[i].status == "published"
      ensures r.Ok? ==> forall i :: 0 < i < |r.value| ==> NewerFirst(r.value[i - 1], r.value[i])
      ensures var seed := SeedOf(available && indexExists, docs, contentId);
        r.Ok? && seed.Some? ==> forall i :: 0 <= i < |r.value| ==> SameKind(r.value[i], seed.value)
      ensures r.Err? ==> r.error.Search?
    {
      var must := [Term(Status, "published")];
      var mustNot: Option<seq<Clause>> := None;
      if Truthy(contentId) && available && indexExists && contentId.value in docs {
        var seed := docs[contentId.value];
        must := must + SimilarTo(seed);
        var pushed := PushClause(mustNot, Term(Id, contentId.value));
        match pushed {
          case Ok(clauses) => mustNot := Some(clauses);
          case Err(_) =>
        }
      }
      var seed := SeedOf(available && indexExists, docs, contentId);
      var body := SearchBody(BoolQuery(must, [], mustNot), RecommendationSort(), 0, limit, false);
      assert mustNot.None?;
      assert body == RecommendationBody(seed, None, limit);
      NewestFirstSorts(relevance, DocPosition(scan));
      var response := Execute(available && indexExists, docs, scan, body, AnyText, relevance);
      if response.Err? {
        return Err(response.error);
      }
      ExecuteHits(available && indexExists, docs, scan, body, AnyText, relevance);
      RecommendedHits(response.value.hits, seed, mustNot, CompileSort(body.sort, relevance, DocPosition(scan)).value, docs);
      r := Ok(MapSeq(response.value.hits, HitSource));
    }

    /** Recommendations as evidently intended: the query starts with an
        empty `must_not`, so a found seed is excluded from its own
        recommendations. */
    method GetRecommendationsIntended(contentId: Option<string>, userId: Option<string>, limit: int,
                                      scan: seq<string>, relevance: SearchDocument -> int)
      returns (r: Result<seq<SearchDocument>>)
      requires IsListing(scan, docs)
      ensures r.Ok? <==> available && indexExists && WindowAllowed(0, limit)
      ensures var seed := SeedOf(available && indexExists, docs, contentId);
        r.Ok? ==> r.value == MapSeq(Execute(true, docs, scan, RecommendationBody(seed, SeedExclusion(seed, contentId), limit),
                                            AnyText, relevance).value.hits, HitSource)
      ensures r.Ok? ==> |r.value| <= limit
      ensures r.Ok? ==> forall i :: 0 <= i < |r.value| ==> r.value[i] in docs.Values && r.value[i].status == "published"
      ensures r.Ok? ==> forall i :: 0 < i < |r.value| ==> NewerFirst(r.value[i - 1], r.value[i])
      ensures var seed := SeedOf(available && indexExists, docs, contentId);
        r.Ok? && seed.Some? ==>
          forall i :: 0 <= i < |r.value| ==> SameKind(r.value[i], seed.value) && r.value[i].id != contentId.value
      ensures r.Err? ==> r.error.Search?
    {
      var must := [Term(Status, "published")];
      var mustNot: Option<seq<Clause>> := Some([]);
      if Truthy(contentId) && available && indexExists && contentId.value in docs {
        var seed := docs[contentId.value];
        must := must + SimilarTo(seed);
        var pushed := PushClause(mustNot, Term(Id, contentId.value));
        match pushed {
          case Ok(clauses) => mustNot := Some(clauses);
          case Err(_) =>
        }
        assert [] + [Term(Id, contentId.value)] == [Term(Id, contentId.value)];
      }
      var seed := SeedOf(available && indexExists, docs, contentId);
      var body := SearchBody(BoolQuery(must, [], mustNot), RecommendationSort(), 0, limit, false);
      assert mustNot == SeedExclusion(seed, contentId);
      assert body == RecommendationBody(seed, mustNot, limit);
      NewestFirstSorts(relevance, DocPosition(scan));
      var response := Execute(available && indexExists, docs, scan, body, AnyText, relevance);
      if response.Err? {
        return Err(response.error);
      }
      ExecuteHits(available && indexExists, docs, scan, body, AnyText, relevance);
      RecommendedHits(response.value.hits, seed, mustNot, CompileSort(body.sort, relevance, DocPosition(scan)).value, docs);
      r := Ok(MapSeq(response.value.hits, HitSource));
    }

    /** Published documents, newest publication first. */
    method GetTrendingContent(limit: int, scan: seq<string>) returns (r: Result<seq<SearchDocument>>)
      requires IsListing(scan, docs)
      ensures r.Ok? <==> available && indexExists && WindowAllowed(0, limit)
      ensures r.Ok? ==> r.value == MapSeq(Execute(true, docs, scan, TrendingBody(limit), AnyText, NoScore).value.hits, HitSource)
      ensures r.Ok? ==> |r.value| <= limit
      ensures r.Ok? ==> forall i :: 0 <= i < |r.value| ==> r.value[i] in docs.Values && r.value[i].status == "published"
      ensures r.Ok? ==> forall i :: 0 < i < |r.value| ==> NewerFirst(r.value[i - 1], r.value[i])
      ensures r.Err? ==> r.error.Search?
    {
      var body := TrendingBody(limit);
      NewestFirstSorts(NoScore, DocPosition(scan));
      var response := Execute(available && indexExists, docs, scan, body, AnyText, NoScore);
      if response.Err? {
        return Err(response.error);
      }
      ExecuteHits(available && indexExists, docs, scan, body, AnyText, NoScore);
      PublishedHits(response.value.hits, body.query, CompileSort(body.sort, NoScore, DocPosition(scan)).value, docs, AnyText);
      var out := MapSeq(response.value.hits, HitSource);
      assert forall i :: 0 <= i < |out| ==> out[i] in docs.Values;
      r := Ok(out);
    }
  }

  lemma PublishedOnly(q: BoolQuery, d: SearchDocument, matches: (string, SearchDocument) -> bool)
    requires |q.must| >= 1 && q.must[0] == Term(Status, "published")
    requires Accepts(q, d, matches)
    ensures d.status == "published"
  {
    assert ClauseHolds(q.must[0], d, matches);
  }

  /** The trending list sends no text query and asks for no score. */
  function AnyText(text: string, d: SearchDocument): bool
  {
    true
  }

  function NoScore(d: SearchDocument): int
  {
    0
  }

  /** Hits a published-only query accepted, in an order that puts newer
      publications first, are published documents newest first. */
  lemma PublishedHits(hits: seq<Hit>, q: BoolQuery, keys: seq<Key<SearchDocument>>,
                      docs: map<string, SearchDocument>, matches: (string, SearchDocument) -> bool)
    requires |q.must| >= 1 && q.must[0] == Term(Status, "published")
    requires forall i :: 0 <= i < |hits| ==> hits[i].source in docs.Values && Accepts(q, hits[i].source, matches)
    requires forall i :: 0 < i < |hits| ==> KeyOrder(keys)(hits[i - 1].source, hits[i].source)
    requires forall a, b :: KeysLeq(keys, a, b) ==> NewerFirst(a, b)
    ensures forall i :: 0 <= i < |hits| ==> MapSeq(hits, HitSource)[i] in docs.Values
    ensures forall i :: 0 <= i < |hits| ==> MapSeq(hits, HitSource)[i].status == "published"
    ensures forall i :: 0 < i < |hits| ==> NewerFirst(MapSeq(hits, HitSource)[i - 1], MapSeq(hits, HitSource)[i])
  {
    var out := MapSeq(hits, HitSource);
    forall i | 0 <= i < |out| ensures out[i] in docs.Values && out[i].status == "published" {
      PublishedOnly(q, hits[i].source, matches);
    }
    forall i | 0 < i < |out| ensures NewerFirst(out[i - 1], out[i]) {
      assert KeysLeq(keys, hits[i - 1].source, hits[i].source);
    }
  }

  /** Hits of a recommendation query, in an order that puts newer
      publications first: published, newest first, like the seed when there
      is one, and never the excluded id. */
  lemma RecommendedHits(hits: seq<Hit>, seed: Option<SearchDocument>, mustNot: Option<seq<Clause>>,
                        keys: seq<Key<SearchDocument>>, docs: map<string, SearchDocument>)
    requires forall i :: 0 <= i < |hits| ==>
      hits[i].source in docs.Values && Accepts(RecommendationQuery(seed, mustNot), hits[i].source, AnyText)
    requires forall i :: 0 < i < |hits| ==> KeyOrder(keys)(hits[i - 1].source, hits[i].source)
    requires forall a, b :: KeysLeq(keys, a, b) ==> NewerFirst(a, b)
    ensures |MapSeq(hits, HitSource)| == |hits|
    ensures forall i :: 0 <= i < |hits| ==> MapSeq(hits, HitSource)[i] in docs.Values
    ensures forall i :: 0 <= i < |hits| ==> MapSeq(hits, HitSource)[i].status == "published"
    ensures forall i :: 0 < i < |hits| ==> NewerFirst(MapSeq(hits, HitSource)[i - 1], MapSeq(hits, HitSource)[i])
    ensures seed.Some? ==> forall i :: 0 <= i < |hits| ==> SameKind(MapSeq(hits, HitSource)[i], seed.value)
    ensures forall id :: mustNot == Some([Term(Id, id)]) ==>
      forall i :: 0 <= i < |hits| ==> MapSeq(hits, HitSource)[i].id != id
  {
    var q := RecommendationQuery(seed, mustNot);
    PublishedHits(hits, q, keys, docs, AnyText);
    var out := MapSeq(hits, HitSource);
    forall i | 0 <= i < |out|
      ensures seed.Some? ==> SameKind(out[i], seed.value)
      ensures forall id :: mustNot == Some([Term(Id, id)]) ==> out[i].id != id
    {
      SimilarAccepted(seed, mustNot, hits[i].source, AnyText);
      if mustNot.Some? && |mustNot.value| == 1 {
        assert !ClauseHolds(mustNot.value[0], hits[i].source, AnyText);
      }
    }
  }
}
