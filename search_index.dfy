/** The search index (`content`) as the discovery service's queries see it:
    the document written for a record, boolean queries of exact keyword
    terms and full-text clauses, sort specifications, the result window and
    the hit total. Full-text matching, relevance scoring and completion are
    the engine's own analysis; they are parameters here. */
module SearchIndex {
  import opened Common
  import opened Ordering
  import opened Entities
  import opened Table
  import opened Pagination
  import opened Counting

  /** The document indexed for a record, keyed by the record's id. */
  datatype SearchDocument = SearchDocument(
    id: string,
    title: string,
    description: Option<string>,
    contentType: string,
    category: string,
    language: string,
    duration: Option<int>,
    thumbnailUrl: Option<string>,
    mediaUrl: Option<string>,
    status: string,
    source: Option<string>,
    sourceData: Option<Json>,
    metadata: Option<Json>,
    tags: Json,
    publishedAt: Option<int>,
    createdAt: int,
    updatedAt: int)

  /** `content.metadata?.tags || []`. */
  function TagsOf(metadata: Option<Json>): (t: Json)
    ensures JsonTruthy(t) || t == JArr([])
    ensures Property(metadata, "tags").Some? && JsonTruthy(Property(metadata, "tags").value)
            ==> t == Property(metadata, "tags").value
  {
    var t := Property(metadata, "tags");
    if t.Some? && JsonTruthy(t.value) then t.value else JArr([])
  }

  /** The document `indexContent` writes: the record's columns except the
      author columns, enums as their strings, plus `tags`. */
  function Project(r: ContentRecord): (d: SearchDocument)
    ensures d.id == r.id && d.tags == TagsOf(r.metadata)
  {
    SearchDocument(r.id, r.title, r.description, TypeName(r.contentType), r.category, r.language,
                   r.duration, r.thumbnailUrl, r.mediaUrl, StatusName(r.status), r.source,
                   r.sourceData, r.metadata, TagsOf(r.metadata), r.publishedAt, r.createdAt, r.updatedAt)
  }

  /** Reads a record back from its document; `None` when a stored enum
      string names no variant. The author columns are not in the index. */
  function Unproject(d: SearchDocument, createdBy: Option<string>, updatedBy: Option<string>): Option<ContentRecord>
  {
    var t := TypeNamed(d.contentType);
    var s := StatusNamed(d.status);
    if t.None? || s.None? then None
    else Some(ContentRecord(d.id, d.title, d.description, t.value, d.category, d.language, d.duration,
                            d.thumbnailUrl, d.mediaUrl, s.value, d.source, d.sourceData, d.metadata,
                            d.publishedAt, createdBy, updatedBy, d.createdAt, d.updatedAt))
  }

  /** The document keeps everything of the record but its authors. */
  lemma ProjectRoundTrip(r: ContentRecord)
    ensures Unproject(Project(r), r.createdBy, r.updatedBy) == Some(r)
  {
  }

  /** The hit columns the search returns, read from a document. */
  function ListingOfDocument(d: SearchDocument): Listing
  {
    Listing(d.id, d.title, d.description, d.contentType, d.category, d.language, d.duration,
            d.thumbnailUrl, d.mediaUrl, d.status, d.source, d.metadata, d.publishedAt,
            d.createdAt, d.updatedAt)
  }

  /** Selecting the hit columns from the document of a record gives the
      columns the store path selects from the record itself. */
  lemma ListingAgrees(r: ContentRecord)
    ensures ListingOfDocument(Project(r)) == ListingOf(r)
  {
  }

  // ------------------------------------------------------------ queries

  /** The keyword value of a field (`keyword` in the mapping). */
  function Keyword(d: SearchDocument, f: Field): Option<string>
  {
    match f
    case Id => Some(d.id)
    case Type => Some(d.contentType)
    case Category => Some(d.category)
    case Language => Some(d.language)
    case Status => Some(d.status)
    case Source => d.source
    case ThumbnailUrl => d.thumbnailUrl
    case MediaUrl => d.mediaUrl
    case _ => None
  }

  /** `{term: {f: v}}` or a `multi_match` of free text. */
  datatype Clause = Term(field: Field, value: string) | MultiMatch(text: string)

  predicate ClauseHolds(c: Clause, d: SearchDocument, matches: (string, SearchDocument) -> bool)
  {
    match c
    case Term(f, v) => Keyword(d, f) == Some(v)
    case MultiMatch(text) => matches(text, d)
  }

  predicate AllHold(cs: seq<Clause>, d: SearchDocument, matches: (string, SearchDocument) -> bool)
  {
    forall i :: 0 <= i < |cs| ==> ClauseHolds(cs[i], d, matches)
  }

  predicate NoneHolds(cs: seq<Clause>, d: SearchDocument, matches: (string, SearchDocument) -> bool)
  {
    forall i :: 0 <= i < |cs| ==> !ClauseHolds(cs[i], d, matches)
  }

  /** `{bool: {must, filter, must_not}}`; `must_not` may be absent from the
      object the service builds, which is `None`. */
  datatype BoolQuery = BoolQuery(must: seq<Clause>, filter: seq<Clause>, mustNot: Option<seq<Clause>>)

  predicate Accepts(q: BoolQuery, d: SearchDocument, matches: (string, SearchDocument) -> bool)
  {
    AllHold(q.must, d, matches) && AllHold(q.filter, d, matches)
    && (q.mustNot.Some? ==> NoneHolds(q.mustNot.value, d, matches))
  }

  function Acceptor(q: BoolQuery, matches: (string, SearchDocument) -> bool): SearchDocument -> bool
  {
    d => Accepts(q, d, matches)
  }

  /** `list.push(c)`: on an absent list it is a `TypeError`. */
  function PushClause(list: Option<seq<Clause>>, c: Clause): (r: Result<seq<Clause>>)
    ensures r.Ok? <==> list.Some?
    ensures r.Ok? ==> r.value == list.value + [c]
    ensures r.Err? ==> r.error.TypeError?
  {
    if list.None? then Err(TypeError("Cannot read properties of undefined (reading 'push')"))
    else Ok(list.value + [c])
  }

  // ------------------------------------------------------------ sorting

  /** `{_score: {order: 'desc'}}` or `{[field]: {order}}`. */
  datatype SortKey = ScoreDesc | FieldSort(name: string, order: string)

  function TagValues(tags: Json): seq<string>
  {
    match tags
    case JStr(s) => [s]
    case JArr(items) => StringItems(items)
    case _ => []
  }

  function StringItems(items: seq<Json>): seq<string>
  {
    if items == [] then []
    else (if items[0].JStr? then [items[0].s] else []) + StringItems(items[1..])
  }

  /** The least (or greatest) of several strings; a multi-valued keyword
      sorts by its least value ascending and its greatest descending. */
  function Extreme(s: seq<string>, least: bool): (r: SortValue)
    ensures s == [] <==> r == Missing
    ensures r.Missing? || r.Str?
    ensures r.Str? ==> r.s in s
  {
    if s == [] then Missing
    else
      var rest := Extreme(s[1..], least);
      if rest.Missing? then Str(s[0])
      else if least == StrLeq(s[0], rest.s) then Str(s[0])
      else rest
  }

  /** The value a field sorts by in the index, or `None` when the engine
      refuses to sort on it: analysed text (`title`, `description`), object
      fields (`sourceData`, `metadata`) and names with no mapping (the author
      columns, anything else). */
  function DocumentSortValue(f: Field, ascending: bool): Option<SearchDocument -> SortValue>
  {
    match f
    case Id => Some((d: SearchDocument) => Str(d.id))
    case Type => Some((d: SearchDocument) => Str(d.contentType))
    case Category => Some((d: SearchDocument) => Str(d.category))
    case Language => Some((d: SearchDocument) => Str(d.language))
    case Status => Some((d: SearchDocument) => Str(d.status))
    case Source => Some((d: SearchDocument) => OptStr(d.source))
    case ThumbnailUrl => Some((d: SearchDocument) => OptStr(d.thumbnailUrl))
    case MediaUrl => Some((d: SearchDocument) => OptStr(d.mediaUrl))
    case Duration => Some((d: SearchDocument) => OptNum(d.duration))
    case PublishedAt => Some((d: SearchDocument) => OptNum(d.publishedAt))
    case CreatedAt => Some((d: SearchDocument) => Num(d.createdAt))
    case UpdatedAt => Some((d: SearchDocument) => Num(d.updatedAt))
    case Tags => Some((d: SearchDocument) => Extreme(TagValues(d.tags), ascending))
    case _ => None
  }

  /** The value a sort name orders by: a mapped field, the `title.keyword`
      sub-field, the relevance score `_score`, or the index order `_doc`;
      `None` for a name the engine refuses to sort on. */
  function SortValueNamed(name: string, ascending: bool, relevance: SearchDocument -> int,
                          position: SearchDocument -> int): Option<SearchDocument -> SortValue>
  {
    if name == "title.keyword" then Some((d: SearchDocument) => Str(d.title))
    else if name == "_score" then Some((d: SearchDocument) => Num(relevance(d)))
    else if name == "_doc" then Some((d: SearchDocument) => Num(position(d)))
    else DocumentSortValue(FieldNamed(name), ascending)
  }

  /** The first position of `x` in `s`, or `|s|` when it is absent. */
  function IndexOf(s: seq<string>, x: string): (i: nat)
    ensures i <= |s|
    ensures i < |s| ==> s[i] == x
    ensures forall j :: 0 <= j < i ==> s[j] != x
  {
    if s == [] then 0
    else if s[0] == x then 0
    else 1 + IndexOf(s[1..], x)
  }

  /** The order `_doc` sorts by: a document's place in the order the index
      is visited. */
  function DocPosition(scan: seq<string>): SearchDocument -> int
  {
    (d: SearchDocument) => IndexOf(scan, d.id)
  }

  /** The engine's failures, by the error type it reports. */
  const IndexNotFound := "index_not_found_exception"
  const IllegalArgument := "illegal_argument_exception"
  const ParsingException := "parsing_exception"
  const QueryShardException := "query_shard_exception"

  /** The sort keys of a request, in order, or the engine's error for an
      order other than `asc`/`desc` or a name it cannot sort on. Missing
      values sort last in both directions. */
  function CompileSort(sort: seq<SortKey>, relevance: SearchDocument -> int, position: SearchDocument -> int)
    : (r: Result<seq<Key<SearchDocument>>>)
    ensures r.Ok? ==> |r.value| == |sort|
    ensures r.Ok? <==> forall i :: 0 <= i < |sort| ==> sort[i].FieldSort? ==>
      (sort[i].order == "asc" || sort[i].order == "desc")
      && SortValueNamed(sort[i].name, sort[i].order == "asc", relevance, position).Some?
    ensures r.Err? ==> r.error.Search?
  {
    if sort == [] then Ok([])
    else
      var rest := CompileSort(sort[1..], relevance, position);
      match sort[0]
      case ScoreDesc =>
        if rest.Err? then rest else Ok([Key(d => Num(relevance(d)), false, false)] + rest.value)
      case FieldSort(name, order) =>
        if order != "asc" && order != "desc" then
          Err(Search(ParsingException))
        else
          var v := SortValueNamed(name, order == "asc", relevance, position);
          if v.None? then Err(Search(QueryShardException))
          else if rest.Err? then rest
          else Ok([Key(v.value, order == "asc", false)] + rest.value)
  }

  predicate Tracked(sort: seq<SortKey>)
  {
    ScoreDesc in sort
  }

  // ------------------------------------------------------------ totals

  /** `hits.total` as the engine may report it: a bare number (older
      versions), an object whose `value` may be absent, or nothing. */
  datatype HitsTotal = TotalNumber(n: int) | TotalObject(value: Option<int>) | TotalAbsent

  /** `typeof total === 'number' ? total : total?.value || 0`. */
  function ExtractTotal(t: HitsTotal): (n: int)
    ensures t.TotalNumber? ==> n == t.n
    ensures t.TotalObject? && t.value.Some? ==> n == t.value.value
    ensures t.TotalAbsent? || t == TotalObject(None) ==> n == 0
  {
    match t
    case TotalNumber(n) => n
    case TotalObject(v) => if v.Some? && v.value != 0 then v.value else 0
    case TotalAbsent => 0
  }

  /** Hits are counted exactly up to this bound (`track_total_hits`). */
  const TrackTotalHits := 10000

  /** `from + size` may not exceed this (`index.max_result_window`). */
  const MaxResultWindow := 10000

  // ------------------------------------------------------------ facets

  /** The `duration_ranges` buckets: `from` inclusive, `to` exclusive. */
  const DurationRanges: seq<(Option<int>, Option<int>)> :=
    [(None, Some(300)), (Some(300), Some(900)), (Some(900), Some(1800)), (Some(1800), None)]

  predicate InRange(d: int, range: (Option<int>, Option<int>))
  {
    (range.0.Some? ==> range.0.value <= d) && (range.1.Some? ==> d < range.1.value)
  }

  function Bucket(d: int): (i: nat)
    ensures i < |DurationRanges| && InRange(d, DurationRanges[i])
  {
    if d < 300 then 0 else if d < 900 then 1 else if d < 1800 then 2 else 3
  }

  /** The four ranges are disjoint and cover every duration: each falls in
      exactly one bucket. */
  lemma BucketsPartition(d: int, i: nat)
    requires i < |DurationRanges|
    ensures InRange(d, DurationRanges[i]) <==> i == Bucket(d)
  {
  }

  /** How many of `ds` fall in range `i`. */
  function BucketCount(ds: seq<int>, i: nat): nat
    requires i < |DurationRanges|
  {
    if ds == [] then 0
    else BucketCount(ds[..|ds| - 1], i) + (if InRange(ds[|ds| - 1], DurationRanges[i]) then 1 else 0)
  }

  /** The four bucket counts add up to the number of durations. */
  lemma {:induction false} BucketCountsSum(ds: seq<int>)
    ensures BucketCount(ds, 0) + BucketCount(ds, 1) + BucketCount(ds, 2) + BucketCount(ds, 3) == |ds|
  {
    if ds != [] {
      BucketCountsSum(ds[..|ds| - 1]);
      var d := ds[|ds| - 1];
      BucketsPartition(d, 0);
      BucketsPartition(d, 1);
      BucketsPartition(d, 2);
      BucketsPartition(d, 3);
    }
  }

  function Durations(docs: seq<SearchDocument>): (ds: seq<int>)
    ensures |ds| <= |docs|
  {
    if docs == [] then []
    else
      var rest := Durations(docs[1..]);
      if docs[0].duration.Some? then [docs[0].duration.value] + rest else rest
  }

  function Keywords(docs: seq<SearchDocument>, f: Field): seq<string>
  {
    if docs == [] then []
    else
      var k := Keyword(docs[0], f);
      (if k.Some? then [k.value] else []) + Keywords(docs[1..], f)
  }

  /** A `terms` aggregation: the documents per distinct value of a field. */
  function TermBuckets(docs: seq<SearchDocument>, f: Field): (m: map<string, nat>)
    ensures forall v :: v in m <==> v in Keywords(docs, f)
  {
    var values := Keywords(docs, f);
    map v | v in values :: multiset(values)[v]
  }

  datatype Facets = Facets(
    types: map<string, nat>,
    categories: map<string, nat>,
    sources: map<string, nat>,
    durations: seq<nat>)

  function FacetsOf(docs: seq<SearchDocument>): (a: Facets)
    ensures |a.durations| == |DurationRanges|
  {
    var ds := Durations(docs);
    Facets(TermBuckets(docs, Type), TermBuckets(docs, Category), TermBuckets(docs, Source),
           [BucketCount(ds, 0), BucketCount(ds, 1), BucketCount(ds, 2), BucketCount(ds, 3)])
  }

  // ------------------------------------------------------------ execution

  datatype SearchBody = SearchBody(query: BoolQuery, sort: seq<SortKey>, from: int, size: int, aggregate: bool)

  /** One hit: the stored document and `_score`, which is only computed when
      the sort asks for it. */
  datatype Hit = Hit(source: SearchDocument, score: Option<int>)

  function HitSource(h: Hit): SearchDocument
  {
    h.source
  }

  datatype SearchResponse = SearchResponse(hits: seq<Hit>, total: HitsTotal, aggregations: Option<Facets>)

  /** The documents `accept` admits, in scan order. */
  function Matching(docs: map<string, SearchDocument>, scan: seq<string>, accept: SearchDocument -> bool)
    : (r: seq<SearchDocument>)
    requires IsListing(scan, docs)
    ensures |r| <= |scan|
    ensures forall i :: 0 <= i < |r| ==> r[i] in docs.Values && accept(r[i])
  {
    var all := Scan(docs, scan);
    assert forall i :: 0 <= i < |all| ==> all[i] in docs.Values by {
      forall i | 0 <= i < |all| ensures all[i] in docs.Values {
        assert docs[scan[i]] == all[i];
      }
    }
    Filter(all, accept)
  }

  /** The admitted documents in sort order, ties in scan order. */
  function Ranked(docs: map<string, SearchDocument>, scan: seq<string>, accept: SearchDocument -> bool,
                  keys: seq<Key<SearchDocument>>): (r: seq<SearchDocument>)
    requires IsListing(scan, docs)
    ensures multiset(r) == multiset(Matching(docs, scan, accept))
    ensures Sorted(r, KeyOrder(keys))
    ensures forall i :: 0 <= i < |r| ==> r[i] in docs.Values && accept(r[i])
  {
    KeyOrderTotal(keys);
    var m := Matching(docs, scan, accept);
    var r := Sort(m, KeyOrder(keys));
    assert forall i :: 0 <= i < |r| ==> r[i] in multiset(m);
    r
  }

  function ToHit(tracked: bool, relevance: SearchDocument -> int): SearchDocument -> Hit
  {
    d => Hit(d, if tracked then Some(relevance(d)) else None)
  }

  predicate WindowAllowed(from: int, size: int)
  {
    0 <= from && 0 <= size && from + size <= MaxResultWindow
  }

  /** A search request against the index: an error when the index does not
      exist, the window is out of bounds or the sort is refused; otherwise
      one window of the ranked hits, the total counted up to the tracking
      bound, and the facets of every accepted document when asked for. */
  function Execute(exists_: bool, docs: map<string, SearchDocument>, scan: seq<string>, body: SearchBody,
                   matches: (string, SearchDocument) -> bool, relevance: SearchDocument -> int)
    : (r: Result<SearchResponse>)
    requires IsListing(scan, docs)
    ensures r.Ok? <==> exists_ && WindowAllowed(body.from, body.size) && CompileSort(body.sort, relevance, DocPosition(scan)).Ok?
    ensures r.Ok? ==> |r.value.hits| <= body.size
    ensures r.Ok? ==> r.value.total == TotalObject(Some(Min(|Matching(docs, scan, Acceptor(body.query, matches))|, TrackTotalHits)))
    ensures r.Ok? ==> r.value.hits == MapSeq(Window(Ranked(docs, scan, Acceptor(body.query, matches), CompileSort(body.sort, relevance, DocPosition(scan)).value),
                                                    body.from, body.size),
                                             ToHit(Tracked(body.sort), relevance))
    ensures r.Ok? ==> (r.value.aggregations.Some? <==> body.aggregate)
    ensures r.Err? ==> r.error.Search?
  {
    if !exists_ then Err(Search(IndexNotFound))
    else if !WindowAllowed(body.from, body.size) then
      Err(Search(IllegalArgument))
    else
      var keys := CompileSort(body.sort, relevance, DocPosition(scan));
      if keys.Err? then Err(keys.error)
      else
        var matching := Matching(docs, scan, Acceptor(body.query, matches));
        var ranked := Ranked(docs, scan, Acceptor(body.query, matches), keys.value);
        Ok(SearchResponse(MapSeq(Window(ranked, body.from, body.size), ToHit(Tracked(body.sort), relevance)),
                          TotalObject(Some(Min(|matching|, TrackTotalHits))),
                          if body.aggregate then Some(FacetsOf(matching)) else None))
  }

  lemma WindowSorted<T>(s: seq<T>, leq: (T, T) -> bool, skip: nat, take: nat)
    requires Sorted(s, leq)
    ensures Sorted(Window(s, skip, take), leq)
  {
    var w := Window(s, skip, take);
    forall i | 0 < i < |w| ensures leq(w[i - 1], w[i]) {
      assert w[i - 1] == s[skip + i - 1] && w[i] == s[skip + i];
    }
  }

  /** The hits made from a window of ranked documents are those documents,
      in their order. */
  lemma WindowHits(ranked: seq<SearchDocument>, from: nat, size: nat, tracked: bool,
                   relevance: SearchDocument -> int, keep: SearchDocument -> bool, leq: (SearchDocument, SearchDocument) -> bool)
    requires forall i :: 0 <= i < |ranked| ==> keep(ranked[i])
    requires Sorted(ranked, leq)
    ensures var hits := MapSeq(Window(ranked, from, size), ToHit(tracked, relevance));
      (forall i :: 0 <= i < |hits| ==> keep(hits[i].source))
      && (forall i :: 0 < i < |hits| ==> leq(hits[i - 1].source, hits[i].source))
  {
    var w := Window(ranked, from, size);
    WindowSorted(ranked, leq, from, size);
    var hits := MapSeq(w, ToHit(tracked, relevance));
    assert forall i :: 0 <= i < |hits| ==> hits[i].source == w[i];
  }

  /** Every hit a successful search returns is a stored document the query
      accepts, and the hits come in the sort order the request asked for. */
  lemma ExecuteHits(exists_: bool, docs: map<string, SearchDocument>, scan: seq<string>, body: SearchBody,
                    matches: (string, SearchDocument) -> bool, relevance: SearchDocument -> int)
    requires IsListing(scan, docs)
    requires Execute(exists_, docs, scan, body, matches, relevance).Ok?
    ensures var hits := Execute(exists_, docs, scan, body, matches, relevance).value.hits;
      (forall i :: 0 <= i < |hits| ==> hits[i].source in docs.Values && Accepts(body.query, hits[i].source, matches))
      && (forall i :: 0 < i < |hits| ==>
            KeyOrder(CompileSort(body.sort, relevance, DocPosition(scan)).value)(hits[i - 1].source, hits[i].source))
  {
    var keys := CompileSort(body.sort, relevance, DocPosition(scan)).value;
    var ranked := Ranked(docs, scan, Acceptor(body.query, matches), keys);
    var keep := (d: SearchDocument) => d in docs.Values && Accepts(body.query, d, matches);
    WindowHits(ranked, body.from, body.size, Tracked(body.sort), relevance, keep, KeyOrder(keys));
  }
}
