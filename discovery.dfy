/** The discovery API's reads from the canonical PostgreSQL store: search
    with a `where` object built field by field, the published-only lookup by
    id, the featured and by-type lists, the distinct categories and
    languages, and the per-value counts. Nothing here changes the store; each
    operation reads one snapshot of it. */
module Discovery {
  import opened Common
  import opened Ordering
  import opened Entities
  import opened Pagination
  import opened Table
  import opened Counting
  import opened SearchDto

  /** A snapshot of the `content` table: its rows in scan order, and how
      PostgreSQL compares two `jsonb` values (left uninterpreted). */
  datatype Store = Store(rows: seq<ContentRecord>, jsonbKey: Json -> SortValue)

  function SchemaOf(store: Store): Schema
  {
    DiscoverySchema(store.jsonbKey)
  }

  /** One page of a store search. */
  datatype StorePage = StorePage(data: seq<Listing>, total: nat, page: int, limit: int, totalPages: nat, hasMore: bool)

  /** What a store search asks of a returned row, read off the parameters:
      the status always, the title only for a non-empty `q`, the language
      unless it is empty, and the other equalities only when given and
      non-empty. */
  predicate Shows(p: SearchParams, l: Listing)
  {
    && l.status == p.status
    && (Truthy(p.q) ==> TitleMatches(l.title, p.q.value, true))
    && (Truthy(p.contentType) ==> l.contentType == p.contentType.value)
    && (Truthy(p.category) ==> l.category == p.category.value)
    && (p.language != "" ==> l.language == p.language)
    && (Truthy(p.source) ==> l.source == p.source)
  }

  function ShownBy(p: SearchParams): ContentRecord -> bool
  {
    r => Shows(p, ListingOf(r))
  }

  /** `Shows` with only the first `k` properties of the `where` object. */
  predicate ShowsUpTo(p: SearchParams, l: Listing, k: nat)
  {
    && l.status == p.status
    && (k >= 2 && Truthy(p.q) ==> TitleMatches(l.title, p.q.value, true))
    && (k >= 3 && Truthy(p.contentType) ==> l.contentType == p.contentType.value)
    && (k >= 4 && Truthy(p.category) ==> l.category == p.category.value)
    && (k >= 5 && p.language != "" ==> l.language == p.language)
    && (k >= 6 && Truthy(p.source) ==> l.source == p.source)
  }

  /** Property `k + 1` of the `where` object, when its parameter is given. */
  function StageClause(p: SearchParams, k: nat): seq<Condition>
  {
    if k == 1 then (if Truthy(p.q) then [TitleLike(p.q.value, true)] else [])
    else if k == 2 then (if Truthy(p.contentType) then [Eq(Type, p.contentType.value)] else [])
    else if k == 3 then (if Truthy(p.category) then [Eq(Category, p.category.value)] else [])
    else if k == 4 then (if p.language != "" then [Eq(Language, p.language)] else [])
    else if k == 5 then (if Truthy(p.source) then [Eq(Source, p.source.value)] else [])
    else []
  }

  /** `w` stands for the first `k` properties: it admits exactly the rows
      they show, and the database accepts it exactly when the status, and
      the type once it is among them, are labels of their enums. */
  ghost predicate Describes(p: SearchParams, w: seq<Condition>, k: nat)
  {
    && (forall r :: SatisfiesAll(r, w) <==> ShowsUpTo(p, ListingOf(r), k))
    && (Admissible(w).Pass? <==>
          StatusNamed(p.status).Some? && (k >= 3 && Truthy(p.contentType) ==> TypeNamed(p.contentType.value).Some?))
  }

  /** The status alone stands for the first property. */
  lemma StatusStage(p: SearchParams)
    ensures Describes(p, [Eq(Status, p.status)], 1)
  {
    var w := [Eq(Status, p.status)];
    assert forall r :: SatisfiesAll(r, w) <==> Satisfies(r, w[0]);
  }

  /** Adding property `k + 1` to a `where` object that stands for the first
      `k` gives one that stands for the first `k + 1`. */
  lemma Stage(p: SearchParams, w: seq<Condition>, k: nat)
    requires 1 <= k <= 5 && Describes(p, w, k)
    ensures Describes(p, w + StageClause(p, k), k + 1)
  {
    var cs := StageClause(p, k);
    if cs == [] {
      assert w + cs == w;
    } else {
      var c := cs[0];
      assert cs == [c];
      forall r ensures SatisfiesAll(r, w + cs) <==> ShowsUpTo(p, ListingOf(r), k + 1) {
        SatisfiesAllSnoc(r, w, c);
      }
      AdmissibleSnoc(w, c);
    }
  }

  /** All six properties are the search. */
  lemma AllStages(p: SearchParams, w: seq<Condition>)
    requires Describes(p, w, 6)
    ensures forall r :: SatisfiesAll(r, w) <==> Shows(p, ListingOf(r))
    ensures Admissible(w).Pass? <==>
      StatusNamed(p.status).Some? && (Truthy(p.contentType) ==> TypeNamed(p.contentType.value).Some?)
  {
  }

  /** The `where` object of a store search, one property at a time. A row
      meets it exactly when the search shows the row, and the database
      accepts it exactly when the status and any given type are labels of
      their enums. */
  method SearchWhere(p: SearchParams) returns (w: seq<Condition>)
    ensures forall r :: SatisfiesAll(r, w) <==> Shows(p, ListingOf(r))
    ensures Admissible(w).Pass? <==>
      StatusNamed(p.status).Some? && (Truthy(p.contentType) ==> TypeNamed(p.contentType.value).Some?)
  {
    w := [Eq(Status, p.status)];
    StatusStage(p);
    Stage(p, w, 1);
    if Truthy(p.q) {
      w := w + [TitleLike(p.q.value, true)];
    } else {
      assert w == w + StageClause(p, 1);
    }
    Stage(p, w, 2);
    if Truthy(p.contentType) {
      w := w + [Eq(Type, p.contentType.value)];
    } else {
      assert w == w + StageClause(p, 2);
    }
    Stage(p, w, 3);
    if Truthy(p.category) {
      w := w + [Eq(Category, p.category.value)];
    } else {
      assert w == w + StageClause(p, 3);
    }
    Stage(p, w, 4);
    if p.language != "" {
      w := w + [Eq(Language, p.language)];
    } else {
      assert w == w + StageClause(p, 4);
    }
    Stage(p, w, 5);
    if Truthy(p.source) {
      w := w + [Eq(Source, p.source.value)];
    } else {
      assert w == w + StageClause(p, 5);
    }
    AllStages(p, w);
  }

  /** `searchContent` on the store: the rows the request shows, counted in
      full, ordered by `sortBy` and cut to page `page` of `limit` rows, with
      the selected columns of each. */
  method SearchContent(store: Store, d: SearchRequest) returns (r: Result<StorePage>)
    requires SearchDto.Valid(d)
    ensures r.Ok? <==> Orderable(SchemaOf(store), FieldNamed(Resolve(d).sortBy))
    ensures r.Err? ==> r.error.Database?
    ensures var p := Resolve(d);
      r.Ok? ==> && r.value.total == |Filter(store.rows, ShownBy(p))|
                && r.value.page == p.page && r.value.limit == p.limit
                && r.value.totalPages == TotalPages(r.value.total, p.limit)
                && r.value.hasMore == HasMore(p.page, r.value.totalPages)
    ensures var p := Resolve(d);
      r.Ok? ==> r.value.data == MapSeq(Window(OrderRows(SchemaOf(store), Filter(store.rows, ShownBy(p)),
                                                        p.sortBy, p.sortOrder).value,
                                              Skip(p.page, p.limit), p.limit), ListingOf)
    ensures r.Ok? ==> |r.value.data| <= r.value.limit
    ensures r.Ok? ==> forall i :: 0 <= i < |r.value.data| ==> Shows(Resolve(d), r.value.data[i])
  {
    var p := Resolve(d);
    ResolveValid(d);
    var w := SearchWhere(p);
    FilterExt(store.rows, Matcher(w), ShownBy(p));
    var found := FindAndCount(SchemaOf(store), store.rows, w, p.sortBy, p.sortOrder, Skip(p.page, p.limit), p.limit);
    if found.Err? {
      return Err(found.error);
    }
    var rows := found.value.0;
    var total := found.value.1;
    var totalPages := TotalPages(total, p.limit);
    r := Ok(StorePage(MapSeq(rows, ListingOf), total, p.page, p.limit, totalPages, HasMore(p.page, totalPages)));
  }

  /** `getContentById`: a stored, published row with that id; NotFound for
      a uuid that names none; the database's error for an id that is not a
      uuid. */
  function GetContentById(store: Store, id: string): (r: Result<ContentRecord>)
    ensures r.Ok? <==> IsUuid(id) && exists i :: 0 <= i < |store.rows| && store.rows[i].id == id && store.rows[i].status == Published
    ensures r.Ok? ==> r.value in store.rows && r.value.id == id && r.value.status == Published
    ensures !IsUuid(id) ==> r == Err(Database(UuidMessage(id)))
    ensures IsUuid(id) && r.Err? ==> r.error == NotFound("Content with ID " + id + " not found or not published")
  {
    var w := [Eq(Id, id), Eq(Status, "published")];
    if Admissible(w).Fail? then
      assert CheckCondition(w[0]).Fail? by { assert CheckCondition(w[1]).Pass?; }
      Err(Admissible(w).error)
    else
      assert forall x :: SatisfiesAll(x, w) <==> x.id == id && x.status == Published by {
        forall x ensures SatisfiesAll(x, w) <==> x.id == id && x.status == Published {
          assert Satisfies(x, w[0]) && Satisfies(x, w[1]) ==> SatisfiesAll(x, w);
          assert StatusName(x.status) == "published" <==> x.status == Published;
        }
      }
      var found := FirstWhere(store.rows, w);
      if found.None? then Err(NotFound("Content with ID " + id + " not found or not published"))
      else Ok(found.value)
  }

  predicate IsPublished(r: ContentRecord)
  {
    r.status == Published
  }

  function PublishedRows(rows: seq<ContentRecord>): seq<ContentRecord>
  {
    Filter(rows, IsPublished)
  }

  /** `publishedAt DESC`: `a` may come before `b` when it was published no
      earlier, rows without a date first (NULL is the largest value). */
  predicate PublishedNoEarlier(a: Option<int>, b: Option<int>)
  {
    ValueLeq(OptNum(a), OptNum(b), false, true)
  }

  lemma PublishedAtOrder(schema: Schema, a: ContentRecord, b: ContentRecord)
    requires ColumnOrder(schema, PublishedAt, false)(a, b)
    ensures PublishedNoEarlier(a.publishedAt, b.publishedAt)
  {
  }

  /** The newest-first query on an admissible filter succeeds, keeps every
      match up to `take`, and orders by publication date. */
  lemma NewestFound(schema: Schema, rows: seq<ContentRecord>, w: seq<Condition>, take: nat)
    requires Admissible(w).Pass?
    ensures var found := Find(schema, rows, w, "publishedAt", "DESC", take);
      && found.Ok?
      && (take > 0 ==> |found.value| == Min(take, |Filter(rows, Matcher(w))|))
      && (take == 0 ==> |found.value| == |Filter(rows, Matcher(w))|)
      && forall i :: 0 < i < |found.value| ==>
           PublishedNoEarlier(found.value[i - 1].publishedAt, found.value[i].publishedAt)
  {
    assert FieldNamed("publishedAt") == PublishedAt;
    var found := Find(schema, rows, w, "publishedAt", "DESC", take);
    var matching := Filter(rows, Matcher(w));
    var ordered := OrderRows(schema, matching, "publishedAt", "DESC").value;
    assert |ordered| == |matching| by {
      assert |multiset(ordered)| == |multiset(matching)|;
    }
    forall i | 0 < i < |found.value|
      ensures PublishedNoEarlier(found.value[i - 1].publishedAt, found.value[i].publishedAt)
    {
      PublishedAtOrder(schema, found.value[i - 1], found.value[i]);
    }
  }

  /** `order: {publishedAt: 'DESC'}, take`: the rows newest first (ties in
      scan order), cut to `take` (all of them when `take` is zero). */
  function NewestRows(schema: Schema, rows: seq<ContentRecord>, take: nat): seq<ContentRecord>
  {
    assert FieldNamed("publishedAt") == PublishedAt;
    TakeRows(OrderRows(schema, rows, "publishedAt", "DESC").value, take)
  }

  /** The newest matching rows first, at most `take` of them (every one
      when `take` is zero), as cards. */
  function LatestCards(schema: Schema, rows: seq<ContentRecord>, w: seq<Condition>, take: nat): (r: seq<Card>)
    requires Admissible(w).Pass?
    ensures r == MapSeq(NewestRows(schema, Filter(rows, Matcher(w)), take), CardOf)
    ensures forall i :: 0 <= i < |r| ==> r[i] in MapSeq(Filter(rows, Matcher(w)), CardOf)
    ensures take > 0 ==> |r| == Min(take, |Filter(rows, Matcher(w))|)
    ensures take == 0 ==> |r| == |Filter(rows, Matcher(w))|
    ensures forall i :: 0 < i < |r| ==> PublishedNoEarlier(r[i - 1].publishedAt, r[i].publishedAt)
  {
    NewestFound(schema, rows, w, take);
    var found := Find(schema, rows, w, "publishedAt", "DESC", take).value;
    MapSeqMembers(found, Filter(rows, Matcher(w)), CardOf);
    MapSeq(found, CardOf)
  }

  /** PostgreSQL's message for a negative `LIMIT`. */
  const NegativeLimit := "LIMIT must not be negative"

  /** `getFeaturedContent`: the newest published rows, ten by default; a
      negative limit reaches the database as a negative `LIMIT`. */
  function GetFeaturedContent(store: Store, limit: Option<int>): (r: Result<seq<Card>>)
    ensures r.Ok? <==> Default(limit, 10) >= 0
    ensures r.Err? ==> r.error == Database(NegativeLimit)
    ensures r.Ok? ==> r.value == MapSeq(NewestRows(SchemaOf(store), PublishedRows(store.rows), Default(limit, 10)), CardOf)
    ensures r.Ok? ==> forall i :: 0 <= i < |r.value| ==> r.value[i] in MapSeq(PublishedRows(store.rows), CardOf)
    ensures r.Ok? && Default(limit, 10) > 0 ==> |r.value| == Min(Default(limit, 10), |PublishedRows(store.rows)|)
    ensures r.Ok? && Default(limit, 10) == 0 ==> |r.value| == |PublishedRows(store.rows)|
    ensures r.Ok? ==> forall i :: 0 < i < |r.value| ==> PublishedNoEarlier(r.value[i - 1].publishedAt, r.value[i].publishedAt)
  {
    var n := Default(limit, 10);
    if n < 0 then Err(Database(NegativeLimit))
    else
      var w := [Eq(Status, "published")];
      assert CheckCondition(w[0]).Pass?;
      assert forall x :: SatisfiesAll(x, w) <==> IsPublished(x) by {
        forall x ensures SatisfiesAll(x, w) <==> IsPublished(x) {
          assert StatusName(x.status) == "published" <==> x.status == Published;
          assert Satisfies(x, w[0]) ==> SatisfiesAll(x, w);
        }
      }
      FilterExt(store.rows, Matcher(w), IsPublished);
      Ok(LatestCards(SchemaOf(store), store.rows, w, n))
  }

  predicate PublishedOfType(t: ContentType, r: ContentRecord)
  {
    r.contentType == t && r.status == Published
  }

  /** `getContentByType`: the newest published rows of one type, twenty by
      default. A name that is not a label of the type enum is a database
      error, raised before a negative limit is. */
  function GetContentByType(store: Store, contentType: string, limit: Option<int>): (r: Result<seq<Card>>)
    ensures r.Ok? <==> TypeNamed(contentType).Some? && Default(limit, 20) >= 0
    ensures TypeNamed(contentType).None? ==> r == Err(Database(EnumMessage("content_type_enum", contentType)))
    ensures TypeNamed(contentType).Some? && Default(limit, 20) < 0 ==> r == Err(Database(NegativeLimit))
    ensures r.Ok? ==> r.value == MapSeq(NewestRows(SchemaOf(store), Filter(store.rows, x => PublishedOfType(TypeNamed(contentType).value, x)),
                                                   Default(limit, 20)), CardOf)
    ensures r.Ok? ==> forall i :: 0 <= i < |r.value| ==>
      r.value[i] in MapSeq(Filter(store.rows, x => PublishedOfType(TypeNamed(contentType).value, x)), CardOf)
    ensures r.Ok? ==> forall i :: 0 <= i < |r.value| ==> Some(r.value[i].contentType) == TypeNamed(contentType)
    ensures r.Ok? ==> Default(limit, 20) > 0 ==> |r.value| <= Default(limit, 20)
    ensures r.Ok? ==> forall i :: 0 < i < |r.value| ==> PublishedNoEarlier(r.value[i - 1].publishedAt, r.value[i].publishedAt)
  {
    var w := [Eq(Type, contentType), Eq(Status, "published")];
    assert CheckCondition(w[1]).Pass?;
    if TypeNamed(contentType).None? then
      assert CheckCondition(w[0]).Fail?;
      Err(Database(EnumMessage("content_type_enum", contentType)))
    else if Default(limit, 20) < 0 then Err(Database(NegativeLimit))
    else
      var t := TypeNamed(contentType).value;
      assert CheckCondition(w[0]).Pass?;
      TypedWhere(contentType, t, w);
      FilterExt(store.rows, Matcher(w), x => PublishedOfType(t, x));
      var r := LatestCards(SchemaOf(store), store.rows, w, Default(limit, 20));
      CardsOfType(store.rows, t, r);
      Ok(r)
  }

  function TypeOf(r: ContentRecord): ContentType { r.contentType }
  function CategoryOf(r: ContentRecord): string { r.category }
  function LanguageOf(r: ContentRecord): string { r.language }

  lemma TypedWhere(contentType: string, t: ContentType, w: seq<Condition>)
    requires TypeName(t) == contentType && w == [Eq(Type, contentType), Eq(Status, "published")]
    ensures forall x :: SatisfiesAll(x, w) <==> PublishedOfType(t, x)
  {
    forall x ensures SatisfiesAll(x, w) <==> PublishedOfType(t, x) {
      assert StatusName(x.status) == "published" <==> x.status == Published;
      assert TypeNamed(TypeName(x.contentType)) == Some(x.contentType);
      assert Satisfies(x, w[0]) && Satisfies(x, w[1]) ==> SatisfiesAll(x, w);
    }
  }

  lemma CardsOfType(rows: seq<ContentRecord>, t: ContentType, r: seq<Card>)
    requires forall i :: 0 <= i < |r| ==> r[i] in MapSeq(Filter(rows, x => PublishedOfType(t, x)), CardOf)
    ensures forall i :: 0 <= i < |r| ==> r[i].contentType == t
  {
    var typed := Filter(rows, x => PublishedOfType(t, x));
    forall i | 0 <= i < |r| ensures r[i].contentType == t {
      var k :| 0 <= k < |typed| && MapSeq(typed, CardOf)[k] == r[i];
      assert PublishedOfType(t, typed[k]);
    }
  }

  /** The values `f` takes on published rows, in scan order. */
  function PublishedValues<T>(rows: seq<ContentRecord>, f: ContentRecord -> T): seq<T>
  {
    MapSeq(PublishedRows(rows), f)
  }

  lemma PublishedValuesMembers<T>(rows: seq<ContentRecord>, f: ContentRecord -> T, v: T)
    ensures v in PublishedValues(rows, f) <==> exists i :: 0 <= i < |rows| && IsPublished(rows[i]) && f(rows[i]) == v
  {
    var pub := PublishedRows(rows);
    if v in PublishedValues(rows, f) {
      var k :| 0 <= k < |pub| && f(pub[k]) == v;
      var i :| 0 <= i < |rows| && rows[i] == pub[k];
    }
    if exists i :: 0 <= i < |rows| && IsPublished(rows[i]) && f(rows[i]) == v {
      var i :| 0 <= i < |rows| && IsPublished(rows[i]) && f(rows[i]) == v;
      var k :| 0 <= k < |pub| && pub[k] == rows[i];
      assert PublishedValues(rows, f)[k] == v;
    }
  }

  /** `SELECT DISTINCT category … WHERE status = 'published'`: each category
      of a published row once. */
  function GetCategories(store: Store): (r: seq<string>)
    ensures NoDuplicates(r)
    ensures forall c :: c in r <==> exists i :: 0 <= i < |store.rows| && IsPublished(store.rows[i]) && store.rows[i].category == c
  {
    var f := CategoryOf;
    forall c ensures c in PublishedValues(store.rows, f) <==>
      exists i :: 0 <= i < |store.rows| && IsPublished(store.rows[i]) && store.rows[i].category == c {
      PublishedValuesMembers(store.rows, f, c);
    }
    Distinct(PublishedValues(store.rows, f))
  }

  /** `SELECT DISTINCT language … WHERE status = 'published'`. */
  function GetLanguages(store: Store): (r: seq<string>)
    ensures NoDuplicates(r)
    ensures forall l :: l in r <==> exists i :: 0 <= i < |store.rows| && IsPublished(store.rows[i]) && store.rows[i].language == l
  {
    var f := LanguageOf;
    forall l ensures l in PublishedValues(store.rows, f) <==>
      exists i :: 0 <= i < |store.rows| && IsPublished(store.rows[i]) && store.rows[i].language == l {
      PublishedValuesMembers(store.rows, f, l);
    }
    Distinct(PublishedValues(store.rows, f))
  }

  datatype Stats = Stats(
    total: nat,
    byType: map<string, Option<int>>,
    byCategory: map<string, Option<int>>,
    byLanguage: map<string, Option<int>>)

  /** `m` counts `vals` per name: a key for each value present and no other,
      each mapped to its number of occurrences, and the counts of the
      distinct values add up to `total`; a value named `__proto__` is
      counted in the total but has no key. */
  ghost predicate CountsOf<T(!new)>(m: map<string, Option<int>>, vals: seq<T>, name: T -> string, total: nat)
  {
    && (forall k :: k in m <==> k != ProtoKey && exists x :: x in vals && name(x) == k)
    && (forall x :: x in vals && name(x) != ProtoKey ==> m[name(x)] == Some(multiset(vals)[x]))
    && SumCounts(multiset(vals), Distinct(vals)) == total
  }

  /** One `GROUP BY … COUNT(*)` query folded by `reduce`. */
  method CountBy<T(==,!new)>(vals: seq<T>, name: T -> string) returns (m: map<string, Option<int>>)
    requires forall a, b :: a in vals && b in vals && name(a) == name(b) ==> a == b
    ensures CountsOf(m, vals, name, |vals|)
  {
    var keys := Distinct(vals);
    m := ReduceCounts(GroupCounts(vals, keys, name));
    ReducedGroupCounts(vals, keys, name);
    DistinctCountsSum(vals);
  }

  /** `getContentStats`: the number of published rows, and the published
      rows counted per type, category and language. */
  method GetContentStats(store: Store) returns (s: Stats)
    ensures s.total == |PublishedRows(store.rows)|
    ensures CountsOf(s.byType, PublishedValues(store.rows, TypeOf), TypeName, s.total)
    ensures CountsOf(s.byCategory, PublishedValues(store.rows, CategoryOf), (c: string) => c, s.total)
    ensures CountsOf(s.byLanguage, PublishedValues(store.rows, LanguageOf), (l: string) => l, s.total)
  {
    var total := |PublishedRows(store.rows)|;
    var types := PublishedValues(store.rows, TypeOf);
    forall a, b | TypeName(a) == TypeName(b) ensures a == b {
      assert TypeNamed(TypeName(a)) == Some(a);
    }
    var byType := CountBy(types, TypeName);
    var byCategory := CountBy(PublishedValues(store.rows, CategoryOf), (c: string) => c);
    var byLanguage := CountBy(PublishedValues(store.rows, LanguageOf), (l: string) => l);
    s := Stats(total, byType, byCategory, byLanguage);
  }
}
