/** The discovery search request (`SearchContentDto`): every field optional,
    with declared bounds and defaults. No validation pipe is installed, so the
    bounds are an obligation on callers (the predicate `Valid`) and the
    defaults are the ones the services destructure with. */
module SearchDto {
  import opened Common
  import opened Entities

  datatype SearchRequest = SearchRequest(
    q: Option<string>,
    contentType: Option<string>,
    status: Option<string>,
    category: Option<string>,
    language: Option<string>,
    source: Option<string>,
    page: Option<int>,
    limit: Option<int>,
    sortBy: Option<string>,
    sortOrder: Option<string>,
    includeExternal: Option<bool>,
    minDuration: Option<int>,
    maxDuration: Option<int>,
    publishedAfter: Option<string>,
    publishedBefore: Option<string>,
    tags: Option<seq<string>>,
    searchMode: Option<string>)

  /** The request with only defaults: no field given. */
  const Empty := SearchRequest(None, None, None, None, None, None, None, None, None, None,
                               None, None, None, None, None, None, None)

  /** The declared constraints: enum members for `type` and `status`, `page`
      at least 1, `limit` within [1, 100], durations non-negative. `sortOrder`
      and `searchMode` are only required to be strings. */
  predicate Valid(d: SearchRequest)
  {
    && (d.contentType.Some? ==> TypeNamed(d.contentType.value).Some?)
    && (d.status.Some? ==> StatusNamed(d.status.value).Some?)
    && (d.page.Some? ==> d.page.value >= 1)
    && (d.limit.Some? ==> 1 <= d.limit.value <= 100)
    && (d.minDuration.Some? ==> d.minDuration.value >= 0)
    && (d.maxDuration.Some? ==> d.maxDuration.value >= 0)
  }

  /** The request after the destructuring defaults both search paths apply
      (a default replaces only an absent field, never an empty one). */
  datatype SearchParams = SearchParams(
    q: Option<string>,
    contentType: Option<string>,
    status: string,
    category: Option<string>,
    language: string,
    source: Option<string>,
    page: int,
    limit: int,
    sortBy: string,
    sortOrder: string)

  function Resolve(d: SearchRequest): (p: SearchParams)
    ensures p.q == d.q && p.contentType == d.contentType && p.category == d.category && p.source == d.source
    ensures p.status == Default(d.status, "published")
    ensures p.language == Default(d.language, "ar")
    ensures p.page == Default(d.page, 1)
    ensures p.limit == Default(d.limit, 20)
    ensures p.sortBy == Default(d.sortBy, "createdAt")
    ensures p.sortOrder == Default(d.sortOrder, "DESC")
  {
    SearchParams(d.q, d.contentType, Default(d.status, "published"), d.category,
                 Default(d.language, "ar"), d.source,
                 Default(d.page, 1), Default(d.limit, 20),
                 Default(d.sortBy, "createdAt"), Default(d.sortOrder, "DESC"))
  }

  /** What a valid request guarantees after defaults: a page from 1, a page
      size within [1, 100], and a status that names a member of the enum. */
  predicate WellFormed(p: SearchParams)
  {
    p.page >= 1 && 1 <= p.limit <= 100 && StatusNamed(p.status).Some?
    && (p.contentType.Some? ==> TypeNamed(p.contentType.value).Some?)
  }

  lemma ResolveValid(d: SearchRequest)
    requires Valid(d)
    ensures WellFormed(Resolve(d))
  {
  }

  /** The empty request is valid and resolves to published Arabic content,
      page 1 of 20, newest first by creation time. */
  lemma EmptyDefaults()
    ensures Valid(Empty)
    ensures Resolve(Empty) == SearchParams(None, None, "published", None, "ar", None, 1, 20, "createdAt", "DESC")
  {
  }

  /** `sortOrder` and `searchMode` accept any string: validity never depends
      on them, whatever the documented value sets say. */
  lemma OrderAndModeUnchecked(d: SearchRequest, order: string, mode: string)
    ensures Valid(d) <==> Valid(d.(sortOrder := Some(order), searchMode := Some(mode)))
  {
  }
}
