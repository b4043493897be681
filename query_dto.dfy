/** The CMS listing request (`QueryContentDto`). As for the discovery search,
    no validation pipe runs, so `Valid` is an obligation on callers and the
    defaults are those `findAll` destructures with. Unlike the discovery
    search there is no default status or language. */
module QueryDto {
  import opened Common
  import opened Entities

  datatype ListRequest = ListRequest(
    search: Option<string>,
    contentType: Option<string>,
    status: Option<string>,
    category: Option<string>,
    language: Option<string>,
    source: Option<string>,
    page: Option<int>,
    limit: Option<int>,
    sortBy: Option<string>,
    sortOrder: Option<string>)

  const Empty := ListRequest(None, None, None, None, None, None, None, None, None, None)

  predicate Valid(d: ListRequest)
  {
    && (d.contentType.Some? ==> TypeNamed(d.contentType.value).Some?)
    && (d.status.Some? ==> StatusNamed(d.status.value).Some?)
    && (d.page.Some? ==> d.page.value >= 1)
    && (d.limit.Some? ==> 1 <= d.limit.value <= 100)
  }

  function Page(d: ListRequest): (page: int)
    ensures d.page.None? ==> page == 1
    ensures Valid(d) ==> page >= 1
  {
    Default(d.page, 1)
  }

  function Limit(d: ListRequest): (limit: int)
    ensures d.limit.None? ==> limit == 10
    ensures Valid(d) ==> 1 <= limit <= 100
  {
    Default(d.limit, 10)
  }

  function SortBy(d: ListRequest): (sortBy: string)
    ensures d.sortBy.None? ==> sortBy == "createdAt"
    ensures d.sortBy.Some? ==> sortBy == d.sortBy.value
  {
    Default(d.sortBy, "createdAt")
  }

  function SortOrder(d: ListRequest): (sortOrder: string)
    ensures d.sortOrder.None? ==> sortOrder == "DESC"
    ensures d.sortOrder.Some? ==> sortOrder == d.sortOrder.value
  {
    Default(d.sortOrder, "DESC")
  }

  /** The empty request is valid: page 1 of 10, newest first by creation
      time, and no filter at all. */
  lemma EmptyDefaults()
    ensures Valid(Empty)
    ensures Page(Empty) == 1 && Limit(Empty) == 10
    ensures SortBy(Empty) == "createdAt" && SortOrder(Empty) == "DESC"
  {
  }

  /** Only `type` and `status` are checked against their enums; any
      `sortOrder` string is accepted. */
  lemma OrderUnchecked(d: ListRequest, order: string)
    ensures Valid(d) <==> Valid(d.(sortOrder := Some(order)))
  {
  }
}
