/** The `content` table both services share: its enums, its columns, the
    partial objects the services write into it, and what an INSERT or UPDATE
    of such an object does to a row. The two entity classes declare the same
    columns; they differ only in the default of `type` (video in the CMS, none
    in the discovery service). */
module Entities {
  import opened Common
  import opened Ordering

  datatype ContentType = Video | Podcast | Documentary | Audio

  datatype ContentStatus = Draft | Published | Archived

  /** The one table from enum variant to the string stored in the column and
      in the search index. */
  function TypeName(t: ContentType): string
  {
    match t
    case Video => "video"
    case Podcast => "podcast"
    case Documentary => "documentary"
    case Audio => "audio"
  }

  function StatusName(s: ContentStatus): string
  {
    match s
    case Draft => "draft"
    case Published => "published"
    case Archived => "archived"
  }

  /** The variant a stored string names, if any (PostgreSQL rejects any other
      value for an enum column). */
  function TypeNamed(name: string): (r: Option<ContentType>)
    ensures r.Some? ==> TypeName(r.value) == name
    ensures forall t :: TypeName(t) == name ==> r == Some(t)
  {
    if name == "video" then Some(Video)
    else if name == "podcast" then Some(Podcast)
    else if name == "documentary" then Some(Documentary)
    else if name == "audio" then Some(Audio)
    else None
  }

  function StatusNamed(name: string): (r: Option<ContentStatus>)
    ensures r.Some? ==> StatusName(r.value) == name
    ensures forall s :: StatusName(s) == name ==> r == Some(s)
  {
    if name == "draft" then Some(Draft)
    else if name == "published" then Some(Published)
    else if name == "archived" then Some(Archived)
    else None
  }

  /** The `json`/`jsonb` columns hold arbitrary JSON. */
  datatype Json =
    | JNull
    | JBool(b: bool)
    | JNum(n: int)
    | JStr(s: string)
    | JArr(items: seq<Json>)
    | JObj(fields: map<string, Json>)

  /** JavaScript truthiness of a JSON value. */
  predicate JsonTruthy(j: Json)
  {
    match j
    case JNull => false
    case JBool(b) => b
    case JNum(n) => n != 0
    case JStr(s) => s != ""
    case JArr(_) => true
    case JObj(_) => true
  }

  /** `j?.[key]` read as `undefined` unless `j` is an object holding `key`. */
  function Property(j: Option<Json>, key: string): (r: Option<Json>)
    ensures r.Some? <==> j.Some? && j.value.JObj? && key in j.value.fields
  {
    if j.Some? && j.value.JObj? && key in j.value.fields then Some(j.value.fields[key]) else None
  }

  /** One row of the `content` table. Timestamps are plain integers. */
  datatype ContentRecord = ContentRecord(
    id: string,
    title: string,
    description: Option<string>,
    contentType: ContentType,
    category: string,
    language: string,
    duration: Option<int>,
    thumbnailUrl: Option<string>,
    mediaUrl: Option<string>,
    status: ContentStatus,
    source: Option<string>,
    sourceData: Option<Json>,
    metadata: Option<Json>,
    publishedAt: Option<int>,
    createdBy: Option<string>,
    updatedBy: Option<string>,
    createdAt: int,
    updatedAt: int)

  /** The writable fields of a row as the CMS DTOs declare them; `None` is a
      field the object does not have. The discovery store's wider
      `Partial<ContentEntity>` adds the key, the authors and the dates to
      these (`ContentStore.StorePatch`). */
  datatype ContentPatch = ContentPatch(
    title: Option<string>,
    description: Option<string>,
    contentType: Option<ContentType>,
    category: Option<string>,
    language: Option<string>,
    duration: Option<int>,
    thumbnailUrl: Option<string>,
    mediaUrl: Option<string>,
    status: Option<ContentStatus>,
    source: Option<string>,
    sourceData: Option<Json>,
    metadata: Option<Json>)

  const NoChanges := ContentPatch(None, None, None, None, None, None, None, None, None, None, None, None)

  function Pick<T>(given: Option<T>, current: T): T
  {
    if given.Some? then given.value else current
  }

  function PickOpt<T>(given: Option<T>, current: Option<T>): Option<T>
  {
    if given.Some? then given else current
  }

  /** `Object.assign(row, patch)`: every field the patch has replaces the row's,
      every other field stays. */
  function ApplyPatch(r: ContentRecord, p: ContentPatch): ContentRecord
  {
    r.(title := Pick(p.title, r.title),
       description := PickOpt(p.description, r.description),
       contentType := Pick(p.contentType, r.contentType),
       category := Pick(p.category, r.category),
       language := Pick(p.language, r.language),
       duration := PickOpt(p.duration, r.duration),
       thumbnailUrl := PickOpt(p.thumbnailUrl, r.thumbnailUrl),
       mediaUrl := PickOpt(p.mediaUrl, r.mediaUrl),
       status := Pick(p.status, r.status),
       source := PickOpt(p.source, r.source),
       sourceData := PickOpt(p.sourceData, r.sourceData),
       metadata := PickOpt(p.metadata, r.metadata))
  }

  /** `{...p, ...q}`: the fields of `q` win. */
  function MergePatch(p: ContentPatch, q: ContentPatch): ContentPatch
  {
    ContentPatch(PickOpt(q.title, p.title), PickOpt(q.description, p.description),
                 PickOpt(q.contentType, p.contentType), PickOpt(q.category, p.category),
                 PickOpt(q.language, p.language), PickOpt(q.duration, p.duration),
                 PickOpt(q.thumbnailUrl, p.thumbnailUrl), PickOpt(q.mediaUrl, p.mediaUrl),
                 PickOpt(q.status, p.status), PickOpt(q.source, p.source),
                 PickOpt(q.sourceData, p.sourceData), PickOpt(q.metadata, p.metadata))
  }

  /** Applying DTO fields never touches the key, the authors or the
      timestamps, applying nothing changes nothing, applying a patch twice is applying it
      once, and two patches in a row are their merge. */
  lemma ApplyPatchLaws(r: ContentRecord, p: ContentPatch, q: ContentPatch)
    ensures var a := ApplyPatch(r, p);
      a.id == r.id && a.createdAt == r.createdAt && a.updatedAt == r.updatedAt
      && a.publishedAt == r.publishedAt && a.createdBy == r.createdBy && a.updatedBy == r.updatedBy
    ensures ApplyPatch(r, NoChanges) == r
    ensures ApplyPatch(ApplyPatch(r, p), p) == ApplyPatch(r, p)
    ensures ApplyPatch(ApplyPatch(r, p), q) == ApplyPatch(r, MergePatch(p, q))
  {
  }

  /** The two services map the same table through two entity classes that
      differ in the declaration order of the `type` enum (which is the order
      PostgreSQL sorts it by), in the default of `type`, and in the column
      type of `metadata`/`sourceData` (`json` in the CMS, which cannot be
      ordered; `jsonb` in the discovery service, whose ordering is passed in
      as `jsonbKey`). */
  datatype Schema = CmsSchema | DiscoverySchema(jsonbKey: Json -> SortValue)

  /** The column default of `type`: the CMS entity declares one, the
      discovery entity does not. */
  const CmsTypeDefault: Option<ContentType> := Some(Video)
  const DiscoveryTypeDefault: Option<ContentType> := None

  /** Position of a variant in the enum declaration. */
  function TypeRank(schema: Schema, t: ContentType): nat
  {
    match schema
    case CmsSchema =>
      (match t case Podcast => 0 case Documentary => 1 case Video => 2 case Audio => 3)
    case DiscoverySchema(_) =>
      (match t case Video => 0 case Podcast => 1 case Documentary => 2 case Audio => 3)
  }

  function StatusRank(s: ContentStatus): nat
  {
    match s case Draft => 0 case Published => 1 case Archived => 2
  }

  /** PostgreSQL's message for a missing value in a NOT NULL column. */
  function NotNullMessage(column: string): string
  {
    "null value in column \"" + column + "\" of relation \"content\" violates not-null constraint"
  }

  /** PostgreSQL's message for a string that is not a label of an enum type. */
  function EnumMessage(enumName: string, value: string): string
  {
    "invalid input value for enum " + enumName + ": \"" + value + "\""
  }

  /** `repository.create(p)` followed by the INSERT of `save`: the table's
      defaults fill what the object lacks (`language` 'ar', `status` draft,
      `type` only where the entity declares a default), the timestamps are
      `now`, and a NOT NULL column left empty is rejected, checked in column
      order (title, type, category). */
  function InsertRow(typeDefault: Option<ContentType>, p: ContentPatch, id: string, now: int,
                     createdBy: Option<string>, updatedBy: Option<string>,
                     publishedAt: Option<int>): (r: Result<ContentRecord>)
    ensures r.Ok? <==> p.title.Some? && (p.contentType.Some? || typeDefault.Some?) && p.category.Some?
    ensures r.Ok? ==> r.value.id == id && r.value.createdAt == now && r.value.updatedAt == now
    ensures r.Ok? ==> r.value.title == p.title.value && r.value.category == p.category.value
    ensures r.Ok? ==> r.value.contentType == (if p.contentType.Some? then p.contentType.value else typeDefault.value)
    ensures r.Ok? ==> r.value.language == (if p.language.Some? then p.language.value else "ar")
    ensures r.Ok? ==> r.value.status == (if p.status.Some? then p.status.value else Draft)
    ensures r.Ok? ==> r.value.publishedAt == publishedAt
    ensures r.Ok? ==> r.value.createdBy == createdBy && r.value.updatedBy == updatedBy
    ensures r.Ok? ==> r.value.description == p.description && r.value.duration == p.duration
    ensures r.Ok? ==> r.value.thumbnailUrl == p.thumbnailUrl && r.value.mediaUrl == p.mediaUrl
    ensures r.Ok? ==> r.value.source == p.source && r.value.sourceData == p.sourceData && r.value.metadata == p.metadata
    ensures r.Err? ==> r.error.Database?
    ensures p.title.None? ==> r == Err(Database(NotNullMessage("title")))
  {
    if p.title.None? then Err(Database(NotNullMessage("title")))
    else if p.contentType.None? && typeDefault.None? then Err(Database(NotNullMessage("type")))
    else if p.category.None? then Err(Database(NotNullMessage("category")))
    else
      var blank := ContentRecord(id, p.title.value, None, Pick(typeDefault, Video), p.category.value, "ar", None, None, None,
                                 Draft, None, None, None, publishedAt, createdBy, updatedBy, now, now);
      Ok(ApplyPatch(blank, p))
  }

  /** The columns both search paths return for a hit: everything except
      `sourceData`, `tags` and the author columns, with enums as their
      stored strings. */
  datatype Listing = Listing(
    id: string,
    title: string,
    description: Option<string>,
    contentType: string,
    category: string,
    language: string,
    duration: Option<int>,
    thumbnailUrl: Option<string>,
    mediaUrl: Option<string>,
    status: string,
    source: Option<string>,
    metadata: Option<Json>,
    publishedAt: Option<int>,
    createdAt: int,
    updatedAt: int)

  function ListingOf(r: ContentRecord): Listing
  {
    Listing(r.id, r.title, r.description, TypeName(r.contentType), r.category, r.language, r.duration,
            r.thumbnailUrl, r.mediaUrl, StatusName(r.status), r.source, r.metadata, r.publishedAt,
            r.createdAt, r.updatedAt)
  }

  /** The columns the featured and by-type lists select. */
  datatype Card = Card(
    id: string,
    title: string,
    description: Option<string>,
    contentType: ContentType,
    category: string,
    language: string,
    duration: Option<int>,
    thumbnailUrl: Option<string>,
    mediaUrl: Option<string>,
    publishedAt: Option<int>)

  function CardOf(r: ContentRecord): Card
  {
    Card(r.id, r.title, r.description, r.contentType, r.category, r.language, r.duration,
         r.thumbnailUrl, r.mediaUrl, r.publishedAt)
  }
}
