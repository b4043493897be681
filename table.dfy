/** The `content` table as the services query it through the ORM: named
    columns, `WHERE` conditions built from a find-options object, and
    `ORDER BY` one column with `skip`/`take`. A table scan is a sequence of
    rows in the order the database happens to return them. */
module Table {
  import opened Common
  import opened Ordering
  import opened Entities
  import opened Pagination

  /** The entity properties a request may name; `Unknown` is any other name. */
  datatype Field =
    | Id | Title | Description | Type | Category | Language | Duration
    | ThumbnailUrl | MediaUrl | Status | Source | SourceData | Metadata | Tags
    | PublishedAt | CreatedAt | UpdatedAt | CreatedBy | UpdatedBy
    | Unknown(name: string)

  function FieldNamed(name: string): Field
  {
    if name == "id" then Id
    else if name == "title" then Title
    else if name == "description" then Description
    else if name == "type" then Type
    else if name == "category" then Category
    else if name == "language" then Language
    else if name == "duration" then Duration
    else if name == "thumbnailUrl" then ThumbnailUrl
    else if name == "mediaUrl" then MediaUrl
    else if name == "status" then Status
    else if name == "source" then Source
    else if name == "sourceData" then SourceData
    else if name == "metadata" then Metadata
    else if name == "tags" then Tags
    else if name == "publishedAt" then PublishedAt
    else if name == "createdAt" then CreatedAt
    else if name == "updatedAt" then UpdatedAt
    else if name == "createdBy" then CreatedBy
    else if name == "updatedBy" then UpdatedBy
    else Unknown(name)
  }

  function OptStr(s: Option<string>): SortValue
  {
    if s.Some? then Str(s.value) else Missing
  }

  function OptNum(n: Option<int>): SortValue
  {
    if n.Some? then Num(n.value) else Missing
  }

  function OptJson(schema: Schema, j: Option<Json>): SortValue
    requires schema.DiscoverySchema?
  {
    if j.Some? then schema.jsonbKey(j.value) else Missing
  }

  /** The value `ORDER BY` reads from a column (enums by declaration
      position, NULL as `Missing`), or `None` when the name is not a column
      of the entity or the column type has no ordering. */
  function ColumnValue(schema: Schema, r: ContentRecord, f: Field): Option<SortValue>
  {
    match f
    case Id => Some(Str(r.id))
    case Title => Some(Str(r.title))
    case Description => Some(OptStr(r.description))
    case Type => Some(Num(TypeRank(schema, r.contentType)))
    case Category => Some(Str(r.category))
    case Language => Some(Str(r.language))
    case Duration => Some(OptNum(r.duration))
    case ThumbnailUrl => Some(OptStr(r.thumbnailUrl))
    case MediaUrl => Some(OptStr(r.mediaUrl))
    case Status => Some(Num(StatusRank(r.status)))
    case Source => Some(OptStr(r.source))
    case PublishedAt => Some(OptNum(r.publishedAt))
    case CreatedAt => Some(Num(r.createdAt))
    case UpdatedAt => Some(Num(r.updatedAt))
    case CreatedBy => Some(OptStr(r.createdBy))
    case UpdatedBy => Some(OptStr(r.updatedBy))
    case SourceData => if schema.DiscoverySchema? then Some(OptJson(schema, r.sourceData)) else None
    case Metadata => if schema.DiscoverySchema? then Some(OptJson(schema, r.metadata)) else None
    case Tags => None
    case Unknown(_) => None
  }

  /** Whether `ORDER BY` accepts the field: a property of the entity whose
      column type can be ordered. */
  predicate Orderable(schema: Schema, f: Field)
  {
    !(f.Tags? || f.Unknown? || (schema.CmsSchema? && (f.SourceData? || f.Metadata?)))
  }

  lemma OrderableColumn(schema: Schema, r: ContentRecord, f: Field)
    ensures ColumnValue(schema, r, f).Some? <==> Orderable(schema, f)
  {
  }

  function ColumnKey(schema: Schema, f: Field): ContentRecord -> SortValue
  {
    r => var v := ColumnValue(schema, r, f); if v.Some? then v.value else Missing
  }

  /** TypeORM's reading of an `order` value: "DESC" or "desc" sorts
      descending, any other string ascending. */
  predicate OrmAscending(sortOrder: string)
  {
    !(sortOrder == "DESC" || sortOrder == "desc")
  }

  /** `ORDER BY f ASC|DESC`: NULL is larger than every value, so it comes
      last ascending and first descending. */
  function ColumnOrder(schema: Schema, f: Field, ascending: bool): (ContentRecord, ContentRecord) -> bool
  {
    KeyOrder([Key(ColumnKey(schema, f), ascending, !ascending)])
  }

  lemma ColumnOrderTotal(schema: Schema, f: Field, ascending: bool)
    ensures Total(ColumnOrder(schema, f, ascending))
  {
    KeyOrderTotal([Key(ColumnKey(schema, f), ascending, !ascending)]);
  }

  /** Rows ordered by one column, ties in scan order, or the error for a
      name `ORDER BY` cannot use. */
  function OrderRows(schema: Schema, rows: seq<ContentRecord>, sortBy: string, sortOrder: string): (r: Result<seq<ContentRecord>>)
    ensures r.Ok? <==> Orderable(schema, FieldNamed(sortBy))
    ensures r.Ok? ==> multiset(r.value) == multiset(rows)
    ensures r.Ok? ==> Sorted(r.value, ColumnOrder(schema, FieldNamed(sortBy), OrmAscending(sortOrder)))
    ensures r.Err? ==> r.error.Database?
  {
    var f := FieldNamed(sortBy);
    if !Orderable(schema, f) then
      Err(Database("Property \"" + sortBy + "\" was not found in \"ContentEntity\"."))
    else
      ColumnOrderTotal(schema, f, OrmAscending(sortOrder));
      Ok(Sort(rows, ColumnOrder(schema, f, OrmAscending(sortOrder))))
  }

  // ------------------------------------------------------------ uuid keys

  predicate IsHexDigit(c: char)
  {
    '0' <= c <= '9' || 'a' <= c <= 'f' || 'A' <= c <= 'F'
  }

  /** PostgreSQL's reading of a uuid from byte `i` on: two hexadecimal digits
      per byte, one hyphen allowed after every second byte but the last,
      and nothing after the sixteenth byte. */
  predicate UuidBytes(s: string, i: nat)
    requires i <= 16
    decreases 16 - i
  {
    if i == 16 then s == []
    else
      && |s| >= 2 && IsHexDigit(s[0]) && IsHexDigit(s[1])
      && if i % 2 == 1 && i < 15 && |s| > 2 && s[2] == '-' then UuidBytes(s[3..], i + 1)
         else UuidBytes(s[2..], i + 1)
  }

  /** Text the `uuid` type accepts: the 32 digits, optionally grouped by
      hyphens and optionally in braces. */
  predicate IsUuid(s: string)
  {
    if |s| > 0 && s[0] == '{' then |s| >= 2 && s[|s| - 1] == '}' && UuidBytes(s[1..|s| - 1], 0)
    else UuidBytes(s, 0)
  }

  /** PostgreSQL's message for text that is not a uuid. */
  function UuidMessage(s: string): string
  {
    "invalid input syntax for type uuid: \"" + s + "\""
  }

  /** A uuid is 32 to 41 characters long (seven hyphens and two braces at
      most), so no empty or short name is read as a key. */
  lemma UuidLength(s: string)
    ensures IsUuid(s) ==> 32 <= |s| <= 41
  {
    if IsUuid(s) {
      if |s| > 0 && s[0] == '{' {
        UuidBytesLength(s[1..|s| - 1], 0);
      } else {
        UuidBytesLength(s, 0);
      }
    }
  }

  lemma {:induction false} UuidBytesLength(s: string, i: nat)
    requires i <= 16 && UuidBytes(s, i)
    ensures 2 * (16 - i) <= |s| <= 2 * (16 - i) + (if i >= 14 then 0 else (15 - i) / 2)
  {
    if i < 16 {
      if i % 2 == 1 && i < 15 && |s| > 2 && s[2] == '-' {
        UuidBytesLength(s[3..], i + 1);
      } else {
        UuidBytesLength(s[2..], i + 1);
      }
    }
  }

  // ------------------------------------------------------------ WHERE

  /** One property of a find-options `where` object: equality on a column,
      or `Like`/`ILike` of `%pattern%` on the title. */
  datatype Condition =
    | Eq(field: Field, value: string)
    | TitleLike(pattern: string, caseInsensitive: bool)

  /** The database rejects an equality on an enum column whose value is not
      a label of the enum, and one on the uuid key whose value is not a
      uuid. */
  function CheckCondition(c: Condition): (r: Outcome)
    ensures r.Fail? <==> c.Eq? && ((c.field.Type? && TypeNamed(c.value).None?)
                                   || (c.field.Status? && StatusNamed(c.value).None?)
                                   || (c.field.Id? && !IsUuid(c.value)))
    ensures r.Fail? ==> r.error.Database?
    ensures c.Eq? && c.field.Id? && !IsUuid(c.value) ==> r == Fail(Database(UuidMessage(c.value)))
  {
    match c
    case Eq(Id, v) => if !IsUuid(v) then Fail(Database(UuidMessage(v))) else Pass
    case Eq(Type, v) => if TypeNamed(v).None? then Fail(Database(EnumMessage("content_type_enum", v))) else Pass
    case Eq(Status, v) => if StatusNamed(v).None? then Fail(Database(EnumMessage("content_status_enum", v))) else Pass
    case _ => Pass
  }

  /** `%pattern%` read as a plain substring; `ILike` compares lower-cased. */
  predicate TitleMatches(title: string, pattern: string, caseInsensitive: bool)
  {
    if caseInsensitive then Contains(ToLower(title), ToLower(pattern)) else Contains(title, pattern)
  }

  predicate Satisfies(r: ContentRecord, c: Condition)
  {
    match c
    case Eq(f, v) =>
      (match f
       case Id => r.id == v
       case Type => TypeName(r.contentType) == v
       case Status => StatusName(r.status) == v
       case Category => r.category == v
       case Language => r.language == v
       case Source => r.source == Some(v)
       case _ => false)
    case TitleLike(p, ci) => TitleMatches(r.title, p, ci)
  }

  predicate SatisfiesAll(r: ContentRecord, w: seq<Condition>)
  {
    forall i :: 0 <= i < |w| ==> Satisfies(r, w[i])
  }

  function Admissible(w: seq<Condition>): (r: Outcome)
    ensures r.Pass? <==> forall i :: 0 <= i < |w| ==> CheckCondition(w[i]).Pass?
    ensures r.Fail? ==> r.error.Database?
  {
    if w == [] then Pass
    else if CheckCondition(w[0]).Fail? then CheckCondition(w[0])
    else Admissible(w[1..])
  }

  function Matcher(w: seq<Condition>): ContentRecord -> bool
  {
    r => SatisfiesAll(r, w)
  }

  /** Adding one property to a `where` object adds one conjunct. */
  lemma SatisfiesAllSnoc(r: ContentRecord, w: seq<Condition>, c: Condition)
    ensures SatisfiesAll(r, w + [c]) <==> SatisfiesAll(r, w) && Satisfies(r, c)
  {
    assert forall i :: 0 <= i < |w| ==> (w + [c])[i] == w[i];
    assert (w + [c])[|w|] == c;
  }

  lemma AdmissibleSnoc(w: seq<Condition>, c: Condition)
    ensures Admissible(w + [c]).Pass? <==> Admissible(w).Pass? && CheckCondition(c).Pass?
  {
    assert forall i :: 0 <= i < |w| ==> (w + [c])[i] == w[i];
    assert (w + [c])[|w|] == c;
  }

  /** `take`: a positive value keeps that many leading rows; TypeORM adds no
      `LIMIT` for zero, so every row is kept. */
  function TakeRows(rows: seq<ContentRecord>, take: nat): (r: seq<ContentRecord>)
    ensures take > 0 ==> |r| == Min(take, |rows|)
    ensures take == 0 ==> r == rows
    ensures r <= rows
  {
    if take == 0 then rows else rows[..Min(take, |rows|)]
  }

  /** With no rows skipped, a page of `findAndCount` is the cut of `find`. */
  lemma WindowIsTake(rows: seq<ContentRecord>, take: nat)
    requires take > 0
    ensures Window(rows, 0, take) == TakeRows(rows, take)
  {
    if rows == [] {
      assert Window(rows, 0, take) == [];
    } else {
      assert Window(rows, 0, take) == rows[0..Min(take, |rows|)];
      assert rows[0..Min(take, |rows|)] == rows[..Min(take, |rows|)];
    }
  }

  /** The first row of the scan that satisfies every condition: `findOne`. */
  function FirstWhere(rows: seq<ContentRecord>, w: seq<Condition>): (r: Option<ContentRecord>)
    ensures r.Some? <==> exists i :: 0 <= i < |rows| && SatisfiesAll(rows[i], w)
    ensures r.Some? ==> r.value in rows && SatisfiesAll(r.value, w)
  {
    if rows == [] then None
    else if SatisfiesAll(rows[0], w) then Some(rows[0])
    else
      var rest := FirstWhere(rows[1..], w);
      assert forall i :: 0 < i < |rows| ==> rows[i] == rows[1..][i - 1];
      rest
  }

  /** `find({where, order, take})`: the matching rows ordered by one column,
      cut to `take`. */
  function Find(schema: Schema, rows: seq<ContentRecord>, w: seq<Condition>,
                sortBy: string, sortOrder: string, take: nat): (r: Result<seq<ContentRecord>>)
    ensures r.Ok? <==> Admissible(w).Pass? && Orderable(schema, FieldNamed(sortBy))
    ensures r.Ok? ==> r.value == TakeRows(OrderRows(schema, Filter(rows, Matcher(w)), sortBy, sortOrder).value, take)
    ensures r.Ok? ==> take > 0 ==> |r.value| <= take
    ensures r.Ok? ==> forall i :: 0 <= i < |r.value| ==> r.value[i] in Filter(rows, Matcher(w))
    ensures r.Ok? ==> Sorted(r.value, ColumnOrder(schema, FieldNamed(sortBy), OrmAscending(sortOrder)))
    ensures r.Err? ==> r.error.Database?
  {
    if Admissible(w).Fail? then Err(Admissible(w).error)
    else
      var matching := Filter(rows, Matcher(w));
      var ordered := OrderRows(schema, matching, sortBy, sortOrder);
      if ordered.Err? then Err(ordered.error)
      else
        var page := TakeRows(ordered.value, take);
        assert forall i :: 0 <= i < |page| ==> page[i] == ordered.value[i] && page[i] in multiset(ordered.value);
        SortedSlice(ordered.value, ColumnOrder(schema, FieldNamed(sortBy), OrmAscending(sortOrder)), 0, |page|);
        assert page == ordered.value[0..|page|];
        Ok(page)
  }

  /** `findAndCount({where, order, skip, take})`: the count of all matching
      rows and one ordered page of them. */
  function FindAndCount(schema: Schema, rows: seq<ContentRecord>, w: seq<Condition>,
                        sortBy: string, sortOrder: string, skip: nat, take: nat)
    : (r: Result<(seq<ContentRecord>, nat)>)
    ensures r.Ok? <==> Admissible(w).Pass? && Orderable(schema, FieldNamed(sortBy))
    ensures r.Ok? ==> r.value.1 == |Filter(rows, Matcher(w))|
    ensures r.Ok? ==> r.value.0 == Window(OrderRows(schema, Filter(rows, Matcher(w)), sortBy, sortOrder).value, skip, take)
    ensures r.Ok? ==> |r.value.0| <= take
    ensures r.Ok? ==> forall i :: 0 <= i < |r.value.0| ==> r.value.0[i] in rows && SatisfiesAll(r.value.0[i], w)
  {
    if Admissible(w).Fail? then Err(Admissible(w).error)
    else
      var matching := Filter(rows, Matcher(w));
      var ordered := OrderRows(schema, matching, sortBy, sortOrder);
      if ordered.Err? then Err(ordered.error)
      else
        var page := Window(ordered.value, skip, take);
        assert forall i :: 0 <= i < |page| ==> page[i] in multiset(ordered.value);
        Ok((page, |matching|))
  }

  // ------------------------------------------------------------ scans

  /** The ids of a table scan are pairwise distinct (the primary key). */
  predicate DistinctIds(rows: seq<ContentRecord>)
  {
    forall i, j :: 0 <= i < j < |rows| ==> rows[i].id != rows[j].id
  }

  /** `scan` lists every key of `m` exactly once: the order in which a back
      end happens to visit a table or an index. */
  predicate IsListing<V>(scan: seq<string>, m: map<string, V>)
  {
    && (forall i :: 0 <= i < |scan| ==> scan[i] in m)
    && (forall k :: k in m ==> k in scan)
    && (forall i, j :: 0 <= i < j < |scan| ==> scan[i] != scan[j])
  }

  /** The values of a keyed store in the order `scan` visits them. */
  function Scan<V>(m: map<string, V>, scan: seq<string>): (rows: seq<V>)
    requires forall i :: 0 <= i < |scan| ==> scan[i] in m
    ensures |rows| == |scan|
    ensures forall i :: 0 <= i < |scan| ==> rows[i] == m[scan[i]]
  {
    if scan == [] then [] else [m[scan[0]]] + Scan(m, scan[1..])
  }
}
