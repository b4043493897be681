/** The CMS content service: create, list, read, update, publish, archive
    and remove rows of the `content` table, and create a row from uploaded
    files. The table is a map from id to row, and the files written under
    `uploads/` are a set of paths. The clock, the generated ids and
    `JSON.parse` are parameters. */
module CmsContent {
  import opened Common
  import opened Ordering
  import opened Entities
  import opened Pagination
  import opened Table
  import opened QueryDto
  import opened FileUpload
  import opened Media

  // ------------------------------------------------------------ listing

  /** What `findAll` asks of a row: a case-sensitive title match for a
      non-empty `search`, and each other given, non-empty filter as an
      equality. There is no default status: drafts are listed too. */
  predicate Lists(d: ListRequest, r: ContentRecord)
  {
    && (Truthy(d.search) ==> TitleMatches(r.title, d.search.value, false))
    && (Truthy(d.contentType) ==> TypeName(r.contentType) == d.contentType.value)
    && (Truthy(d.status) ==> StatusName(r.status) == d.status.value)
    && (Truthy(d.category) ==> r.category == d.category.value)
    && (Truthy(d.language) ==> r.language == d.language.value)
    && (Truthy(d.source) ==> r.source == d.source)
  }

  function ListedBy(d: ListRequest): ContentRecord -> bool
  {
    r => Lists(d, r)
  }

  /** `Lists` with only the first `k` properties of the `where` object. */
  predicate ListsUpTo(d: ListRequest, r: ContentRecord, k: nat)
  {
    && (k >= 1 && Truthy(d.search) ==> TitleMatches(r.title, d.search.value, false))
    && (k >= 2 && Truthy(d.contentType) ==> TypeName(r.contentType) == d.contentType.value)
    && (k >= 3 && Truthy(d.status) ==> StatusName(r.status) == d.status.value)
    && (k >= 4 && Truthy(d.category) ==> r.category == d.category.value)
    && (k >= 5 && Truthy(d.language) ==> r.language == d.language.value)
    && (k >= 6 && Truthy(d.source) ==> r.source == d.source)
  }

  /** Property `k + 1` of the `where` object, when its filter is given. */
  function ListClause(d: ListRequest, k: nat): seq<Condition>
  {
    if k == 0 then (if Truthy(d.search) then [TitleLike(d.search.value, false)] else [])
    else if k == 1 then (if Truthy(d.contentType) then [Eq(Type, d.contentType.value)] else [])
    else if k == 2 then (if Truthy(d.status) then [Eq(Status, d.status.value)] else [])
    else if k == 3 then (if Truthy(d.category) then [Eq(Category, d.category.value)] else [])
    else if k == 4 then (if Truthy(d.language) then [Eq(Language, d.language.value)] else [])
    else if k == 5 then (if Truthy(d.source) then [Eq(Source, d.source.value)] else [])
    else []
  }

  /** The enum filters the database accepts. */
  predicate EnumsAccepted(d: ListRequest, k: nat)
  {
    && (k >= 2 && Truthy(d.contentType) ==> TypeNamed(d.contentType.value).Some?)
    && (k >= 3 && Truthy(d.status) ==> StatusNamed(d.status.value).Some?)
  }

  /** Adding property `k + 1` to a `where` object standing for the first `k`. */
  lemma ListStage(d: ListRequest, w: seq<Condition>, k: nat)
    requires k <= 5
    requires forall r :: SatisfiesAll(r, w) <==> ListsUpTo(d, r, k)
    requires Admissible(w).Pass? <==> EnumsAccepted(d, k)
    ensures forall r :: SatisfiesAll(r, w + ListClause(d, k)) <==> ListsUpTo(d, r, k + 1)
    ensures Admissible(w + ListClause(d, k)).Pass? <==> EnumsAccepted(d, k + 1)
  {
    var cs := ListClause(d, k);
    if cs == [] {
      assert w + cs == w;
    } else {
      var c := cs[0];
      assert cs == [c];
      forall r ensures SatisfiesAll(r, w + cs) <==> ListsUpTo(d, r, k + 1) {
        SatisfiesAllSnoc(r, w, c);
      }
      AdmissibleSnoc(w, c);
    }
  }

  /** The first `k` properties of the `where` object. */
  function ListWhereUpTo(d: ListRequest, k: nat): seq<Condition>
  {
    if k == 0 then [] else ListWhereUpTo(d, k - 1) + ListClause(d, k - 1)
  }

  /** What the first `k` properties admit, and whether the database takes
      them. */
  lemma {:induction false} ListWhereMeaning(d: ListRequest, k: nat)
    requires k <= 6
    ensures forall r :: SatisfiesAll(r, ListWhereUpTo(d, k)) <==> ListsUpTo(d, r, k)
    ensures Admissible(ListWhereUpTo(d, k)).Pass? <==> EnumsAccepted(d, k)
  {
    if k > 0 {
      ListWhereMeaning(d, k - 1);
      ListStage(d, ListWhereUpTo(d, k - 1), k - 1);
    }
  }

  /** The `where` object of `findAll`, one property at a time. A row meets
      it exactly when the request lists the row, and the database accepts it
      exactly when the type and status filters name enum labels. */
  method ListWhere(d: ListRequest) returns (w: seq<Condition>)
    ensures forall r :: SatisfiesAll(r, w) <==> Lists(d, r)
    ensures Admissible(w).Pass? <==> EnumsAccepted(d, 3)
  {
    w := [];
    if Truthy(d.search) {
      w := w + [TitleLike(d.search.value, false)];
    }
    assert w == ListWhereUpTo(d, 1);
    if Truthy(d.contentType) {
      w := w + [Eq(Type, d.contentType.value)];
    }
    assert w == ListWhereUpTo(d, 2);
    if Truthy(d.status) {
      w := w + [Eq(Status, d.status.value)];
    }
    assert w == ListWhereUpTo(d, 3);
    if Truthy(d.category) {
      w := w + [Eq(Category, d.category.value)];
    }
    assert w == ListWhereUpTo(d, 4);
    if Truthy(d.language) {
      w := w + [Eq(Language, d.language.value)];
    }
    assert w == ListWhereUpTo(d, 5);
    if Truthy(d.source) {
      w := w + [Eq(Source, d.source.value)];
    }
    assert w == ListWhereUpTo(d, 6);
    ListWhereMeaning(d, 6);
  }

  /** One page of `findAll`. */
  datatype ContentPage = ContentPage(data: seq<ContentRecord>, total: nat, page: int, limit: int, totalPages: nat)

  // ------------------------------------------------------------ updates

  /** A patch that only sets the status: `publish` and `archive`. */
  function StatusPatch(s: ContentStatus): ContentPatch
  {
    NoChanges.(status := Some(s))
  }

  /** The entity object after `update` assigns to it: a first publication
      date when the status becomes published, the patch, and `updatedBy`. */
  function Assigned(c: ContentRecord, dto: ContentPatch, userId: Option<string>, now: int): ContentRecord
  {
    var dated := if dto.status == Some(Published) && c.status != Published then c.(publishedAt := Some(now)) else c;
    ApplyPatch(dated, dto).(updatedBy := userId)
  }

  /** The row `save` leaves: an absent `updatedBy` is not written, no
      `UPDATE` runs when no column changed, and an `UPDATE` stamps
      `updatedAt`. */
  function Written(c: ContentRecord, dto: ContentPatch, userId: Option<string>, now: int): (w: ContentRecord)
    ensures w.id == c.id && w.createdAt == c.createdAt && w.createdBy == c.createdBy
    ensures w.updatedBy == (if userId.Some? then userId else c.updatedBy)
    ensures w.status == Pick(dto.status, c.status)
    ensures w.title == Pick(dto.title, c.title) && w.category == Pick(dto.category, c.category)
    ensures w.publishedAt == (if dto.status == Some(Published) && c.status != Published then Some(now) else c.publishedAt)
    ensures w.updatedAt == now || w == c
  {
    var a := Assigned(c, dto, userId, now);
    var row := a.(updatedBy := if userId.Some? then userId else c.updatedBy);
    if row == c then c else row.(updatedAt := now)
  }

  /** The entity `update` returns: the assigned object with the timestamp
      the save produced. */
  function Returned(c: ContentRecord, dto: ContentPatch, userId: Option<string>, now: int): (e: ContentRecord)
    ensures e.updatedBy == userId
    ensures e.(updatedBy := Written(c, dto, userId, now).updatedBy) == Written(c, dto, userId, now)
  {
    Assigned(c, dto, userId, now).(updatedAt := Written(c, dto, userId, now).updatedAt)
  }

  /** An update without fields or user writes nothing. */
  lemma EmptyUpdateWritesNothing(c: ContentRecord, now: int)
    ensures Written(c, NoChanges, None, now) == c
  {
    ApplyPatchLaws(c, NoChanges, NoChanges);
  }

  /** Only the first publication sets the date: publishing a published row
      keeps it, archiving keeps it, and publishing an archived row moves it. */
  lemma PublicationDate(c: ContentRecord, u1: Option<string>, u2: Option<string>, t1: int, t2: int)
    ensures var p := Written(c, StatusPatch(Published), u1, t1);
      Written(p, StatusPatch(Published), u2, t2).publishedAt == p.publishedAt
    ensures Written(c, StatusPatch(Archived), u1, t1).publishedAt == c.publishedAt
    ensures var a := Written(c, StatusPatch(Archived), u1, t1);
      Written(a, StatusPatch(Published), u2, t2).publishedAt == Some(t2)
  {
  }

  /** Without a user the row keeps its last editor while the reply shows
      none. */
  lemma AnonymousUpdate(c: ContentRecord, dto: ContentPatch, now: int)
    requires c.updatedBy.Some?
    ensures Written(c, dto, None, now).updatedBy == c.updatedBy
    ensures Returned(c, dto, None, now).updatedBy == None
  {
  }

  // ------------------------------------------------------------ uploads

  /** The last index of `c` in `s`. */
  function LastIndexOf(s: string, c: char): (r: Option<nat>)
    ensures r.Some? ==> r.value < |s|
  {
    if s == [] then None
    else if s[|s| - 1] == c then Some(|s| - 1)
    else LastIndexOf(s[..|s| - 1], c)
  }

  /** The index found holds `c` and no later one does; none is found only
      when `s` has no `c`. */
  lemma {:induction false} LastIndexOfMeaning(s: string, c: char)
    ensures var r := LastIndexOf(s, c);
      && (r.None? <==> c !in s)
      && (r.Some? ==> s[r.value] == c && c !in s[r.value + 1..])
  {
    if s != [] && s[|s| - 1] != c {
      LastIndexOfMeaning(s[..|s| - 1], c);
      assert s == s[..|s| - 1] + [s[|s| - 1]];
    }
  }

  /** `path.extname` of a name without a slash: from the last dot on, empty
      when there is no dot, when the dot starts the name, and for `..`. */
  function Extname(name: string): (ext: string)
  {
    match LastIndexOf(name, '.')
    case None => ""
    case Some(k) => if k == 0 || name == ".." then "" else name[k..]
  }

  /** An extension is empty or a dot followed by no other dot, and it is a
      proper suffix of the name. */
  lemma ExtnameShape(name: string)
    ensures var ext := Extname(name);
      && (ext == [] || (ext[0] == '.' && '.' !in ext[1..]))
      && (ext != [] ==> exists k :: 0 < k < |name| && ext == name[k..])
  {
    LastIndexOfMeaning(name, '.');
    match LastIndexOf(name, '.')
    case None =>
    case Some(k) =>
      assert name[k..][1..] == name[k + 1..];
  }

  /** The last `c` of `a + [c] + b` is the one after `a` when `b` has none. */
  lemma {:induction false} LastIndexAfter(a: string, b: string, c: char)
    requires c !in b
    ensures LastIndexOf(a + [c] + b, c) == Some(|a|)
  {
    var s := a + [c] + b;
    if b != [] {
      var n := |b| - 1;
      assert s[|s| - 1] == b[n];
      assert s[..|s| - 1] == a + [c] + b[..n];
      LastIndexAfter(a, b[..n], c);
    }
  }

  /** A stem that does not start a dotted name keeps its extension. */
  lemma ExtnameOf(stem: string, ext: string)
    requires '.' !in ext && stem != [] && stem != "."
    ensures Extname(stem + "." + ext) == "." + ext
  {
    var name := stem + "." + ext;
    assert name == stem + ['.'] + ext;
    LastIndexAfter(stem, ext, '.');
    assert name[0] == stem[0];
    assert |stem| == 1 ==> stem == [stem[0]];
    assert name[|stem|..] == "." + ext;
  }

  /** A non-empty extension is a dot and the text after the last dot. */
  lemma ExtnameAtLastDot(name: string)
    requires Extname(name) != ""
    ensures LastIndexOf(name, '.').Some?
    ensures Extname(name) == name[LastIndexOf(name, '.').value..]
  {
  }

  lemma ExtnameIsLastDotPart(name: string)
    requires Extname(name) != ""
    ensures Extname(name) == "." + LastDotPart(name)
  {
    ExtnameAtLastDot(name);
    LastIndexOfMeaning(name, '.');
    var k := LastIndexOf(name, '.').value;
    var e := name[k + 1..];
    assert name[k..] == ['.'] + e;
    var a := name[..k];
    assert name == a + ['.'] + e;
    SplitLastPart(a, e, '.');
  }

  /** The stored name of an upload keeps the type the media route serves:
      a generated name without dots plus the original extension reads as
      the original name does. */
  lemma StoredNameKeepsType(generated: string, original: string)
    requires '.' !in generated && generated != []
    requires Extname(original) != ""
    ensures GetContentType(generated + Extname(original)) == GetContentType(original)
  {
    var e := LastDotPart(original);
    ExtnameIsLastDotPart(original);
    assert generated + Extname(original) == generated + "." + e;
    ContentTypeOfExtension(generated, e);
    SplitWithout(e, '.');
    assert LastDotPart(e) == e;
  }

  /** The body of the upload form: the other fields as a patch, and
      `metadata` as text. */
  datatype UploadRequest = UploadRequest(fields: ContentPatch, metadata: Option<string>)

  const InvalidMetadata := "Invalid metadata JSON format"

  /** `metadata` parsed when it is a non-empty string, `{}` otherwise. */
  function MetadataOf(req: UploadRequest, parseJson: string -> Option<Json>): (r: Result<Json>)
    ensures !Truthy(req.metadata) ==> r == Ok(JObj(map[]))
    ensures Truthy(req.metadata) ==>
      r == (if parseJson(req.metadata.value).Some? then Ok(parseJson(req.metadata.value).value)
            else Err(Failure(InvalidMetadata)))
  {
    if !Truthy(req.metadata) then Ok(JObj(map[]))
    else
      var parsed := parseJson(req.metadata.value);
      if parsed.None? then Err(Failure(InvalidMetadata)) else Ok(parsed.value)
  }

  /** The index of the first file `validateFile` rejects. */
  function FirstInvalid(files: seq<UploadedFile>): (r: Option<nat>)
    ensures r.Some? ==> r.value < |files| && !Acceptable(files[r.value])
    ensures r.Some? ==> forall j :: 0 <= j < r.value ==> Acceptable(files[j])
    ensures r.None? ==> forall j :: 0 <= j < |files| ==> Acceptable(files[j])
  {
    if files == [] then None
    else if !Acceptable(files[0]) then Some(0)
    else
      match FirstInvalid(files[1..])
      case None => None
      case Some(k) => Some(k + 1)
  }

  /** The storage folder of an accepted file. */
  function Folder(file: UploadedFile): string
  {
    match GetFileType(file.mimetype)
    case Ok(folder) => folder
    case Err(_) => ""
  }

  /** `path.join('uploads', folder, name)`. */
  function UploadPath(folder: string, name: string): string
  {
    "uploads/" + folder + "/" + name
  }

  /** Where an accepted file is written, under its generated name. */
  function StoredPath(file: UploadedFile, generated: string): string
  {
    UploadPath(Folder(file), generated + Extname(file.originalname))
  }

  /** The public URL of an accepted file. */
  function UrlOf(file: UploadedFile, generated: string, env: Option<string>): string
  {
    GetFileUrl(generated + Extname(file.originalname), Folder(file), env)
  }

  /** Whether a file fills `thumbnailUrl` (images) or `mediaUrl` (video and
      audio). */
  predicate Fills(file: UploadedFile, media: bool)
  {
    (file.mimetype in ImageTypes) != media
  }

  /** The last of the first `n` files that fills one of the two columns. */
  function LastFilling(files: seq<UploadedFile>, n: nat, media: bool): (r: Option<nat>)
    requires n <= |files|
    ensures r.Some? ==> r.value < n
  {
    if n == 0 then None
    else if Fills(files[n - 1], media) then Some(n - 1)
    else LastFilling(files, n - 1, media)
  }

  /** The file found fills the column and no later one does; none is found
      only when no file fills it. */
  lemma {:induction false} LastFillingMeaning(files: seq<UploadedFile>, n: nat, media: bool)
    requires n <= |files|
    ensures var r := LastFilling(files, n, media);
      && (r.None? <==> forall j :: 0 <= j < n ==> !Fills(files[j], media))
      && (r.Some? ==> Fills(files[r.value], media) && forall l :: r.value < l < n ==> !Fills(files[l], media))
  {
    if n > 0 && !Fills(files[n - 1], media) {
      LastFillingMeaning(files, n - 1, media);
    }
  }

  /** The URL the loop leaves in one of the two columns after the first `n`
      files: that of the last of them that fills it, none when none does. */
  function ColumnUrl(files: seq<UploadedFile>, names: seq<string>, n: nat, media: bool, env: Option<string>): Option<string>
    requires n <= |files| == |names|
  {
    match LastFilling(files, n, media)
    case None => None
    case Some(k) => Some(UrlOf(files[k], names[k], env))
  }

  /** One more file moves a column to its URL when it fills the column. */
  lemma ColumnStep(files: seq<UploadedFile>, names: seq<string>, i: nat, media: bool, env: Option<string>)
    requires i < |files| == |names|
    ensures Fills(files[i], media) ==> ColumnUrl(files, names, i + 1, media, env) == Some(UrlOf(files[i], names[i], env))
    ensures !Fills(files[i], media) ==> ColumnUrl(files, names, i + 1, media, env) == ColumnUrl(files, names, i, media, env)
  {
  }

  /** The creation request `uploadContent` hands to `create`. */
  function UploadPatch(req: UploadRequest, thumbnail: Option<string>, media: Option<string>,
                       metadata: Json, anyFiles: bool): (p: ContentPatch)
    ensures p.metadata == Some(metadata)
    ensures p.source == Some(OrElse(req.fields.source, if anyFiles then "upload" else "external"))
    ensures p.thumbnailUrl == (if thumbnail.Some? then thumbnail else req.fields.thumbnailUrl)
    ensures p.mediaUrl == (if media.Some? then media else req.fields.mediaUrl)
    ensures p.(thumbnailUrl := req.fields.thumbnailUrl, mediaUrl := req.fields.mediaUrl,
               metadata := req.fields.metadata, source := req.fields.source) == req.fields
  {
    req.fields.(thumbnailUrl := PickOpt(thumbnail, req.fields.thumbnailUrl),
                mediaUrl := PickOpt(media, req.fields.mediaUrl),
                metadata := Some(metadata),
                source := Some(OrElse(req.fields.source, if anyFiles then "upload" else "external")))
  }

  /** The paths of the first `n` files. */
  function StoredPaths(files: seq<UploadedFile>, names: seq<string>, n: nat): set<string>
    requires n <= |files| == |names|
  {
    set j | 0 <= j < n :: StoredPath(files[j], names[j])
  }

  /** Writing file `n` adds its path to those of the files before it. */
  lemma StoredPathsStep(files: seq<UploadedFile>, names: seq<string>, n: nat)
    requires n < |files| == |names|
    ensures StoredPaths(files, names, n + 1) == StoredPaths(files, names, n) + {StoredPath(files[n], names[n])}
  {
    var before, after := StoredPaths(files, names, n), StoredPaths(files, names, n + 1);
    var last := StoredPath(files[n], names[n]);
    forall x | x in after ensures x in before || x == last {
      var j :| 0 <= j < n + 1 && x == StoredPath(files[j], names[j]);
      if j < n {
        assert x in before;
      }
    }
    forall x | x in before ensures x in after {
      var j :| 0 <= j < n && x == StoredPath(files[j], names[j]);
      assert 0 <= j < n + 1;
    }
    assert last in after;
    assert forall x :: x in after <==> x in before + {last};
  }

  /** The publication date `create` gives a new row. */
  function CreationDate(dto: ContentPatch, now: int): Option<int>
  {
    if dto.status == Some(Published) then Some(now) else None
  }

  /** What `findOne` raises for an id no row has: NotFound for a uuid, and
      the database's error for text that is not a uuid. */
  function MissingError(id: string): Error
  {
    if IsUuid(id) then NotFound("Content with ID " + id + " not found") else Database(UuidMessage(id))
  }

  class ContentService {
    var records: map<string, ContentRecord>
    var uploads: set<string>

    /** Every row is stored under its own id. */
    ghost predicate Valid()
      reads this
    {
      forall id :: id in records ==> records[id].id == id
    }

    constructor ()
      ensures Valid() && records == map[] && uploads == {}
    {
      records := map[];
      uploads := {};
    }

    /** `findOne`: the row with that id; NotFound for a uuid no row has; the
       database's error for an id that is not a uuid. */
    function FindOne(id: string): (r: Result<ContentRecord>)
      requires Valid()
      reads this
      ensures r.Ok? <==> IsUuid(id) && id in records
      ensures r.Ok? ==> r.value == records[id] && r.value.id == id
      ensures r.Err? ==> r.error == MissingError(id)
      ensures !IsUuid(id) ==> r == Err(Database(UuidMessage(id)))
      ensures IsUuid(id) && id !in records ==> r == Err(NotFound("Content with ID " + id + " not found"))
    {
      if !IsUuid(id) then Err(Database(UuidMessage(id)))
      else if id in records then Ok(records[id])
      else Err(NotFound("Content with ID " + id + " not found"))
    }

    /** `create`: a new row by the user, published now when its status says
       so; the entity defaults fill the rest (the type defaults to video). */
    method Create(dto: ContentPatch, userId: Option<string>, freshId: string, now: int)
      returns (r: Result<ContentRecord>)
      requires Valid() && freshId !in records
      modifies this
      ensures Valid() && uploads == old(uploads)
      ensures r == InsertRow(CmsTypeDefault, dto, freshId, now, userId, userId, CreationDate(dto, now))
      ensures r.Ok? <==> dto.title.Some? && dto.category.Some?
      ensures r.Ok? ==> (r.value.publishedAt.Some? <==> r.value.status == Published)
      ensures r.Ok? ==> records == old(records)[freshId := r.value]
      ensures r.Ok? && IsUuid(freshId) ==> FindOne(freshId) == r
      ensures r.Err? ==> records == old(records)
    {
      r := InsertRow(CmsTypeDefault, dto, freshId, now, userId, userId, CreationDate(dto, now));
      if r.Ok? {
        records := records[freshId := r.value];
      }
    }

    /** `findAll`: the rows the request lists, counted in full, ordered by
       `sortBy` and cut to page `page` of `limit` rows. */
    method FindAll(d: ListRequest, scan: seq<string>) returns (r: Result<ContentPage>)
      requires Valid() && IsListing(scan, records)
      requires Page(d) >= 1 && Limit(d) >= 1
      ensures r.Ok? <==> EnumsAccepted(d, 3) && Orderable(CmsSchema, FieldNamed(SortBy(d)))
      ensures r.Err? ==> r.error.Database?
      ensures r.Ok? ==>
        var rows := Scan(records, scan);
        && r.value.total == |Filter(rows, ListedBy(d))|
        && r.value.page == Page(d) && r.value.limit == Limit(d)
        && r.value.totalPages == TotalPages(r.value.total, Limit(d))
        && r.value.data == Window(OrderRows(CmsSchema, Filter(rows, ListedBy(d)), SortBy(d), SortOrder(d)).value,
                                  Skip(Page(d), Limit(d)), Limit(d))
      ensures r.Ok? ==> |r.value.data| <= Limit(d)
      ensures r.Ok? ==> forall i :: 0 <= i < |r.value.data| ==>
        r.value.data[i] in records.Values && Lists(d, r.value.data[i])
    {
      var rows := Scan(records, scan);
      var w := ListWhere(d);
      FilterExt(rows, Matcher(w), ListedBy(d));
      var page, limit := Page(d), Limit(d);
      var found := FindAndCount(CmsSchema, rows, w, SortBy(d), SortOrder(d), Skip(page, limit), limit);
      if found.Err? {
        return Err(found.error);
      }
      var data := found.value.0;
      var total := found.value.1;
      ScanValues(records, scan, data);
      r := Ok(ContentPage(data, total, page, limit, TotalPages(total, limit)));
    }

    /** `update`: NotFound for a missing row; otherwise the patch and the
       editor are saved, with a publication date on the first move to
       published. */
    method Update(id: string, dto: ContentPatch, userId: Option<string>, now: int) returns (r: Result<ContentRecord>)
      requires Valid()
      modifies this
      ensures Valid() && uploads == old(uploads)
      ensures r.Ok? <==> IsUuid(id) && id in old(records)
      ensures r.Err? ==> r.error == MissingError(id) && records == old(records)
      ensures r.Ok? ==>
        && records == old(records)[id := Written(old(records)[id], dto, userId, now)]
        && r.value == Returned(old(records)[id], dto, userId, now)
    {
      var found := FindOne(id);
      if found.Err? {
        return Err(found.error);
      }
      var content := found.value;
      records := records[id := Written(content, dto, userId, now)];
      r := Ok(Returned(content, dto, userId, now));
    }

    /** `remove`: NotFound for a missing row, otherwise the row is gone. */
    method Remove(id: string) returns (r: Outcome)
      requires Valid()
      modifies this
      ensures Valid() && uploads == old(uploads)
      ensures r.Pass? <==> IsUuid(id) && id in old(records)
      ensures r.Fail? ==> r.error == MissingError(id) && records == old(records)
      ensures r.Pass? ==> records == old(records) - {id} && FindOne(id).Err?
    {
      var found := FindOne(id);
      if found.Err? {
        return Fail(found.error);
      }
      records := records - {id};
      r := Pass;
    }

    /** `publish`: the status update; the date is set only the first time. */
    method Publish(id: string, userId: Option<string>, now: int) returns (r: Result<ContentRecord>)
      requires Valid()
      modifies this
      ensures Valid() && uploads == old(uploads)
      ensures r.Ok? <==> IsUuid(id) && id in old(records)
      ensures r.Err? ==> r.error == MissingError(id) && records == old(records)
      ensures r.Ok? ==>
        && records == old(records)[id := Written(old(records)[id], StatusPatch(Published), userId, now)]
        && r.value.status == Published
        && r.value.publishedAt == (if old(records)[id].status == Published then old(records)[id].publishedAt else Some(now))
    {
      r := Update(id, StatusPatch(Published), userId, now);
    }

    /** `archive`: the status update; the publication date stays. */
    method Archive(id: string, userId: Option<string>, now: int) returns (r: Result<ContentRecord>)
      requires Valid()
      modifies this
      ensures Valid() && uploads == old(uploads)
      ensures r.Ok? <==> IsUuid(id) && id in old(records)
      ensures r.Err? ==> r.error == MissingError(id) && records == old(records)
      ensures r.Ok? ==>
        && records == old(records)[id := Written(old(records)[id], StatusPatch(Archived), userId, now)]
        && r.value.status == Archived && r.value.publishedAt == old(records)[id].publishedAt
    {
      r := Update(id, StatusPatch(Archived), userId, now);
    }

    /** One accepted file of `uploadContent`: written under its generated
       name in its family's folder, its public URL then filling
       `thumbnailUrl` for an image and `mediaUrl` for a video or audio
       file. */
    method StoreFile(file: UploadedFile, name: string, env: Option<string>,
                     thumbnail0: Option<string>, media0: Option<string>)
      returns (thumbnail: Option<string>, media: Option<string>)
      requires Acceptable(file)
      modifies this
      ensures records == old(records)
      ensures uploads == old(uploads) + {StoredPath(file, name)}
      ensures Fills(file, false) ==> thumbnail == Some(UrlOf(file, name, env)) && media == media0
      ensures Fills(file, true) ==> media == Some(UrlOf(file, name, env)) && thumbnail == thumbnail0
    {
      var fileType := GetFileType(file.mimetype).value;
      var uniqueName := name + Extname(file.originalname);
      uploads := uploads + {UploadPath(fileType, uniqueName)};
      var url := GetFileUrl(uniqueName, fileType, env);
      thumbnail, media := thumbnail0, media0;
      if fileType == "images" {
        thumbnail := Some(url);
      } else if fileType == "videos" || fileType == "audio" {
        media := Some(url);
      }
    }

    /** The loop of `uploadContent` over the files: each is checked, then
       written under its generated name, and its URL goes to the column its
       family fills. The first rejected file stops the loop; the files
       before it stay written. */
    method WriteFiles(files: seq<UploadedFile>, names: seq<string>, env: Option<string>)
      returns (failed: Option<nat>, thumbnail: Option<string>, media: Option<string>)
      requires |names| == |files|
      modifies this
      ensures records == old(records)
      ensures failed == FirstInvalid(files)
      ensures failed.Some? ==> uploads == old(uploads) + StoredPaths(files, names, failed.value)
      ensures failed.None? ==>
        && uploads == old(uploads) + StoredPaths(files, names, |files|)
        && thumbnail == ColumnUrl(files, names, |files|, false, env)
        && media == ColumnUrl(files, names, |files|, true, env)
    {
      thumbnail, media := None, None;
      var i := 0;
      while i < |files|
        invariant 0 <= i <= |files|
        invariant FirstInvalid(files).None? || FirstInvalid(files).value >= i
        invariant thumbnail == ColumnUrl(files, names, i, false, env)
        invariant media == ColumnUrl(files, names, i, true, env)
        invariant uploads == old(uploads) + StoredPaths(files, names, i)
        invariant records == old(records)
      {
        var check := ValidateFile(Some(files[i]));
        if check.Fail? {
          FirstInvalidFrom(files, i);
          return Some(i), thumbnail, media;
        }
        FirstInvalidFrom(files, i);
        ghost var before := uploads;
        ghost var t0, m0 := thumbnail, media;
        thumbnail, media := StoreFile(files[i], names[i], env, thumbnail, media);
        Advance(files, names, env, i, old(uploads), before, uploads, t0, m0, thumbnail, media);
        i := i + 1;
      }
      failed := None;
    }

    /** `uploadContent`: the metadata is parsed first; then each file in turn
       is checked and written, an image filling `thumbnailUrl` and a video or
       audio file `mediaUrl` (the last one wins); then the row is created.
       A rejected file stops the loop and leaves the files before it on
       disk. */
    method UploadContent(req: UploadRequest, files: seq<UploadedFile>, names: seq<string>,
                         env: Option<string>, parseJson: string -> Option<Json>,
                         userId: Option<string>, freshId: string, now: int)
      returns (r: Result<ContentRecord>)
      requires Valid() && freshId !in records && |names| == |files|
      modifies this
      ensures Valid()
      ensures MetadataOf(req, parseJson).Err? ==>
        r == Err(Failure(InvalidMetadata)) && records == old(records) && uploads == old(uploads)
      ensures MetadataOf(req, parseJson).Ok? && FirstInvalid(files).Some? ==>
        var k := FirstInvalid(files).value;
        && r == Err(ValidateFile(Some(files[k])).error)
        && records == old(records)
        && uploads == old(uploads) + StoredPaths(files, names, k)
      ensures MetadataOf(req, parseJson).Ok? && FirstInvalid(files).None? ==>
        var dto := UploadPatch(req, ColumnUrl(files, names, |files|, false, env), ColumnUrl(files, names, |files|, true, env),
                               MetadataOf(req, parseJson).value, |files| > 0);
        && r == InsertRow(CmsTypeDefault, dto, freshId, now, userId, userId, CreationDate(dto, now))
        && uploads == old(uploads) + StoredPaths(files, names, |files|)
        && (r.Ok? ==> records == old(records)[freshId := r.value])
        && (r.Err? ==> records == old(records))
    {
      var metadata := MetadataOf(req, parseJson);
      if metadata.Err? {
        return Err(metadata.error);
      }
      var failed, thumbnail, media := WriteFiles(files, names, env);
      if failed.Some? {
        return Err(ValidateFile(Some(files[failed.value])).error);
      }
      var dto := UploadPatch(req, thumbnail, media, metadata.value, |files| > 0);
      r := Create(dto, userId, freshId, now);
    }
  }

  lemma UnionAssoc<T>(a: set<T>, b: set<T>, c: set<T>)
    ensures a + b + c == a + (b + c)
  {
  }

  /** Scanning from `i`, when every file before `i` passed: the first
      rejected file is `i` when `i` is rejected, and later otherwise. */
  lemma FirstInvalidFrom(files: seq<UploadedFile>, i: nat)
    requires i < |files|
    requires FirstInvalid(files).None? || FirstInvalid(files).value >= i
    ensures !Acceptable(files[i]) ==> FirstInvalid(files) == Some(i)
    ensures Acceptable(files[i]) ==> FirstInvalid(files).None? || FirstInvalid(files).value > i
  {
  }

  /** One more stored file keeps the loop's account of the disk and of the
      two columns. */
  lemma Advance(files: seq<UploadedFile>, names: seq<string>, env: Option<string>, i: nat,
                u0: set<string>, u1: set<string>, u: set<string>,
                t0: Option<string>, m0: Option<string>, t: Option<string>, m: Option<string>)
    requires i < |files| == |names|
    requires u1 == u0 + StoredPaths(files, names, i) && u == u1 + {StoredPath(files[i], names[i])}
    requires t0 == ColumnUrl(files, names, i, false, env) && m0 == ColumnUrl(files, names, i, true, env)
    requires Fills(files[i], false) ==> t == Some(UrlOf(files[i], names[i], env)) && m == m0
    requires Fills(files[i], true) ==> m == Some(UrlOf(files[i], names[i], env)) && t == t0
    ensures u == u0 + StoredPaths(files, names, i + 1)
    ensures t == ColumnUrl(files, names, i + 1, false, env) && m == ColumnUrl(files, names, i + 1, true, env)
  {
    UnionAssoc(u0, StoredPaths(files, names, i), {StoredPath(files[i], names[i])});
    StoredPathsStep(files, names, i);
    ColumnStep(files, names, i, false, env);
    ColumnStep(files, names, i, true, env);
  }

  /** Rows taken from a scan of the table are rows of the table. */
  lemma ScanValues(m: map<string, ContentRecord>, scan: seq<string>, data: seq<ContentRecord>)
    requires forall i :: 0 <= i < |scan| ==> scan[i] in m
    requires forall i :: 0 <= i < |data| ==> data[i] in Scan(m, scan)
    ensures forall i :: 0 <= i < |data| ==> data[i] in m.Values
  {
    var rows := Scan(m, scan);
    forall i | 0 <= i < |data| ensures data[i] in m.Values {
      assert data[i] in rows;
      var j :| 0 <= j < |rows| && rows[j] == data[i];
      assert rows[j] == m[scan[j]];
    }
  }

  /** The first rejected file is the first index the checks fail at. */
  lemma {:induction false} FirstInvalidAt(files: seq<UploadedFile>, i: nat)
    requires i < |files| && !Acceptable(files[i])
    requires forall j :: 0 <= j < i ==> Acceptable(files[j])
    ensures FirstInvalid(files) == Some(i)
  {
    if i > 0 {
      FirstInvalidAt(files[1..], i - 1);
    }
  }

  lemma {:induction false} FirstInvalidNone(files: seq<UploadedFile>)
    requires forall j :: 0 <= j < |files| ==> Acceptable(files[j])
    ensures FirstInvalid(files).None?
  {
    if files != [] {
      assert forall j :: 0 <= j < |files[1..]| ==> files[1..][j] == files[j + 1];
      FirstInvalidNone(files[1..]);
    }
  }
}
