# thmanyah content platform — a Dafny model

This project models the core of two NestJS services that share one `content` table.

- **CMS (`thmanyah-cms`).** Editors use it to:
  - create, list, update, publish, archive and delete content records;
  - upload media files with a record;
  - stream uploaded files with HTTP byte ranges;
  - import records from a custom JSON source (YouTube and Spotify are placeholders).
- **Discovery service (`thmanyah-discovery`).** It serves published content through two search paths:
  - from the relational store, through TypeORM `where` objects;
  - from a search index, through boolean queries.

  It also serves featured lists, by-type lists, categories, languages and statistics, and keeps a small store service of its own.

The model follows the source's own form:

- **Services that change state are classes with methods.** These are the CMS `ContentService`, the discovery `ContentService` and the `SearchService`. Their fields are a map from id to record (or to index document) and the set of stored upload paths. Their methods carry `modifies` clauses and state the whole new state.
- **Code that fills a dictionary or an accumulator step by step is a method with a loop.** This covers the `where` objects, the stats `reduce`, the upload file loop, and the import loops.
- **Everything else is a function.** That includes the file-type tables, duration parsing, the range arithmetic, the DTO defaults and pagination.

Each operation is proved against a specification: a function of its inputs, or a predicate on the records it selects. The properties the source promises are lemmas about those specifications.

Ambient values and foreign behaviour are parameters:

- **Clock and environment:** the clock is `now: int`, and `process.env.BASE_URL` is `env: Option<string>`.
- **Generated values:** the fresh uuid of a new record is `freshId`, and the generated names of stored files are `names`.
- **Library calls:** `JSON.parse` is `parseJson`. The import's call to `create` is `create: Fields -> Option<string>`, which returns the error text if it throws.
- **Search engine:**
  - the analysed text match is `matches`;
  - `_score` is `relevance`;
  - the completion suggester is `complete`;
  - the order in which the store or the index yields its rows is `scan`, a listing of the keys.
- **Availability:** whether the search backend is reachable is the class field `available`.

Several behaviours are modelled as written because the source does them:

- An empty update writes nothing, yet the returned entity has `updatedBy` cleared.
- A byte range past the end of the file is answered with 206.
- The discovery store path drops the language condition when the language is empty, while the index path still asks for an empty language.
- The index path caps its total at 10000 hits.

## Model

| member | source | states |
|---|---|---|
| Entities.TypeNamed | thmanyah-discovery/src/content/entities/content.entity.ts:10-15 | a string names a content type exactly when it is one of the enum's values, and then it names only that type |
| Entities.StatusNamed | thmanyah-discovery/src/content/entities/content.entity.ts:17-21 | a string names a status exactly when it is one of the enum's values, and then it names only that status |
| Entities.Property | thmanyah-discovery/src/search/search.service.ts:48 | reading a property yields a value exactly when the JSON is an object holding that key |
| Entities.ApplyPatchLaws | thmanyah-cms/src/content/content.service.ts:121-124 | copying the CMS DTO fields onto a record (`Object.assign`) never touches id, timestamps or authors; the empty DTO is the identity; applying the same DTO twice equals applying it once; two DTOs in a row equal their merge |
| Entities.InsertRow | thmanyah-cms/src/content/entities/content.entity.ts:27-87 | inserting succeeds exactly when title, category and a type (given or the column default) are present; language defaults to `ar` and status to draft; every other column holds the given value; a missing title is a NOT NULL database error |
| CmsContent.ListWhere | thmanyah-cms/src/content/content.service.ts:56-80 | a record satisfies the built `where` object exactly when it matches every supplied filter (title substring, type, status, category, language, source); the object is accepted by the database exactly when the supplied type and status name enum members |
| CmsContent.ListStage | thmanyah-cms/src/content/content.service.ts:58-80 | adding the next optional filter to the `where` object narrows its meaning by exactly that filter and keeps acceptance tied to the enum checks made so far |
| CmsContent.ListWhereMeaning | thmanyah-cms/src/content/content.service.ts:56-80 | the first k filters of the listing request denote exactly the records matching those k filters, and are accepted exactly when their enum values are valid |
| CmsContent.Written | thmanyah-cms/src/content/content.service.ts:113-126 | the stored row after `update` keeps id and creation data, takes every field the DTO supplies, replaces `updatedBy` only when a user is given, and sets `publishedAt` to now only on a transition into published |
| CmsContent.Returned | thmanyah-cms/src/content/content.service.ts:121-126 | the entity `update` returns equals the stored row except that its `updatedBy` is always the given user, even when absent |
| CmsContent.EmptyUpdateWritesNothing | thmanyah-cms/src/content/content.service.ts:121-126 | an update with no fields and no user leaves the stored row unchanged |
| CmsContent.PublicationDate | thmanyah-cms/src/content/content.service.ts:113-140 | publishing twice keeps the first publication date; archiving keeps the date; publishing an archived record stamps a new date |
| CmsContent.AnonymousUpdate | thmanyah-cms/src/content/content.service.ts:121-124 | without a user the stored `updatedBy` survives while the returned entity shows it cleared |
| CmsContent.LastIndexOfMeaning | thmanyah-cms/src/content/content.service.ts:225 | the last index of a character is absent exactly when the character does not occur, and otherwise no later occurrence exists |
| CmsContent.ExtnameShape | thmanyah-cms/src/content/content.service.ts:225 | a file's extension is empty or a dot followed by dot-free text, and a non-empty one is a proper suffix of the name not starting at its first character |
| CmsContent.ExtnameOf | thmanyah-cms/src/content/content.service.ts:225 | a name made of a non-trivial stem, a dot and dot-free text has that dot and text as its extension |
| CmsContent.ExtnameAtLastDot | thmanyah-cms/src/content/content.service.ts:225 | a non-empty extension starts at the last dot of the name |
| CmsContent.ExtnameIsLastDotPart | thmanyah-cms/src/content/content.service.ts:225 | a non-empty extension is a dot followed by the text after the last dot |
| CmsContent.StoredNameKeepsType | thmanyah-cms/src/content/content.service.ts:225 | a stored file named by a generated dot-free name plus the original's extension is streamed with the same content type as the original name |
| CmsContent.MetadataOf | thmanyah-cms/src/content/content.service.ts:205-212 | absent or empty metadata becomes the empty object; otherwise it is the parsed JSON, or the error "Invalid metadata JSON format" when parsing fails |
| CmsContent.FirstInvalid | thmanyah-cms/src/content/content.service.ts:218-220 | the position of the first file the validator refuses, with every earlier file acceptable; absent exactly when all files are acceptable |
| CmsContent.LastFillingMeaning | thmanyah-cms/src/content/content.service.ts:248-252 | the file that sets a URL column is the last file of that kind, and none exists exactly when no file of that kind was uploaded |
| CmsContent.ColumnStep | thmanyah-cms/src/content/content.service.ts:248-252 | after one more file, the thumbnail or media URL is that file's URL when it is of the matching kind and is unchanged otherwise |
| CmsContent.UploadPatch | thmanyah-cms/src/content/content.service.ts:257-262 | the created DTO carries the parsed metadata, the file URLs in place of the given ones when files supplied them, the given source or else `upload`/`external`, and every other field as submitted |
| CmsContent.StoredPathsStep | thmanyah-cms/src/content/content.service.ts:233-242 | writing one more file adds exactly its path `uploads/<type>/<name>` to the stored paths |
| CmsContent.ContentService.constructor | thmanyah-cms/src/content/content.service.ts:12-17 | the service starts with no records and no stored files |
| CmsContent.ContentService.FindOne | thmanyah-cms/src/content/content.service.ts:98-104 | succeeds exactly when the id is uuid text and a record has it, returning that record; an id that is not uuid text is the database error `invalid input syntax for type uuid: "…"`; a uuid with no record is NotFound "Content with ID … not found" |
| CmsContent.ContentService.Create | thmanyah-cms/src/content/content.service.ts:19-34 | inserts a row authored by the user as both creator and updater, with `publishedAt` set exactly when the initial status is published, and stores exactly that row under the fresh id, where a later lookup finds it; fails without change when title or category is missing |
| CmsContent.ContentService.FindAll | thmanyah-cms/src/content/content.service.ts:36-96 | the page is the ordered filtered records from offset (page−1)×limit, at most limit of them, each matching every filter; total counts the whole filtered set; totalPages is ceil(total/limit); an invalid enum or unknown sort column is a database error |
| CmsContent.ContentService.Update | thmanyah-cms/src/content/content.service.ts:106-127 | succeeds exactly when the id is uuid text of a stored record; otherwise the lookup's error (uuid syntax or NotFound) with nothing changed; on success only that record is rewritten, as `Written` states, and the returned entity is `Returned` |
| CmsContent.ContentService.Remove | thmanyah-cms/src/content/content.service.ts:129-132 | succeeds exactly when the id is uuid text of a stored record, and then exactly that record is gone and a later lookup fails; otherwise the lookup's error with nothing changed |
| CmsContent.ContentService.Publish | thmanyah-cms/src/content/content.service.ts:134-136 | fails with the lookup's error and no change unless the id is uuid text of a stored record; otherwise the record becomes published, keeping its date when it was already published and taking now otherwise; no other record changes |
| CmsContent.ContentService.Archive | thmanyah-cms/src/content/content.service.ts:138-140 | fails with the lookup's error and no change unless the id is uuid text of a stored record; otherwise the record becomes archived with its publication date kept; no other record changes |
| CmsContent.ContentService.StoreFile | thmanyah-cms/src/content/content.service.ts:222-252 | writes one accepted file, adding its path, and sets the thumbnail URL for an image or the media URL for video/audio |
| CmsContent.ContentService.WriteFiles | thmanyah-cms/src/content/content.service.ts:217-254 | stops at the first refused file having written every earlier one; otherwise writes all files and returns the URL of the last image and the last video/audio file |
| CmsContent.ContentService.UploadContent | thmanyah-cms/src/content/content.service.ts:199-265 | bad metadata fails before any file is written; a refused file fails with the validator's error after writing the files before it and creates no record; otherwise the record created is the upload DTO with file URLs and default source |
| ContentStore.PublishedNow | thmanyah-discovery/src/content/content.service.ts:42-45 | publishing sets status published and `publishedAt` to now, and changes nothing else but the update time |
| ContentStore.Unpublished | thmanyah-discovery/src/content/content.service.ts:56 | unpublishing sets status draft, keeps `publishedAt`, and changes nothing else but the update time |
| ContentStore.Updated | thmanyah-discovery/src/content/content.service.ts:23-26 | `update(id, partial)` on a row: the key, authors, creation and publication dates take the given value or keep the old one, `updatedAt` takes the given value or now, every DTO field given replaces the old one and nothing else changes |
| ContentStore.UpdatedLaws | thmanyah-discovery/src/content/content.service.ts:23-63 | an update with DTO fields only keeps the key, authors and dates; repeating an update changes nothing more; the empty update only stamps the time; publishing and unpublishing are the updates with the status (and date) they write |
| ContentStore.Inserted | thmanyah-discovery/src/content/content.service.ts:15-18 | `create` then `save` of a new row succeeds exactly when title, type and category are present, takes the given id, authors and publication date, and defaults the dates to now; otherwise the NOT NULL error |
| ContentStore.RepublishMovesDate | thmanyah-discovery/src/content/content.service.ts:40-52 | publishing an already published record moves its date to the latest call; unpublishing then publishing equals publishing |
| ContentStore.UnpublishRemembersDate | thmanyah-discovery/src/content/content.service.ts:54-63 | unpublishing a published record leaves it a draft still carrying its old publication date |
| ContentStore.ContentService.constructor | thmanyah-discovery/src/content/content.service.ts:10-13 | the store starts empty |
| ContentStore.UpdateError | thmanyah-discovery/src/content/content.service.ts:25 | an update that never reaches a row fails with the empty-criteria error for an empty id, then the uuid syntax error of a bad new key, then that of a bad id |
| ContentStore.ContentService.CreateContent | thmanyah-discovery/src/content/content.service.ts:15-21 | without an id, inserts the row under the fresh id; an id that is not uuid text is the uuid syntax error; an existing id updates that row (save as upsert); any other id inserts under it; a success stores exactly the returned row, which a later lookup returns; a failure changes nothing |
| ContentStore.ContentService.UpdateContent | thmanyah-discovery/src/content/content.service.ts:23-32 | an empty id is TypeORM's empty-criteria error, a non-uuid key or new key the uuid syntax error, each with nothing changed; an absent id fails with "Content with id … not found"; a new key held by another row is the duplicate-key error; otherwise only that row is rewritten as `Updated` states, re-keyed if the key changed, and the re-read row is returned |
| ContentStore.ContentService.DeleteContent | thmanyah-discovery/src/content/content.service.ts:34-38 | an empty id is TypeORM's empty-criteria error and a non-uuid id the uuid syntax error, each with nothing changed; a uuid id is removed, whether or not it was stored, and a later lookup finds nothing |
| ContentStore.ContentService.PublishContent | thmanyah-discovery/src/content/content.service.ts:40-52 | an empty or non-uuid id fails as `update` does, and an absent id with "Content with id … not found", each without change; otherwise only that record is published with the current date, even when it already was published |
| ContentStore.ContentService.UnpublishContent | thmanyah-discovery/src/content/content.service.ts:54-63 | an empty or non-uuid id fails as `update` does, and an absent id with "Content with id … not found", each without change; otherwise only that record becomes a draft with its date kept |
| ContentStore.ContentService.GetContentById | thmanyah-discovery/src/content/content.service.ts:66-68 | an error exactly when the id is not uuid text (the uuid syntax error); otherwise the record with that id, or nothing when it is absent |
| ContentStore.ContentService.GetAllContent | thmanyah-discovery/src/content/content.service.ts:70-72 | every stored record exactly once |
| Counting.GroupCounts | thmanyah-discovery/src/discovery/discovery.service.ts:182-204 | one row per group value, pairing the value's name with its count rendered as a decimal string |
| Counting.ReduceCounts | thmanyah-discovery/src/discovery/discovery.service.ts:208-219 | the accumulator holds, for each row's name other than `__proto__`, the parsed count of the last row with that name; a row named `__proto__` is dropped, as the JavaScript assignment to that key is |
| Counting.ReducedGroupCounts | thmanyah-discovery/src/discovery/discovery.service.ts:182-219 | reducing the grouped rows yields a map whose keys are exactly the group names other than `__proto__` and whose value for each is that group's count |
| Counting.DistinctCountsSum | thmanyah-discovery/src/discovery/discovery.service.ts:178-219 | the per-value counts of a sequence add up to its length, so each stats map sums to the total |
| Discovery.StatusStage | thmanyah-discovery/src/discovery/discovery.service.ts:35-37 | the status condition alone describes the status filter of a search |
| Discovery.Stage | thmanyah-discovery/src/discovery/discovery.service.ts:39-61 | each optional condition added to the `where` object narrows its meaning by exactly that filter |
| Discovery.AllStages | thmanyah-discovery/src/discovery/discovery.service.ts:35-61 | the complete `where` object selects exactly the records the search shows, and is accepted exactly when status and any given type are enum members |
| Discovery.SearchWhere | thmanyah-discovery/src/discovery/discovery.service.ts:35-61 | a record satisfies the built `where` object exactly when it has the status, case-insensitively contains the query in its title, and has each supplied type, category, non-empty language and source |
| Discovery.SearchContent | thmanyah-discovery/src/discovery/discovery.service.ts:14-98 | the page is the shown records in the requested order from offset (page−1)×limit, at most limit; total counts all shown records; totalPages = ceil(total/limit); hasMore iff page < totalPages; an unknown sort column is a database error |
| Discovery.GetContentById | thmanyah-discovery/src/discovery/discovery.service.ts:100-109 | a record is returned exactly when the id is uuid text and a published record has it; an id that is not uuid text is the uuid syntax error; a uuid with no published record is NotFound "Content with ID … not found or not published" |
| Discovery.PublishedAtOrder | thmanyah-discovery/src/discovery/discovery.service.ts:115 | in a descending publication order, the earlier record was published no earlier, with unpublished rows first |
| Discovery.NewestFound | thmanyah-discovery/src/discovery/discovery.service.ts:113-149 | finding by publication date descending with a limit returns min(limit, matches) rows, newest first |
| Discovery.LatestCards | thmanyah-discovery/src/discovery/discovery.service.ts:113-149 | the cards are exactly the matching records as `Table.OrderRows` orders them by publication date descending, cut to the limit; they number min(limit, matches) (all matches for a limit of 0) and run newest first |
| Discovery.GetFeaturedContent | thmanyah-discovery/src/discovery/discovery.service.ts:112-130 | succeeds exactly when the limit (default 10) is not negative, else the database error "LIMIT must not be negative"; the result is exactly the published records as `Table.OrderRows` orders them by publication date descending, cut to the limit, so only published and newest first; min(limit, published) of them, or all of them when the limit is 0 |
| Discovery.GetContentByType | thmanyah-discovery/src/discovery/discovery.service.ts:132-150 | a string that is no type is the enum database error, then a negative limit (default 20) the "LIMIT must not be negative" error; otherwise exactly the published records of that type as `Table.OrderRows` orders them by publication date descending, cut to the limit (a limit of 0 keeps them all) |
| Discovery.TypedWhere | thmanyah-discovery/src/discovery/discovery.service.ts:134 | the type-and-status condition selects exactly the published records of that type |
| Discovery.CardsOfType | thmanyah-discovery/src/discovery/discovery.service.ts:132-150 | every card drawn from the records of a type has that type |
| Discovery.PublishedValuesMembers | thmanyah-discovery/src/discovery/discovery.service.ts:152-170 | a value is among the published values exactly when some published record carries it |
| Discovery.GetCategories | thmanyah-discovery/src/discovery/discovery.service.ts:152-160 | each category of a published record exactly once, and no other |
| Discovery.GetLanguages | thmanyah-discovery/src/discovery/discovery.service.ts:162-170 | each language of a published record exactly once, and no other |
| Discovery.CountBy | thmanyah-discovery/src/discovery/discovery.service.ts:182-219 | the per-value count map has a key exactly for each value present other than `__proto__`, holding that value's number of occurrences; the occurrence counts of the distinct values add up to the number of values |
| Discovery.GetContentStats | thmanyah-discovery/src/discovery/discovery.service.ts:172-220 | total is the number of published records, and byType, byCategory and byLanguage map each value of those records other than `__proto__` to its number of occurrences, the occurrences of the distinct values summing to total |
| FileUpload.AllowedMimeTypes | thmanyah-cms/src/content/services/file-upload.service.ts:118-120 | the image, video and audio lists together are the allowed types |
| FileUpload.GetMaxFileSize | thmanyah-cms/src/content/services/file-upload.service.ts:122-124 | the limit is 104857600 bytes (100 MiB) |
| FileUpload.GetFileType | thmanyah-cms/src/content/services/file-upload.service.ts:62-73 | `images`, `videos` or `audio` exactly for the types of that list, and BadRequest "Unsupported file type: …" for any other |
| FileUpload.SizeMessageText | thmanyah-cms/src/content/services/file-upload.service.ts:80-84 | the size error reads "File size too large. Maximum allowed: 100MB" |
| FileUpload.ValidateFile | thmanyah-cms/src/content/services/file-upload.service.ts:75-97 | passes exactly for a present file within the size limit and of an allowed type; checks presence, then size, then type, the first failure giving the error |
| FileUpload.AcceptedHasType | thmanyah-cms/src/content/services/file-upload.service.ts:86-88 | every accepted file has a file type, one of the three folders |
| FileUpload.SizeBoundary | thmanyah-cms/src/content/services/file-upload.service.ts:80 | exactly 100 MiB is accepted and one byte more is refused with the size error |
| FileUpload.BaseUrl | thmanyah-cms/src/content/services/file-upload.service.ts:100 | the configured base URL when set and non-empty, else `http://localhost:3000` |
| FileUpload.FileUrlShape | thmanyah-cms/src/content/services/file-upload.service.ts:99-102 | a file URL is the base, `/uploads/`, the file type, `/` and the file name |
| FileUpload.FileUrlLastSegment | thmanyah-cms/src/content/services/file-upload.service.ts:99-102 | the last path segment of a file URL is the file name |
| Import.ImportFromYouTube | thmanyah-cms/src/content/services/import.service.ts:23-42 | always succeeds with nothing imported and the single error "YouTube import not yet implemented" |
| Import.ImportFromSpotify | thmanyah-cms/src/content/services/import.service.ts:44-68 | always succeeds with nothing imported and the single error "Spotify import not yet implemented" |
| Import.Group | thmanyah-cms/src/content/services/import.service.ts:142 | an optional `(\d+)X` group captures a non-empty digit run followed by the designator, or captures nothing and consumes nothing |
| Import.Groups | thmanyah-cms/src/content/services/import.service.ts:142 | the hour, minute and second captures are each absent or a non-empty digit run |
| Import.DurationMatch | thmanyah-cms/src/content/services/import.service.ts:142-143 | the pattern matches exactly when `PT` occurs somewhere in the text, and every capture is a digit run |
| Import.CaptureValue | thmanyah-cms/src/content/services/import.service.ts:145-147 | a missing group counts as 0, a captured one as its decimal value |
| Import.NoMatchIsZero | thmanyah-cms/src/content/services/import.service.ts:142-143 | a duration without `PT` parses to 0 |
| Import.GroupsOfComponents | thmanyah-cms/src/content/services/import.service.ts:142 | the groups of a rendered `#H#M#S` part capture exactly the rendered numbers |
| Import.MatchOfIso | thmanyah-cms/src/content/services/import.service.ts:142 | a rendered ISO 8601 time duration matches, with the captures of its hours, minutes and seconds |
| Import.DurationRoundTrip | thmanyah-cms/src/content/services/import.service.ts:140-150 | parsing `PT[hH][mM][sS]` yields 3600·h + 60·m + s with each missing part counting 0 |
| Import.FourMinutesThirteen | thmanyah-cms/src/content/services/import.service.ts:141 | `PT4M13S` is 253 seconds |
| Import.WithDefaults | thmanyah-cms/src/content/services/import.service.ts:112-118 | type and language end truthy: kept when already truthy, else `video` and `ar`; every other field is untouched |
| Import.DefaultsIdempotent | thmanyah-cms/src/content/services/import.service.ts:112-118 | applying the defaults a second time changes nothing |
| Import.CopiedKeys | thmanyah-cms/src/content/services/import.service.ts:106-110 | a target field is set exactly when some mapping entry names it and its source property is defined |
| Import.CopiedValue | thmanyah-cms/src/content/services/import.service.ts:106-110 | with distinct targets, each set field holds the item's value of its source property |
| Import.MapCustomData | thmanyah-cms/src/content/services/import.service.ts:99-121 | a null item with a non-empty mapping throws the JavaScript null-read TypeError; otherwise the DTO is the defined copied fields with the type/language defaults |
| Import.EveryItemAccounted | thmanyah-cms/src/content/services/import.service.ts:81-89 | each item either counts as imported or adds exactly one error |
| Import.ImportedSome | thmanyah-cms/src/content/services/import.service.ts:91 | the count is positive exactly when some item mapped and was created |
| Import.ImportFromCustomSource | thmanyah-cms/src/content/services/import.service.ts:70-97 | imported + errors = items, each error is "Failed to import item: " plus the cause, and success holds exactly when something was imported |
| Import.TransformYouTubeVideo | thmanyah-cms/src/content/services/import.service.ts:123-138 | a draft video in category and source `youtube`, language `ar`, media URL the watch URL of the id, duration parsed from the ISO text, and the raw video as source data |
| Import.WatchUrlId | thmanyah-cms/src/content/services/import.service.ts:133 | a watch URL starts with the YouTube prefix and ends with the id, so equal URLs mean equal ids |
| Media.LastDotPart | thmanyah-cms/src/content/content.service.ts:311 | the text after the last dot contains no dot |
| Media.ExtensionTable | thmanyah-cms/src/content/content.service.ts:310-343 | each listed video, audio and image extension maps to its MIME type, and any other to `application/octet-stream` |
| Media.VideoExtension | thmanyah-cms/src/content/content.service.ts:313-322 | each video extension maps to its MIME type |
| Media.AudioExtension | thmanyah-cms/src/content/content.service.ts:323-330 | each audio extension maps to its MIME type |
| Media.ImageExtension | thmanyah-cms/src/content/content.service.ts:331-339 | each image extension maps to its MIME type |
| Media.UnknownExtension | thmanyah-cms/src/content/content.service.ts:340-341 | an unlisted extension maps to `application/octet-stream` |
| Media.ContentTypeOfExtension | thmanyah-cms/src/content/content.service.ts:311 | only the text after the last dot decides the type, and its case does not matter |
| Media.Limits | thmanyah-cms/src/content/content.service.ts:286-289 | a range is readable exactly when both ends are numbers with 0 ≤ start ≤ end, otherwise the stream refuses it |
| Media.Bounds | thmanyah-cms/src/content/content.service.ts:286-289 | a readable range never ends before it starts |
| Media.ParseRange | thmanyah-cms/src/content/content.service.ts:285-289 | a parsed range has start ≤ end; anything else is a failure |
| Media.StreamHead | thmanyah-cms/src/content/content.service.ts:269-308 | a missing file is 404; without a range the whole file is served with its type; with one, a 206 exactly when the range parses, carrying the file's content type, length end−start+1 ≥ 1, the `bytes start-end/size` header and `Accept-Ranges: bytes`; a refused range gives the parse error |
| Media.TwoParts | thmanyah-cms/src/content/content.service.ts:286-287 | when the end part is given, the range is both parts parsed as integers |
| Media.RangeRoundTrip | thmanyah-cms/src/content/content.service.ts:285-289 | the header `bytes=first-last` parses back to (first, last) |
| Media.OpenRangeToEnd | thmanyah-cms/src/content/content.service.ts:287 | `bytes=first-` runs to the last byte of the file |
| Media.SuffixRangeRefused | thmanyah-cms/src/content/content.service.ts:285-289 | a suffix range `bytes=-n` is refused, since its start is not a number |
| Media.UnsatisfiableRangeServed | thmanyah-cms/src/content/content.service.ts:284-297 | a range wholly past the end of a file still parses and is answered with a partial-content head |
| Ordering.ValueLeqTotal | thmanyah-discovery/src/search/search.service.ts:152-161 | any two sort values are comparable, in either direction and with missing values placed first or last |
| Ordering.KeysLeqTotal | thmanyah-discovery/src/search/search.service.ts:152-161 | a lexicographic multi-key order compares any two documents |
| Ordering.KeyOrderTotal | thmanyah-discovery/src/search/search.service.ts:152-161 | a multi-key sort order is total |
| Ordering.Insert | thmanyah-discovery/src/search/search.service.ts:152-161 | inserting into a sorted sequence keeps it sorted and adds exactly the element |
| Ordering.Sort | thmanyah-discovery/src/search/search.service.ts:152-161 | the result is a sorted permutation of the input |
| Ordering.SortMapped | thmanyah-discovery/src/search/search.service.ts:163-187 | sorting then projecting equals projecting then sorting under the corresponding order |
| Pagination.TotalPagesBounds | thmanyah-discovery/src/discovery/discovery.service.ts:87 | totalPages = ceil(total/limit): totalPages pages hold the total and one fewer would not |
| Pagination.SkipFirstPage | thmanyah-discovery/src/discovery/discovery.service.ts:66 | the skip (page−1)×limit is zero exactly on page 1 |
| Pagination.Window | thmanyah-discovery/src/discovery/discovery.service.ts:66-67 | skip/take returns at most take items, the run of the input starting at the skip |
| Pagination.PageNonEmpty | thmanyah-discovery/src/discovery/discovery.service.ts:63-88 | a page has items exactly when its number is at most totalPages |
| Pagination.HasMoreIffNextPage | thmanyah-discovery/src/discovery/discovery.service.ts:87-88 | hasMore holds exactly when the next page has items |
| Pagination.PagesPrefix | thmanyah-discovery/src/discovery/discovery.service.ts:63-67 | the first n pages together are the first n×limit items |
| Pagination.PagesPartition | thmanyah-discovery/src/discovery/discovery.service.ts:63-88 | pages 1 to totalPages together are the whole result, each item once and in order |
| QueryDto.Page | thmanyah-cms/src/content/dto/query-content.dto.ts:37-41 | page defaults to 1 and a valid request has page ≥ 1 |
| QueryDto.Limit | thmanyah-cms/src/content/dto/query-content.dto.ts:43-48 | limit defaults to 10 and a valid request has it within [1, 100] |
| QueryDto.SortBy | thmanyah-cms/src/content/dto/query-content.dto.ts:50-52 | sortBy defaults to `createdAt` |
| QueryDto.SortOrder | thmanyah-cms/src/content/dto/query-content.dto.ts:54-56 | sortOrder defaults to `DESC` |
| QueryDto.EmptyDefaults | thmanyah-cms/src/content/dto/query-content.dto.ts:17-56 | the empty request is valid and resolves to page 1, limit 10, `createdAt`, `DESC` |
| QueryDto.OrderUnchecked | thmanyah-cms/src/content/dto/query-content.dto.ts:54-56 | validity never depends on the sort order text |
| SearchDto.Resolve | thmanyah-discovery/src/discovery/dto/search-content.dto.ts:12-97 | defaults replace only absent fields: status published, language `ar`, page 1, limit 20, `createdAt`, `DESC`; the filters pass through |
| SearchDto.ResolveValid | thmanyah-discovery/src/discovery/dto/search-content.dto.ts:20-79 | a valid request resolves to a status that is an enum member, page ≥ 1 and limit within [1, 100] |
| SearchDto.EmptyDefaults | thmanyah-discovery/src/discovery/dto/search-content.dto.ts:28-97 | the empty request is valid and resolves to published, `ar`, page 1, limit 20, `createdAt`, `DESC` |
| SearchDto.OrderAndModeUnchecked | thmanyah-discovery/src/discovery/dto/search-content.dto.ts:95-159 | validity depends neither on the sort order text nor on the search mode text |
| SearchIndex.TagsOf | thmanyah-discovery/src/search/search.service.ts:48 | the indexed tags are the metadata's tags when truthy, otherwise `[]` |
| SearchIndex.Project | thmanyah-discovery/src/search/search.service.ts:34-55 | the document of a record carries its id and its tags |
| SearchIndex.ProjectRoundTrip | thmanyah-discovery/src/search/search.service.ts:34-55 | the document keeps every record column except the authors, so the record is recovered from it |
| SearchIndex.ListingAgrees | thmanyah-discovery/src/search/search.service.ts:34-55 | the listing read from a document equals the listing of the record it came from |
| SearchIndex.PushClause | thmanyah-discovery/src/search/search.service.ts:263 | pushing appends the clause to an existing list; pushing onto an absent list is a TypeError |
| SearchIndex.Extreme | thmanyah-discovery/src/config/elasticsearch.config.ts:51-52 | sorting on a multi-valued keyword uses one of its values, and a document without values is missing |
| SearchIndex.IndexOf | thmanyah-discovery/src/search/search.service.ts:152-161 | the position of a key in the index order: the first one holding it, or the length when it is absent |
| SearchIndex.CompileSort | thmanyah-discovery/src/search/search.service.ts:152-161 | a sort compiles, key for key, exactly when every field sort has order `asc` or `desc` on `_score`, `_doc`, `title.keyword` or a sortable mapped field; `_score` orders by relevance, `_doc` by index order, `title.keyword` by the title; otherwise a search error |
| SearchIndex.ExtractTotal | thmanyah-discovery/src/search/search.service.ts:189 | total is the number when the response gives one, else its `value`, else 0 |
| SearchIndex.Bucket | thmanyah-discovery/src/search/search.service.ts:138-147 | every duration falls in some duration range |
| SearchIndex.BucketsPartition | thmanyah-discovery/src/search/search.service.ts:138-147 | every duration falls in exactly one range |
| SearchIndex.BucketCountsSum | thmanyah-discovery/src/search/search.service.ts:138-147 | the four range counts add up to the number of durations |
| SearchIndex.TermBuckets | thmanyah-discovery/src/search/search.service.ts:129-137 | the term facet has a bucket exactly for each value present |
| SearchIndex.FacetsOf | thmanyah-discovery/src/search/search.service.ts:128-149 | the duration facet has one bucket per declared range |
| SearchIndex.Matching | thmanyah-discovery/src/search/search.service.ts:163-187 | the hits are indexed documents that the query accepts |
| SearchIndex.Ranked | thmanyah-discovery/src/search/search.service.ts:163-187 | the ranked hits are a permutation of the matching documents, sorted by the requested keys |
| SearchIndex.Execute | thmanyah-discovery/src/search/search.service.ts:163-187 | a search succeeds exactly when the index exists, from+size stays within 10000 and the sort compiles; it returns the requested window of ranked hits, the total capped at 10000, and aggregations exactly when asked |
| SearchIndex.ExecuteHits | thmanyah-discovery/src/search/search.service.ts:163-187 | every hit is an indexed document the query accepts, and consecutive hits are in sort order |
| Search.SortFor | thmanyah-discovery/src/search/search.service.ts:152-161 | with a text query the sort is score descending then the requested field; without one, the field alone; the field sort is last and in lower-cased order |
| Search.NewestFirstSorts | thmanyah-discovery/src/search/search.service.ts:273-301 | the trending and recommendation sorts compile and order documents newest first |
| Search.SimilarAccepted | thmanyah-discovery/src/search/search.service.ts:240-262 | a recommended document is published and, when there is a seed, of the seed's type, category and language |
| Search.SeedRecommendsItself | thmanyah-discovery/src/search/search.service.ts:240-267 | with a published seed and a limit covering the index, the recommendations contain the seed itself |
| Search.SearchExecution | thmanyah-discovery/src/search/search.service.ts:163-191 | a search with the built query returns the window of wanted documents in the requested order, the capped total of wanted documents and their facets |
| Search.SearchService.constructor | thmanyah-discovery/src/search/search.service.ts:11 | the service starts with no index and no documents |
| Search.SearchService.CreateIndex | thmanyah-discovery/src/search/search.service.ts:13-30 | creating succeeds exactly when the backend is reachable, and then the index exists; documents are untouched |
| Search.SearchService.IndexContent | thmanyah-discovery/src/search/search.service.ts:32-66 | when reachable, the record's document is written under its id, replacing any earlier one; otherwise nothing changes and the call fails |
| Search.SearchService.UpdateContent | thmanyah-discovery/src/search/search.service.ts:320-322 | identical in effect to indexing the record |
| Search.SearchService.DeleteContent | thmanyah-discovery/src/search/search.service.ts:308-318 | removes the document with that id; a missing document, index or backend is an error passed on to the caller, with nothing changed |
| Search.SearchService.BuildQuery | thmanyah-discovery/src/search/search.service.ts:91-125 | the built query accepts a document exactly when it has the status and language, matches any text query, and has each supplied type, category and source; it has no `must_not` |
| Search.SearchService.SearchContent | thmanyah-discovery/src/search/search.service.ts:68-205 | succeeds exactly when the index is usable, the window fits and the sort compiles; the page is the wanted documents ranked and windowed at (page−1)×limit; total is their number capped at 10000; totalPages and hasMore follow; the facets describe all wanted documents |
| Search.SearchService.SearchResolved | thmanyah-discovery/src/search/search.service.ts:86-200 | the same result stated for the request after its defaults |
| Search.SearchService.GetSuggestions | thmanyah-discovery/src/search/search.service.ts:207-232 | the completion texts in backend order, and `[]` on any error |
| Search.SearchService.GetRecommendations | thmanyah-discovery/src/search/search.service.ts:235-283 | at most limit published documents, newest first, of the seed's type, category and language when the seed is found; the seed is not excluded; a missing seed or failed lookup gives the plain published query |
| Search.SearchService.GetRecommendationsIntended | thmanyah-discovery/src/search/search.service.ts:235-283 | the results are exactly the hits of the recommendation query with the seed excluded, as the index executes it; hence at most limit published documents, newest first, similar to a found seed, never the seed itself |
| Search.SearchService.GetTrendingContent | thmanyah-discovery/src/search/search.service.ts:285-306 | the results are exactly the hits of the published-only, newest-first query of that size, as the index executes it; hence at most limit published documents, newest first |
| Search.PublishedOnly | thmanyah-discovery/src/search/search.service.ts:243 | a query whose first clause requires published accepts only published documents |
| Search.PublishedHits | thmanyah-discovery/src/search/search.service.ts:288-305 | hits of a published-only query sorted newest first are published indexed documents, newest first |
| Search.RecommendedHits | thmanyah-discovery/src/search/search.service.ts:240-282 | recommendation hits are published, newest first, similar to a found seed, and avoid an id only if a `must_not` clause names it |
| Table.OrderableColumn | thmanyah-discovery/src/discovery/discovery.service.ts:65 | a record has a value in a column exactly when the column can be ordered by |
| Table.ColumnOrderTotal | thmanyah-discovery/src/discovery/discovery.service.ts:65 | ordering by a column compares any two records |
| Table.OrderRows | thmanyah-discovery/src/discovery/discovery.service.ts:63-67 | ordering succeeds exactly on a known column, and then yields a permutation sorted by it in the requested direction; otherwise a database error |
| Table.CheckCondition | thmanyah-discovery/src/discovery/discovery.service.ts:47-49 | a condition fails exactly when it compares the type or status column with a string outside the enum, or the uuid id column with text that is not uuid text, which is the uuid syntax error |
| Table.UuidLength | thmanyah-discovery/src/content/entities/content.entity.ts:28-29 | uuid text holds 32 hex digits, with at most 7 hyphens and two braces, so it is 32 to 41 characters long |
| Table.Admissible | thmanyah-discovery/src/discovery/discovery.service.ts:35-61 | a `where` object is accepted exactly when all its conditions are |
| Table.TakeRows | thmanyah-discovery/src/discovery/discovery.service.ts:116 | `take` keeps a prefix of min(take, rows) rows, all rows when take is 0 |
| Table.WindowIsTake | thmanyah-discovery/src/discovery/discovery.service.ts:66-67 | a window at offset 0 with a positive take is the same as `take` alone |
| Table.FirstWhere | thmanyah-discovery/src/discovery/discovery.service.ts:101-103 | a row is found exactly when some row satisfies the conditions, and the found row does |
| Table.Find | thmanyah-discovery/src/discovery/discovery.service.ts:113-129 | an accepted query returns a prefix of the matching rows, sorted, at most take of them |
| Table.FindAndCount | thmanyah-discovery/src/discovery/discovery.service.ts:63-85 | the page is the window of ordered matching rows and the count is the number of all matching rows |
| Table.Scan | thmanyah-discovery/src/content/content.service.ts:70-72 | reading the store in its own order yields the record under each listed key |
| Paths.SameCriteria | thmanyah-discovery/src/discovery/discovery.service.ts:35-61 | without a text query and with a language, the store shows a record exactly when the index wants its document |
| Paths.SameResults | thmanyah-discovery/src/search/search.service.ts:91-125 | over an index holding the store's records, both paths select the same records in the same order, and so count the same total |
| Paths.EmptyLanguageDiverges | thmanyah-discovery/src/discovery/discovery.service.ts:55-57 | with an empty language the store still shows a published record that the index does not want |

## Left out

- CmsContent.ContentService.FindAll: requires page ≥ 1 and limit ≥ 1. The DTO declares these bounds, but no validation pipe is installed in `main.ts`. A request that breaks them is not modelled.
- Discovery.SearchContent: requires the request to satisfy its declared bounds (`SearchDto.Valid`), for the same reason.
- Search.SearchService.SearchContent: requires the request to satisfy its declared bounds (`SearchDto.Valid`), for the same reason.
- FileUpload.ValidateFile: the refusal text for a wrong type is stated as the constant joined from the three lists. Its literal rendering is not proved.
- Media.StreamHead: models the status, the headers and the range arithmetic only. Opening the file, `stat` and piping the stream are I/O. The `Content-Range` header is stated as the rendering of the parsed range; that it echoes the client's text is not proved.
- Media.ExtensionTable: the table is proved per family (video, audio, image) and for unknown extensions, not as one literal switch.
- SearchIndex.TermBuckets: keeps every value. The engine's default truncation of a terms aggregation to its top 10 buckets is not modelled.
- Unread request fields: `minDuration`, `maxDuration`, `publishedAfter`, `publishedBefore`, `tags`, `searchMode` and `includeExternal` are carried in the request but read by neither search. No filter or mode is modelled for them.
- Dates are integers (the clock parameter `now`). Their string forms and time zones are left out.
- CmsContent.ContentService.FindOne: uuid keys are matched as the text stored. PostgreSQL also finds a row by the same uuid written in upper case, without hyphens or in braces; the model treats such text as a different, absent key.
- ContentStore.ContentService.GetContentById: matches uuid keys as text, as FindOne does.
- Discovery.GetContentById: matches uuid keys as text, as FindOne does.
- ContentStore.ContentService.CreateContent: when `save` finds the row already holding exactly the given values, TypeORM skips the UPDATE, so `updatedAt` keeps its old value; the model always stamps it. On the update path `save` returns the given object merged with the generated columns, not the whole re-read row; the model returns the whole updated row.
- ContentStore.ContentService.UpdateContent: the duplicate-key error is stated without the constraint name and key detail that PostgreSQL appends to it.
- CmsContent.ContentService.Create: the DTO is modelled with its declared types, because no validation pipe is installed. A `type` or `status` string outside its enum, an explicit `null` for a column, and properties the DTO does not declare would all reach `save`; none of these is modelled.
- CmsContent.ContentService.Update: the same narrowing of the DTO as for Create.
- CmsContent.ContentService.UploadContent: the same narrowing of the DTO as for Create.
- Discovery.GetFeaturedContent: the limit is a number, as the service declares it. Through HTTP it arrives as query text, and a non-numeric text reaching TypeORM's `take` is not modelled.
- Discovery.GetContentByType: the limit is a number, for the same reason.
- SearchIndex.CompileSort: only the sort names the mapping declares are known, plus `_score`, `_doc` and `title.keyword`. Dynamically mapped `metadata.*` sub-fields are treated as unknown names.
- Import.MapCustomData: properties are read from the item's own keys only. A key inherited from `Object.prototype`, such as `constructor` or `toString`, is defined on every object in the source and would be copied; the model reads it as undefined.
- Import.CopiedKeys: reads own keys only, as MapCustomData does.
- Table.OrderRows: text columns are compared by character code. PostgreSQL orders them by the database collation, which can order differently (for example, case and accents in `en_US.UTF-8`). Every ordering built on it, in CmsContent.ContentService.FindAll, Discovery.SearchContent and the discovery lists, inherits this.
- Case-insensitive matching (`ILike`, `toLowerCase`) lower-cases ASCII letters only. Unicode case folding is not modelled.
- `Like`/`ILike` patterns are plain substrings, so a `%` or `_` inside the query is not treated as a wildcard.
- Row order is taken as given (the `scan` listing): rows with equal sort keys, jsonb values, `GROUP BY` groups and `DISTINCT` values all come in engine order.
- Column length limits (`varchar(255)` and so on) are not modelled.
- Text analysis, fuzziness and `_score` belong to the search engine. They are uninterpreted parameters.
- Tags that are not strings are ignored when sorting on the tags field.
- Engine errors are modelled by their error type; their message texts are not.
- `_source` field filtering is not modelled.
- Also left out: `deleteFile`, `ensureUploadDirectories`, `getStorageConfig`, `mkdirSync` and `writeFileSync`. Written files are modelled only as the set of their paths.
- uuid generation is a parameter (`freshId`, `names`).
- The controller validates files before the service parses metadata. Only the order inside the service is modelled.
- The MIME types accepted for upload and those sent when streaming differ (`video/mov` against `video/quicktime`, `audio/mp3` against `audio/mpeg`). Each table is stated as written; the two are not related.
- Index sync: no code calls `SearchService` from either content service, so no store-to-index sync is modelled. `Paths.SameResults` assumes an index that mirrors the store.
- Semantic search and embeddings are commented-out code in the source.
- Whitespace handling of `parseInt` beyond leading spaces is not modelled.
- Concurrency and `async` interleaving: every operation is sequential.
- Controllers, modules, bootstrap code and the multipart client script `uploads-video-simple.js` are routing and I/O. They are not part of this model.
- Import's call to `create`: its effect on the store is a parameter that only reports success or an error text.
- Import items that are primitives or arrays have built-in properties (`length`, indices) that are not modelled. Neither is an item that is `undefined`, which behaves as `null` does.
- Import's `sourceData` that is not iterable, and the outer catch at lines 92-94, are not modelled.
- `transformYouTubeVideo` assumes `snippet` and `contentDetails` exist. A missing one throws in the source.
- JavaScript number precision for very long digit runs is not modelled: durations are unbounded naturals.
- A duration with days (`P1DT2H` has no `PT` match) parses to 0, as in the source.

## Findings

| source | as written | input that shows it | evidently intended | confidence | as-written member | corrected member |
|---|---|---|---|---|---|---|
| thmanyah-discovery/src/search/search.service.ts:240-267 | the query is built without a `must_not` list, so pushing the seed exclusion throws a TypeError; the catch swallows it, and the type/category/language clauses pushed before it stay | `getRecommendations(id)` for a published `id` with limit at least the index size: the results contain the document `id` itself | similar content excludes the seed document | not executed | Search.SeedRecommendsItself | Search.SearchService.GetRecommendationsIntended |
