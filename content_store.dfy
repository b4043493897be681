/** The discovery service's own content store: every operation writes the
    `content` table and reads the row back. The table is a map from id to
    row; the clock and the generated id are parameters. */
module ContentStore {
  import opened Common
  import opened Entities
  import opened Table

  /** The row after `update(id, {status: published, publishedAt: now})`. */
  function PublishedNow(r: ContentRecord, now: int): (p: ContentRecord)
    ensures p.status == Published && p.publishedAt == Some(now) && p.updatedAt == now
    ensures p.(status := r.status, publishedAt := r.publishedAt, updatedAt := r.updatedAt) == r
  {
    r.(status := Published, publishedAt := Some(now), updatedAt := now)
  }

  /** The row after `update(id, {status: draft})`: the publication date stays. */
  function Unpublished(r: ContentRecord, now: int): (p: ContentRecord)
    ensures p.status == Draft && p.publishedAt == r.publishedAt && p.updatedAt == now
    ensures p.(status := r.status, updatedAt := r.updatedAt) == r
  {
    r.(status := Draft, updatedAt := now)
  }

  /** A `Partial<ContentEntity>`: the DTO fields, and the key, the
      publication date, the authors and the two timestamps, which the entity
      type lets a caller set as well. `None` is a property the object does
      not have. */
  datatype StorePatch = StorePatch(
    fields: ContentPatch,
    id: Option<string>,
    publishedAt: Option<int>,
    createdBy: Option<string>,
    updatedBy: Option<string>,
    createdAt: Option<int>,
    updatedAt: Option<int>)

  /** A patch of DTO fields only. */
  function FieldsOnly(p: ContentPatch): StorePatch
  {
    StorePatch(p, None, None, None, None, None, None)
  }

  /** The row after `update(id, data)`: every column the patch has takes its
      value, every other keeps its own, and the update timestamp is `now`
      unless the patch sets it. */
  function Updated(r: ContentRecord, data: StorePatch, now: int): (u: ContentRecord)
    ensures u.id == Default(data.id, r.id)
    ensures u.publishedAt == PickOpt(data.publishedAt, r.publishedAt)
    ensures u.createdBy == PickOpt(data.createdBy, r.createdBy)
    ensures u.updatedBy == PickOpt(data.updatedBy, r.updatedBy)
    ensures u.createdAt == Default(data.createdAt, r.createdAt)
    ensures u.updatedAt == Default(data.updatedAt, now)
    ensures data.fields.title.Some? ==> u.title == data.fields.title.value
    ensures data.fields.status.Some? ==> u.status == data.fields.status.value
    ensures data.fields.status.None? ==> u.status == r.status
    ensures u.(updatedAt := r.updatedAt) == ApplyPatch(r, data.fields).(id := u.id, publishedAt := u.publishedAt,
      createdBy := u.createdBy, updatedBy := u.updatedBy, createdAt := u.createdAt)
  {
    ApplyPatch(r, data.fields).(id := Default(data.id, r.id),
                                publishedAt := PickOpt(data.publishedAt, r.publishedAt),
                                createdBy := PickOpt(data.createdBy, r.createdBy),
                                updatedBy := PickOpt(data.updatedBy, r.updatedBy),
                                createdAt := Default(data.createdAt, r.createdAt),
                                updatedAt := Default(data.updatedAt, now))
  }

  /** An update of DTO fields keeps the key, the authors, the creation and
      publication dates; the same update twice is the update once; the empty
      update only moves the update timestamp; and publishing or unpublishing
      is the update of the status (and date) it writes. */
  lemma UpdatedLaws(r: ContentRecord, p: ContentPatch, data: StorePatch, now: int)
    ensures var u := Updated(r, FieldsOnly(p), now);
      u.id == r.id && u.createdAt == r.createdAt && u.publishedAt == r.publishedAt
      && u.createdBy == r.createdBy && u.updatedBy == r.updatedBy
    ensures Updated(Updated(r, data, now), data, now) == Updated(r, data, now)
    ensures Updated(r, FieldsOnly(NoChanges), now) == r.(updatedAt := now)
    ensures PublishedNow(r, now) == Updated(r, FieldsOnly(NoChanges.(status := Some(Published))).(publishedAt := Some(now)), now)
    ensures Unpublished(r, now) == Updated(r, FieldsOnly(NoChanges.(status := Some(Draft))), now)
  {
    ApplyPatchLaws(r, p, NoChanges);
    ApplyPatchLaws(r, data.fields, NoChanges);
  }

  /** `create(data)` followed by the INSERT of `save` under key `id`: the
      row `InsertRow` builds, with the two timestamps the patch sets. */
  function Inserted(data: StorePatch, id: string, now: int): (r: Result<ContentRecord>)
    ensures r.Ok? <==> data.fields.title.Some? && data.fields.contentType.Some? && data.fields.category.Some?
    ensures r.Err? ==> r == InsertRow(DiscoveryTypeDefault, data.fields, id, now, data.createdBy, data.updatedBy, data.publishedAt)
    ensures r.Ok? ==> r.value.id == id && r.value.createdAt == Default(data.createdAt, now)
                      && r.value.updatedAt == Default(data.updatedAt, now)
    ensures r.Ok? ==> r.value.(createdAt := now, updatedAt := now)
                      == InsertRow(DiscoveryTypeDefault, data.fields, id, now, data.createdBy, data.updatedBy, data.publishedAt).value
  {
    var row := InsertRow(DiscoveryTypeDefault, data.fields, id, now, data.createdBy, data.updatedBy, data.publishedAt);
    if row.Err? then row
    else Ok(row.value.(createdAt := Default(data.createdAt, now), updatedAt := Default(data.updatedAt, now)))
  }

  /** Publishing again moves the publication date; unpublishing in between
      makes no difference to what publishing leaves. */
  lemma RepublishMovesDate(r: ContentRecord, t1: int, t2: int)
    ensures PublishedNow(PublishedNow(r, t1), t2).publishedAt == Some(t2)
    ensures PublishedNow(Unpublished(r, t1), t2) == PublishedNow(r, t2)
  {
  }

  /** An unpublished row remembers when it was last published. */
  lemma UnpublishRemembersDate(r: ContentRecord, t1: int, t2: int)
    ensures Unpublished(PublishedNow(r, t1), t2).publishedAt == Some(t1)
    ensures Unpublished(PublishedNow(r, t1), t2).status == Draft
  {
  }

  const EmptyUpdate := "Empty criteria(s) are not allowed for the update method."
  const EmptyDelete := "Empty criteria(s) are not allowed for the delete method."

  /** PostgreSQL's message for a second row under an existing primary key
      (the generated constraint name is not modelled). */
  const DuplicateKey := "duplicate key value violates unique constraint"

  function NotFoundMessage(id: string): string
  {
    "Content with id " + id + " not found"
  }

  /** The statement of `update(id, data)` reaches the table: the criteria are
      not empty, and the key in the `SET` list and in the `WHERE` clause are
      uuids. */
  predicate UpdateReaches(id: string, data: StorePatch)
  {
    id != "" && IsUuid(id) && (data.id.None? || IsUuid(data.id.value))
  }

  /** What `update(id, data)` raises before it reaches the table: empty
      criteria first, then the key values in parameter order. */
  function UpdateError(id: string, data: StorePatch): (e: Error)
    requires !UpdateReaches(id, data)
    ensures id == "" ==> e == Failure(EmptyUpdate)
    ensures id != "" && data.id.Some? && !IsUuid(data.id.value) ==> e == Database(UuidMessage(data.id.value))
    ensures id != "" && (data.id.None? || IsUuid(data.id.value)) ==> e == Database(UuidMessage(id))
  {
    if id == "" then Failure(EmptyUpdate)
    else if data.id.Some? && !IsUuid(data.id.value) then Database(UuidMessage(data.id.value))
    else Database(UuidMessage(id))
  }

  class ContentService {
    var records: map<string, ContentRecord>

    /** Every row is stored under its own id. */
    ghost predicate Valid()
      reads this
    {
      forall id :: id in records ==> records[id].id == id
    }

    constructor ()
      ensures Valid() && records == map[]
    {
      records := map[];
    }

    /** `createContent`: `create` then `save`. Without an id the row is
       inserted under a freshly generated one; `save` first looks a given id
       up, so a given id that is not a uuid is a database error, one that
       exists updates that row, and any other is inserted under that id. The
       missing NOT NULL columns reject an inserted row (the discovery entity
       has no default for `type`). */
    method CreateContent(data: StorePatch, freshId: string, now: int) returns (r: Result<ContentRecord>)
      requires Valid() && freshId !in records
      modifies this
      ensures Valid()
      ensures data.id.None? ==> r == Inserted(data, freshId, now)
      ensures data.id.Some? && !IsUuid(data.id.value) ==> r == Err(Database(UuidMessage(data.id.value)))
      ensures data.id.Some? && IsUuid(data.id.value) && data.id.value !in old(records) ==>
        r == Inserted(data, data.id.value, now)
      ensures data.id.Some? && IsUuid(data.id.value) && data.id.value in old(records) ==>
        r == Ok(Updated(old(records)[data.id.value], data, now))
      ensures r.Ok? ==> r.value.id == Default(data.id, freshId) && records == old(records)[r.value.id := r.value]
      ensures r.Ok? ==> GetContentById(r.value.id) == (if IsUuid(r.value.id) then Ok(Some(r.value)) else Err(Database(UuidMessage(r.value.id))))
      ensures r.Err? ==> records == old(records)
    {
      if data.id.None? {
        r := Inserted(data, freshId, now);
      } else if !IsUuid(data.id.value) {
        return Err(Database(UuidMessage(data.id.value)));
      } else if data.id.value in records {
        r := Ok(Updated(records[data.id.value], data, now));
      } else {
        r := Inserted(data, data.id.value, now);
      }
      if r.Ok? {
        records := records[r.value.id := r.value];
      }
    }

    /** `updateContent`: the patch is written to row `id` and the row is read
       back by `id`. An update that never reaches the table, or a row that
       is missing, changes nothing; a new key that another row holds is a
       duplicate; a new free key moves the row, and the read-back by the old
       key then finds nothing. */
    method UpdateContent(id: string, data: StorePatch, now: int) returns (r: Result<ContentRecord>)
      requires Valid()
      modifies this
      ensures Valid()
      ensures !UpdateReaches(id, data) ==> r == Err(UpdateError(id, data)) && records == old(records)
      ensures UpdateReaches(id, data) && id !in old(records) ==>
        r == Err(Failure(NotFoundMessage(id))) && records == old(records)
      ensures UpdateReaches(id, data) && id in old(records) ==>
        var u := Updated(old(records)[id], data, now);
        if u.id != id && u.id in old(records) then r == Err(Database(DuplicateKey)) && records == old(records)
        else records == (old(records) - {id})[u.id := u]
             && r == (if u.id == id then Ok(u) else Err(Failure(NotFoundMessage(id))))
      ensures r.Ok? ==> r.value.id == id && GetContentById(id) == Ok(Some(r.value))
    {
      if !UpdateReaches(id, data) {
        return Err(UpdateError(id, data));
      }
      if id !in records {
        return Err(Failure(NotFoundMessage(id)));
      }
      var u := Updated(records[id], data, now);
      if u.id != id && u.id in records {
        return Err(Database(DuplicateKey));
      }
      records := (records - {id})[u.id := u];
      if u.id != id {
        return Err(Failure(NotFoundMessage(id)));
      }
      r := Ok(u);
    }

    /** `deleteContent`: removes row `id` whether or not it exists. */
    method DeleteContent(id: string) returns (r: Outcome)
      requires Valid()
      modifies this
      ensures Valid()
      ensures id == "" ==> r == Fail(Failure(EmptyDelete)) && records == old(records)
      ensures id != "" && !IsUuid(id) ==> r == Fail(Database(UuidMessage(id))) && records == old(records)
      ensures IsUuid(id) ==> r == Pass && records == old(records) - {id} && GetContentById(id) == Ok(None)
    {
      if id == "" {
        return Fail(Failure(EmptyDelete));
      }
      if !IsUuid(id) {
        return Fail(Database(UuidMessage(id)));
      }
      records := records - {id};
      r := Pass;
    }

    /** `publishContent`: status published and the publication date `now`,
       on every call. */
    method PublishContent(id: string, now: int) returns (r: Result<ContentRecord>)
      requires Valid()
      modifies this
      ensures Valid()
      ensures !UpdateReaches(id, FieldsOnly(NoChanges)) ==>
        r == Err(UpdateError(id, FieldsOnly(NoChanges))) && records == old(records)
      ensures IsUuid(id) && id !in old(records) ==> r == Err(Failure(NotFoundMessage(id))) && records == old(records)
      ensures IsUuid(id) && id in old(records) ==>
        && records == old(records)[id := PublishedNow(old(records)[id], now)]
        && r == Ok(records[id])
    {
      if !UpdateReaches(id, FieldsOnly(NoChanges)) {
        return Err(UpdateError(id, FieldsOnly(NoChanges)));
      }
      if id in records {
        records := records[id := PublishedNow(records[id], now)];
      }
      if id !in records {
        return Err(Failure(NotFoundMessage(id)));
      }
      r := Ok(records[id]);
    }

    /** `unpublishContent`: back to draft, keeping the publication date. */
    method UnpublishContent(id: string, now: int) returns (r: Result<ContentRecord>)
      requires Valid()
      modifies this
      ensures Valid()
      ensures !UpdateReaches(id, FieldsOnly(NoChanges)) ==>
        r == Err(UpdateError(id, FieldsOnly(NoChanges))) && records == old(records)
      ensures IsUuid(id) && id !in old(records) ==> r == Err(Failure(NotFoundMessage(id))) && records == old(records)
      ensures IsUuid(id) && id in old(records) ==>
        && records == old(records)[id := Unpublished(old(records)[id], now)]
        && r == Ok(records[id])
    {
      if !UpdateReaches(id, FieldsOnly(NoChanges)) {
        return Err(UpdateError(id, FieldsOnly(NoChanges)));
      }
      if id in records {
        records := records[id := Unpublished(records[id], now)];
      }
      if id !in records {
        return Err(Failure(NotFoundMessage(id)));
      }
      r := Ok(records[id]);
    }

    /** `getContentById`: the row, `null` for a uuid no row has, and the
       database's error for an id that is not a uuid. */
    function GetContentById(id: string): (r: Result<Option<ContentRecord>>)
      requires Valid()
      reads this
      ensures r.Err? <==> !IsUuid(id)
      ensures r.Err? ==> r.error == Database(UuidMessage(id))
      ensures r.Ok? ==> (r.value.Some? <==> id in records)
      ensures r.Ok? && r.value.Some? ==> r.value.value == records[id] && r.value.value.id == id
    {
      if !IsUuid(id) then Err(Database(UuidMessage(id)))
      else if id in records then Ok(Some(records[id]))
      else Ok(None)
    }

    /** `getAllContent`: every row once, in the order the table is scanned. */
    method GetAllContent(scan: seq<string>) returns (rows: seq<ContentRecord>)
      requires Valid() && IsListing(scan, records)
      ensures |rows| == |records|
      ensures forall i :: 0 <= i < |rows| ==> rows[i] in records.Values
      ensures forall id :: id in records ==> records[id] in rows
      ensures DistinctIds(rows)
    {
      rows := Scan(records, scan);
      ListingSize(scan, records);
      forall id | id in records ensures records[id] in rows {
        var i :| 0 <= i < |scan| && scan[i] == id;
        assert rows[i] == records[id];
      }
    }
  }

  /** A listing of a map's keys is as long as the map. */
  lemma {:induction false} ListingSize<V>(scan: seq<string>, m: map<string, V>)
    requires IsListing(scan, m)
    ensures |scan| == |m|
  {
    if scan != [] {
      var k := scan[0];
      var rest := m - {k};
      assert IsListing(scan[1..], rest) by {
        forall j | 0 <= j < |scan[1..]| ensures scan[1..][j] in rest {
          assert scan[1..][j] == scan[j + 1] != scan[0];
        }
        forall x | x in rest ensures x in scan[1..] {
          var j :| 0 <= j < |scan| && scan[j] == x;
          assert j != 0;
          assert scan[1..][j - 1] == x;
        }
      }
      ListingSize(scan[1..], rest);
    } else {
      assert m.Keys == {};
    }
  }
}
