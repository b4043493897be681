/** The two ways the discovery API can search: the store path filters the
    `content` table with a `where` object, the index path sends a boolean
    query to the search index. When the index holds the documents of the
    store's rows and the request has no text query, both select the same
    records and so count the same total. */
module Paths {
  import opened Common
  import opened Entities
  import opened Table
  import opened SearchIndex
  import opened SearchDto
  import Discovery
  import Search

  function IdOf(r: ContentRecord): string
  {
    r.id
  }

  /** An index that holds the store's records: it is listed in the store's
      row order, and each row's id holds the document of that row. */
  predicate Mirrors(rows: seq<ContentRecord>, docs: map<string, SearchDocument>, scan: seq<string>)
  {
    && scan == MapSeq(rows, IdOf)
    && IsListing(scan, docs)
    && (forall i :: 0 <= i < |rows| ==> rows[i].id in docs && docs[rows[i].id] == Project(rows[i]))
  }

  /** Without a text query and with a language, a row is shown by the store
      exactly when its document is wanted by the index: the same status,
      language, type, category and source equalities. */
  lemma SameCriteria(p: SearchParams, r: ContentRecord, matches: (string, SearchDocument) -> bool)
    requires !Truthy(p.q) && p.language != ""
    ensures Discovery.Shows(p, ListingOf(r)) <==> Search.Wanted(p, Project(r), matches)
  {
  }

  /** Without a text query and with a language, the documents the index
      search admits are those of the rows the store search admits, in the
      same order; hence both report the same total (the index caps it at its
      tracking bound). */
  lemma SameResults(rows: seq<ContentRecord>, docs: map<string, SearchDocument>, scan: seq<string>,
                    p: SearchParams, matches: (string, SearchDocument) -> bool)
    requires Mirrors(rows, docs, scan)
    requires !Truthy(p.q) && p.language != ""
    ensures Matching(docs, scan, Search.WantedBy(p, matches)) == MapSeq(Filter(rows, Discovery.ShownBy(p)), Project)
    ensures |Matching(docs, scan, Search.WantedBy(p, matches))| == |Filter(rows, Discovery.ShownBy(p))|
  {
    var all := Scan(docs, scan);
    assert all == MapSeq(rows, Project) by {
      forall i | 0 <= i < |rows| ensures all[i] == Project(rows[i]) {
        assert scan[i] == rows[i].id;
      }
    }
    forall i | 0 <= i < |rows|
      ensures Search.WantedBy(p, matches)(Project(rows[i])) == Discovery.ShownBy(p)(rows[i])
    {
      SameCriteria(p, rows[i], matches);
    }
    FilterMapSeq(rows, Project, Search.WantedBy(p, matches), Discovery.ShownBy(p));
  }

  /** An empty language is where the paths part: the store drops the
      language condition, the index still asks for an empty language. */
  lemma EmptyLanguageDiverges(r: ContentRecord, matches: (string, SearchDocument) -> bool)
    requires r.status == Published && r.language == "ar"
    ensures var p := SearchParams(None, None, "published", None, "", None, 1, 20, "createdAt", "DESC");
      Discovery.Shows(p, ListingOf(r)) && !Search.Wanted(p, Project(r), matches)
  {
  }
}
