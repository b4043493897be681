/** The pagination contract both query paths share: `skip = (page - 1) * limit`,
    `take = limit`, `totalPages = Math.ceil(total / limit)` and
    `hasMore = page < totalPages`. */
module Pagination {
  import opened Common

  /** `Math.ceil(total / limit)`: the fewest pages of `limit` rows that hold
      `total` rows. */
  function TotalPages(total: nat, limit: nat): nat
    requires limit >= 1
  {
    (total + limit - 1) / limit
  }

  /** `totalPages` pages hold every row, and one page fewer does not. */
  lemma TotalPagesBounds(total: nat, limit: nat)
    requires limit >= 1
    ensures var r := TotalPages(total, limit);
      total <= r * limit && (r == 0 || (r - 1) * limit < total)
  {
  }

  /** `page < totalPages`. */
  predicate HasMore(page: int, totalPages: nat)
  {
    page < totalPages
  }

  /** `(page - 1) * limit`: the rows before page `page`. */
  function Skip(page: int, limit: nat): nat
    requires page >= 1
  {
    (page - 1) * limit
  }

  /** Only the first page skips nothing. */
  lemma SkipFirstPage(page: int, limit: nat)
    requires page >= 1 && limit >= 1
    ensures Skip(page, limit) == 0 <==> page == 1
  {
  }

  /** `skip`/`take` (or `from`/`size`) over an ordered result: at most `take`
      rows, starting at row `skip`, nothing when `skip` is past the end. */
  function Window<T>(s: seq<T>, skip: nat, take: nat): (r: seq<T>)
    ensures |r| <= take
    ensures skip <= |s| ==> |r| == Min(take, |s| - skip)
    ensures skip >= |s| ==> r == []
    ensures forall i :: 0 <= i < |r| ==> skip + i < |s| && r[i] == s[skip + i]
  {
    if skip >= |s| then [] else s[skip..Min(skip + take, |s|)]
  }

  /** A page holds rows exactly when its number is at most `totalPages`. */
  lemma PageNonEmpty<T>(s: seq<T>, page: int, limit: nat)
    requires page >= 1 && limit >= 1
    ensures Window(s, Skip(page, limit), limit) != [] <==> page <= TotalPages(|s|, limit)
  {
    var n := TotalPages(|s|, limit);
    TotalPagesBounds(|s|, limit);
    var skip := Skip(page, limit);
    if page <= n {
      MulMono(page - 1, n - 1, limit);
      assert skip < |s|;
    } else {
      MulMono(n, page - 1, limit);
      assert skip >= |s|;
    }
  }

  /** `hasMore` holds exactly when the next page is not empty. */
  lemma HasMoreIffNextPage<T>(s: seq<T>, page: int, limit: nat)
    requires page >= 1 && limit >= 1
    ensures HasMore(page, TotalPages(|s|, limit)) <==> Window(s, Skip(page + 1, limit), limit) != []
  {
    PageNonEmpty(s, page + 1, limit);
  }

  /** The first `n` pages, one after the other. */
  function Pages<T>(s: seq<T>, limit: nat, n: nat): seq<T>
    requires limit >= 1
  {
    if n == 0 then [] else Pages(s, limit, n - 1) + Window(s, Skip(n, limit), limit)
  }

  lemma {:induction false} PagesPrefix<T>(s: seq<T>, limit: nat, n: nat)
    requires limit >= 1
    ensures Pages(s, limit, n) == s[..Min(n * limit, |s|)]
  {
    if n > 0 {
      PagesPrefix(s, limit, n - 1);
      MulPred(n, limit);
      PrefixThenWindow(s, (n - 1) * limit, limit);
    }
  }

  /** The rows before `skip`, then the window at `skip`, are the rows before
      `skip + take`. */
  lemma PrefixThenWindow<T>(s: seq<T>, skip: nat, take: nat)
    ensures s[..Min(skip, |s|)] + Window(s, skip, take) == s[..Min(skip + take, |s|)]
  {
    var lo := Min(skip, |s|);
    var hi := Min(skip + take, |s|);
    if skip >= |s| {
      assert Window(s, skip, take) == [] && lo == hi;
    } else {
      assert Window(s, skip, take) == s[lo..hi];
      assert s[..lo] + s[lo..hi] == s[..hi];
    }
  }

  lemma MulMono(a: nat, b: nat, k: nat)
    requires a <= b
    ensures a * k <= b * k
  {
  }

  lemma MulPred(m: nat, k: nat)
    requires m >= 1
    ensures m * k == (m - 1) * k + k
  {
  }

  /** Pages 1 to `totalPages` partition the result: read one after the other
      they give back every row once, in order. */
  lemma PagesPartition<T>(s: seq<T>, limit: nat)
    requires limit >= 1
    ensures Pages(s, limit, TotalPages(|s|, limit)) == s
  {
    PagesPrefix(s, limit, TotalPages(|s|, limit));
    assert s[..|s|] == s;
  }
}
