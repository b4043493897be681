/** Ordering of result rows: the value a sort key reads from a row, how two
    values compare in one direction, lexicographic comparison over a list of
    keys, and the stable sort both back ends are modelled with. Neither query
    path adds a tie-break, so rows that compare equal keep the order in which
    the back end scans them. */
module Ordering {
  import opened Common

  /** What a sort key reads from one row. */
  datatype SortValue = Missing | Num(n: int) | Str(s: string)

  /** Lexicographic order of strings by character code. */
  predicate StrLeq(a: string, b: string)
  {
    a == [] || (b != [] && (a[0] < b[0] || (a[0] == b[0] && StrLeq(a[1..], b[1..]))))
  }

  lemma {:induction false} StrLeqTotal(a: string, b: string)
    ensures StrLeq(a, b) || StrLeq(b, a)
  {
    if a != [] && b != [] && a[0] == b[0] {
      StrLeqTotal(a[1..], b[1..]);
    }
  }

  /** `a` may come before `b` under one key. `missingFirst` says where rows
      without a value go: Elasticsearch puts them last in both directions,
      PostgreSQL treats NULL as the largest value. */
  predicate ValueLeq(a: SortValue, b: SortValue, ascending: bool, missingFirst: bool)
  {
    match (a, b)
    case (Missing, Missing) => true
    case (Missing, _) => missingFirst
    case (_, Missing) => !missingFirst
    case (Num(x), Num(y)) => if ascending then x <= y else y <= x
    case (Str(x), Str(y)) => if ascending then StrLeq(x, y) else StrLeq(y, x)
    case (Num(_), Str(_)) => ascending
    case (Str(_), Num(_)) => !ascending
  }

  lemma ValueLeqTotal(a: SortValue, b: SortValue, ascending: bool, missingFirst: bool)
    ensures ValueLeq(a, b, ascending, missingFirst) || ValueLeq(b, a, ascending, missingFirst)
  {
    if a.Str? && b.Str? {
      StrLeqTotal(a.s, b.s);
    }
  }

  /** One entry of a sort specification. */
  datatype Key<!T> = Key(value: T -> SortValue, ascending: bool, missingFirst: bool)

  /** Lexicographic comparison: the first key on which the rows differ decides. */
  predicate KeysLeq<T>(keys: seq<Key<T>>, a: T, b: T)
  {
    if keys == [] then true
    else
      var k := keys[0];
      var ab := ValueLeq(k.value(a), k.value(b), k.ascending, k.missingFirst);
      var ba := ValueLeq(k.value(b), k.value(a), k.ascending, k.missingFirst);
      if ab && ba then KeysLeq(keys[1..], a, b) else ab
  }

  function KeyOrder<T>(keys: seq<Key<T>>): (T, T) -> bool
  {
    (a, b) => KeysLeq(keys, a, b)
  }

  ghost predicate Total<T(!new)>(leq: (T, T) -> bool)
  {
    forall a, b :: leq(a, b) || leq(b, a)
  }

  lemma {:induction false} KeysLeqTotal<T>(keys: seq<Key<T>>, a: T, b: T)
    ensures KeysLeq(keys, a, b) || KeysLeq(keys, b, a)
  {
    if keys != [] {
      var k := keys[0];
      ValueLeqTotal(k.value(a), k.value(b), k.ascending, k.missingFirst);
      KeysLeqTotal(keys[1..], a, b);
    }
  }

  lemma KeyOrderTotal<T(!new)>(keys: seq<Key<T>>)
    ensures Total(KeyOrder(keys))
  {
    forall a, b ensures KeyOrder(keys)(a, b) || KeyOrder(keys)(b, a) {
      KeysLeqTotal(keys, a, b);
    }
  }

  /** Every row may come before the next one. */
  predicate Sorted<T>(s: seq<T>, leq: (T, T) -> bool)
  {
    forall i :: 0 < i < |s| ==> leq(s[i - 1], s[i])
  }

  /** Insert `x` before the first element it may precede. */
  function Insert<T(!new)>(x: T, s: seq<T>, leq: (T, T) -> bool): (r: seq<T>)
    ensures |r| == |s| + 1
    ensures multiset(r) == multiset(s) + multiset{x}
    ensures r[0] == x || (s != [] && r[0] == s[0])
    ensures Total(leq) && Sorted(s, leq) ==> Sorted(r, leq)
  {
    if s == [] then [x]
    else if leq(x, s[0]) then [x] + s
    else
      assert s == [s[0]] + s[1..];
      [s[0]] + Insert(x, s[1..], leq)
  }

  /** Stable insertion sort: a permutation of `s` in which every element may
      precede the next; elements that compare equal keep their order in `s`. */
  function Sort<T(!new)>(s: seq<T>, leq: (T, T) -> bool): (r: seq<T>)
    requires Total(leq)
    ensures multiset(r) == multiset(s)
    ensures Sorted(r, leq)
  {
    if s == [] then []
    else
      assert s == [s[0]] + s[1..];
      Insert(s[0], Sort(s[1..], leq), leq)
  }

  /** A contiguous part of a sorted sequence is sorted: every page of a sorted
      result is sorted. */
  lemma SortedSlice<T>(s: seq<T>, leq: (T, T) -> bool, lo: nat, hi: nat)
    requires Sorted(s, leq) && lo <= hi <= |s|
    ensures Sorted(s[lo..hi], leq)
  {
    forall i | 0 < i < hi - lo ensures leq(s[lo..hi][i - 1], s[lo..hi][i]) {
      assert s[lo..hi][i - 1] == s[lo + i - 1] && s[lo..hi][i] == s[lo + i];
    }
  }

  /** Sorting commutes with a map when the two orders agree through it. */
  lemma {:induction false} InsertMapped<A(!new), B(!new)>(x: A, s: seq<A>, f: A -> B, la: (A, A) -> bool, lb: (B, B) -> bool)
    requires forall u, v :: la(u, v) == lb(f(u), f(v))
    ensures MapSeq(Insert(x, s, la), f) == Insert(f(x), MapSeq(s, f), lb)
  {
    if s != [] {
      assert MapSeq(s, f)[0] == f(s[0]);
      assert MapSeq(s, f)[1..] == MapSeq(s[1..], f);
      if !la(x, s[0]) {
        InsertMapped(x, s[1..], f, la, lb);
        assert MapSeq([s[0]] + Insert(x, s[1..], la), f)
            == [f(s[0])] + MapSeq(Insert(x, s[1..], la), f);
      } else {
        assert MapSeq([x] + s, f) == [f(x)] + MapSeq(s, f);
      }
    }
  }

  lemma {:induction false} SortMapped<A(!new), B(!new)>(s: seq<A>, f: A -> B, la: (A, A) -> bool, lb: (B, B) -> bool)
    requires Total(la) && Total(lb)
    requires forall u, v :: la(u, v) == lb(f(u), f(v))
    ensures MapSeq(Sort(s, la), f) == Sort(MapSeq(s, f), lb)
  {
    if s != [] {
      assert MapSeq(s, f)[1..] == MapSeq(s[1..], f);
      SortMapped(s[1..], f, la, lb);
      InsertMapped(s[0], Sort(s[1..], la), f, la, lb);
    }
  }
}
