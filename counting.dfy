/** Distinct values and per-value counts: what `SELECT DISTINCT` and
    `GROUP BY … COUNT(*)` return over a table scan, and the `reduce` that folds
    the grouped rows into a dictionary. */
module Counting {
  import opened Common

  predicate NoDuplicates<T(==)>(s: seq<T>)
  {
    forall i, j :: 0 <= i < j < |s| ==> s[i] != s[j]
  }

  /** The values of `s` once each, in order of first occurrence. */
  function Distinct<T(==,!new)>(s: seq<T>): (d: seq<T>)
    ensures NoDuplicates(d)
    ensures forall x :: x in d <==> x in s
  {
    if s == [] then []
    else
      var d := Distinct(s[..|s| - 1]);
      assert forall x :: x in s <==> x in s[..|s| - 1] || x == s[|s| - 1] by {
        assert s == s[..|s| - 1] + [s[|s| - 1]];
      }
      if s[|s| - 1] in d then d else d + [s[|s| - 1]]
  }

  /** The sum of the multiplicities in `m` of the values `keys`. */
  function SumCounts<T>(m: multiset<T>, keys: seq<T>): nat
  {
    if keys == [] then 0 else SumCounts(m, keys[..|keys| - 1]) + m[keys[|keys| - 1]]
  }

  lemma {:induction false} SumCountsAdd<T>(m: multiset<T>, x: T, keys: seq<T>)
    requires NoDuplicates(keys)
    ensures SumCounts(m + multiset{x}, keys) == SumCounts(m, keys) + (if x in keys then 1 else 0)
  {
    if keys != [] {
      var init := keys[..|keys| - 1];
      assert NoDuplicates(init);
      SumCountsAdd(m, x, init);
      assert x in keys <==> x in init || x == keys[|keys| - 1] by {
        assert keys == init + [keys[|keys| - 1]];
      }
      assert x == keys[|keys| - 1] ==> x !in init;
    }
  }

  /** Grouping a scan by value and counting each group accounts for every
      row exactly once. */
  lemma {:induction false} DistinctCountsSum<T(!new)>(s: seq<T>)
    ensures SumCounts(multiset(s), Distinct(s)) == |s|
  {
    if s != [] {
      var init := s[..|s| - 1];
      var x := s[|s| - 1];
      assert s == init + [x];
      assert multiset(s) == multiset(init) + multiset{x};
      DistinctCountsSum(init);
      var d := Distinct(init);
      SumCountsAdd(multiset(init), x, d);
      if x !in d {
        assert multiset(init)[x] == 0;
        assert (d + [x])[..|d + [x]| - 1] == d;
      }
    }
  }

  /** One row of a grouped count: the value and `COUNT(*)`, which the driver
      hands back as a decimal string. */
  function GroupCounts<T(==)>(s: seq<T>, keys: seq<T>, name: T -> string): (rows: seq<(string, string)>)
    ensures |rows| == |keys|
    ensures forall i :: 0 <= i < |keys| ==> rows[i] == (name(keys[i]), ShowNat(multiset(s)[keys[i]]))
  {
    if keys == [] then []
    else GroupCounts(s, keys[..|keys| - 1], name) + [(name(keys[|keys| - 1]), ShowNat(multiset(s)[keys[|keys| - 1]]))]
  }

  /** The one key a plain object literal does not store: assigning a number
      to `acc["__proto__"]` goes to the prototype setter, which ignores it. */
  const ProtoKey := "__proto__"

  /** `rows.reduce((acc, item) => { acc[item.key] = parseInt(item.count); … }, {})`:
      a later row for the same key replaces an earlier one; `None` is NaN;
      a row keyed `__proto__` leaves the object as it was. */
  function Reduced(rows: seq<(string, string)>): map<string, Option<int>>
  {
    if rows == [] then map[]
    else if rows[|rows| - 1].0 == ProtoKey then Reduced(rows[..|rows| - 1])
    else Reduced(rows[..|rows| - 1])[rows[|rows| - 1].0 := ParseInt(rows[|rows| - 1].1)]
  }

  method ReduceCounts(rows: seq<(string, string)>) returns (acc: map<string, Option<int>>)
    ensures acc == Reduced(rows)
  {
    acc := map[];
    var i := 0;
    while i < |rows|
      invariant 0 <= i <= |rows|
      invariant acc == Reduced(rows[..i])
    {
      assert rows[..i + 1][..i] == rows[..i];
      if rows[i].0 != ProtoKey {
        acc := acc[rows[i].0 := ParseInt(rows[i].1)];
      }
      i := i + 1;
    }
    assert rows[..i] == rows;
  }

  /** `m` holds, for each value of `keys` not named `__proto__`, its number
      of occurrences in `s`, and no other key. */
  ghost predicate CountMap<T(!new)>(m: map<string, Option<int>>, s: seq<T>, keys: seq<T>, name: T -> string)
  {
    && (forall k :: k in m <==> k != ProtoKey && exists x :: x in keys && name(x) == k)
    && (forall x :: x in keys && name(x) != ProtoKey ==> m[name(x)] == Some(multiset(s)[x]))
  }

  /** One more grouped row: its key is stored with its count, or skipped
      when it is `__proto__`. */
  lemma CountMapStep<T(!new)>(m0: map<string, Option<int>>, s: seq<T>, init: seq<T>, last: T, name: T -> string)
    requires CountMap(m0, s, init, name)
    requires forall x :: x in init && name(x) == name(last) ==> x == last
    ensures CountMap(if name(last) == ProtoKey then m0 else m0[name(last) := Some(multiset(s)[last])], s, init + [last], name)
  {
    var keys := init + [last];
    var m := if name(last) == ProtoKey then m0 else m0[name(last) := Some(multiset(s)[last])];
    forall k ensures k in m <==> k != ProtoKey && exists x :: x in keys && name(x) == k {
      if k in m0 {
        var x :| x in init && name(x) == k;
        assert x in keys;
      }
      if k == name(last) {
        assert last in keys;
      }
    }
    forall x | x in keys && name(x) != ProtoKey ensures m[name(x)] == Some(multiset(s)[x]) {
      if x != last {
        assert x in init;
      }
    }
  }

  /** Folding the grouped counts of a scan gives, for each value present but
      one named `__proto__`, its number of rows, and no other key, as long
      as distinct values have distinct names. */
  lemma {:induction false} ReducedGroupCounts<T(!new)>(s: seq<T>, keys: seq<T>, name: T -> string)
    requires NoDuplicates(keys)
    requires forall a, b :: a in keys && b in keys && name(a) == name(b) ==> a == b
    ensures var m := Reduced(GroupCounts(s, keys, name));
      (forall k :: k in m <==> k != ProtoKey && exists x :: x in keys && name(x) == k)
      && (forall x :: x in keys && name(x) != ProtoKey ==> m[name(x)] == Some(multiset(s)[x]))
  {
    var rows := GroupCounts(s, keys, name);
    if keys != [] {
      var init := keys[..|keys| - 1];
      var last := keys[|keys| - 1];
      assert keys == init + [last];
      assert NoDuplicates(init);
      ReducedGroupCounts(s, init, name);
      var m0 := Reduced(GroupCounts(s, init, name));
      assert rows[..|rows| - 1] == GroupCounts(s, init, name);
      var c := multiset(s)[last];
      ShowNatValue(c);
      ParseIntDigits(ShowNat(c));
      assert rows[|rows| - 1] == (name(last), ShowNat(c));
      assert Reduced(rows) == if name(last) == ProtoKey then m0 else m0[name(last) := Some(c)];
      CountMapStep(m0, s, init, last, name);
    }
  }
}
