/** Shared vocabulary of both services: optional values, results, the errors the
    services raise, JavaScript truthiness, and the string and decimal helpers
    that the parsers and URL builders use. */
module Common {

  datatype Option<T> = None | Some(value: T)

  /** The error kinds the services surface to their callers. */
  datatype Error =
    | NotFound(message: string)    // NestJS NotFoundException
    | BadRequest(message: string)  // NestJS BadRequestException
    | Failure(message: string)     // a plain `throw new Error(...)`
    | TypeError(message: string)   // a JavaScript TypeError
    | Database(message: string)    // a statement PostgreSQL rejects
    | Search(message: string)      // a request Elasticsearch (or the transport) rejects

  function Message(e: Error): string
  {
    match e
    case NotFound(m) => m
    case BadRequest(m) => m
    case Failure(m) => m
    case TypeError(m) => m
    case Database(m) => m
    case Search(m) => m
  }

  datatype Result<T> = Ok(value: T) | Err(error: Error)

  /** The result of an operation that returns nothing (`Promise<void>`). */
  datatype Outcome = Pass | Fail(error: Error)

  /** JavaScript truthiness of an optional string: `undefined` and `""` are falsy. */
  predicate Truthy(s: Option<string>)
  {
    s.Some? && s.value != ""
  }

  /** `value || fallback` on an optional string. */
  function OrElse(s: Option<string>, fallback: string): (r: string)
    ensures Truthy(s) ==> r == s.value
    ensures !Truthy(s) ==> r == fallback
  {
    if Truthy(s) then s.value else fallback
  }

  /** A destructuring default: it replaces only an absent value, so an empty
      string is kept. */
  function Default<T>(s: Option<T>, fallback: T): (r: T)
    ensures s.Some? ==> r == s.value
    ensures s.None? ==> r == fallback
  {
    if s.Some? then s.value else fallback
  }

  function Min(a: int, b: int): int
  {
    if a <= b then a else b
  }

  // ---------------------------------------------------------------- sequences

  /** The elements of `s` that satisfy `p`, in order. */
  function Filter<T>(s: seq<T>, p: T -> bool): (r: seq<T>)
    ensures |r| <= |s|
    ensures forall i :: 0 <= i < |r| ==> r[i] in s && p(r[i])
    ensures forall i :: 0 <= i < |s| && p(s[i]) ==> s[i] in r
  {
    if s == [] then []
    else if p(s[0]) then [s[0]] + Filter(s[1..], p)
    else Filter(s[1..], p)
  }

  lemma {:induction false} FilterConcat<T>(a: seq<T>, b: seq<T>, p: T -> bool)
    ensures Filter(a + b, p) == Filter(a, p) + Filter(b, p)
  {
    if a == [] {
      assert a + b == b;
    } else {
      assert (a + b)[1..] == a[1..] + b;
      FilterConcat(a[1..], b, p);
    }
  }

  /** Two predicates that agree on every element select the same elements. */
  lemma {:induction false} FilterExt<T>(s: seq<T>, p: T -> bool, q: T -> bool)
    requires forall i :: 0 <= i < |s| ==> p(s[i]) == q(s[i])
    ensures Filter(s, p) == Filter(s, q)
  {
    if s != [] {
      FilterExt(s[1..], p, q);
    }
  }

  /** Filtering `s` by `p` removes exactly the elements `p` rejects. */
  lemma {:induction false} FilterMultiset<T>(s: seq<T>, p: T -> bool)
    ensures multiset(Filter(s, p)) <= multiset(s)
  {
    if s != [] {
      FilterMultiset(s[1..], p);
      assert s == [s[0]] + s[1..];
    }
  }

  /** `s.map(f)`. */
  function MapSeq<A, B>(s: seq<A>, f: A -> B): (r: seq<B>)
    ensures |r| == |s|
    ensures forall i :: 0 <= i < |s| ==> r[i] == f(s[i])
  {
    if s == [] then [] else [f(s[0])] + MapSeq(s[1..], f)
  }

  /** Filtering after a map is mapping after the filter that asks the same
      question of the original elements. */
  lemma {:induction false} FilterMapSeq<A, B>(s: seq<A>, f: A -> B, p: B -> bool, q: A -> bool)
    requires forall i :: 0 <= i < |s| ==> p(f(s[i])) == q(s[i])
    ensures Filter(MapSeq(s, f), p) == MapSeq(Filter(s, q), f)
  {
    if s != [] {
      FilterMapSeq(s[1..], f, p, q);
      assert MapSeq(s, f)[1..] == MapSeq(s[1..], f);
    }
  }

  /** Mapping keeps membership: the image of an element of `t` is in the
      image of `t`. */
  lemma MapSeqMembers<A, B>(s: seq<A>, t: seq<A>, f: A -> B)
    requires forall i :: 0 <= i < |s| ==> s[i] in t
    ensures forall i :: 0 <= i < |s| ==> MapSeq(s, f)[i] in MapSeq(t, f)
  {
    var ft := MapSeq(t, f);
    forall i | 0 <= i < |s| ensures MapSeq(s, f)[i] in ft {
      var k :| 0 <= k < |t| && t[k] == s[i];
      assert ft[k] == f(s[i]);
    }
  }

  lemma {:induction false} MapSeqSlice<A, B>(s: seq<A>, f: A -> B, lo: nat, hi: nat)
    requires lo <= hi <= |s|
    ensures MapSeq(s, f)[lo..hi] == MapSeq(s[lo..hi], f)
  {
  }

  // ---------------------------------------------------------------- strings

  predicate StartsWith(s: string, prefix: string)
  {
    |prefix| <= |s| && s[..|prefix|] == prefix
  }

  /** `s.includes(sub)`: `sub` occurs somewhere in `s`. */
  predicate Contains(s: string, sub: string)
    decreases |s|
  {
    StartsWith(s, sub) || (s != [] && Contains(s[1..], sub))
  }

  /** `s.indexOf(sub)`: the first position where `sub` occurs. */
  function IndexOf(s: string, sub: string): (r: Option<nat>)
    ensures r.Some? ==> r.value + |sub| <= |s| && s[r.value..r.value + |sub|] == sub
    ensures r.Some? ==> forall j :: 0 <= j < r.value ==> !StartsWith(s[j..], sub)
    ensures r.None? ==> forall j :: 0 <= j <= |s| ==> !StartsWith(s[j..], sub)
    decreases |s|
  {
    if StartsWith(s, sub) then Some(0)
    else if s == [] then None
    else
      match IndexOf(s[1..], sub)
      case None =>
        assert forall j :: 1 <= j <= |s| ==> s[j..] == s[1..][j - 1..];
        None
      case Some(k) =>
        assert forall j :: 1 <= j <= k ==> s[j..] == s[1..][j - 1..];
        Some(k + 1)
  }

  /** ASCII lower-casing of one character. */
  function LowerChar(c: char): char
  {
    if 'A' <= c <= 'Z' then (c as int + 32) as char else c
  }

  function ToLower(s: string): (r: string)
    ensures |r| == |s|
    ensures forall i :: 0 <= i < |s| ==> r[i] == LowerChar(s[i])
  {
    if s == [] then [] else [LowerChar(s[0])] + ToLower(s[1..])
  }

  /** `s.split(c)`, as JavaScript does it: always at least one part, empty
      parts kept. */
  function Split(s: string, c: char): (parts: seq<string>)
    ensures |parts| >= 1
    ensures forall i :: 0 <= i < |parts| ==> c !in parts[i]
  {
    if s == [] then [""]
    else
      var rest := Split(s[1..], c);
      if s[0] == c then [""] + rest
      else [[s[0]] + rest[0]] + rest[1..]
  }

  /** `parts.join(sep)`. */
  function Join(parts: seq<string>, sep: string): string
  {
    if parts == [] then ""
    else if |parts| == 1 then parts[0]
    else parts[0] + sep + Join(parts[1..], sep)
  }

  /** Splitting loses nothing: joining the parts back with the separator gives
      the original string. */
  lemma {:induction false} SplitJoin(s: string, c: char)
    ensures Join(Split(s, c), [c]) == s
  {
    if s != [] {
      var rest := Split(s[1..], c);
      SplitJoin(s[1..], c);
      if s[0] == c {
        assert Split(s, c) == [""] + rest;
        assert ([""] + rest)[1..] == rest;
      } else {
        var parts := Split(s, c);
        assert parts == [[s[0]] + rest[0]] + rest[1..];
        if |rest| == 1 {
          assert parts == [[s[0]] + rest[0]];
        } else {
          assert parts[1..] == rest[1..];
          assert Join(rest, [c]) == rest[0] + [c] + Join(rest[1..], [c]);
        }
      }
    }
  }

  /** A string in which `c` does not occur splits into itself alone. */
  lemma {:induction false} SplitWithout(s: string, c: char)
    requires c !in s
    ensures Split(s, c) == [s]
  {
    if s != [] {
      SplitWithout(s[1..], c);
      assert [s[0]] + s[1..] == s;
    }
  }

  /** Splitting `a + [c] + b` where `b` has no `c`: the last part is `b`. */
  lemma {:induction false} SplitLastPart(a: string, b: string, c: char)
    requires c !in b
    ensures var parts := Split(a + [c] + b, c); |parts| >= 2 && parts[|parts| - 1] == b
  {
    if a == [] {
      assert a + [c] + b == [c] + b;
      assert ([c] + b)[1..] == b;
      SplitWithout(b, c);
    } else {
      var s := a + [c] + b;
      assert s[1..] == a[1..] + [c] + b;
      SplitLastPart(a[1..], b, c);
    }
  }

  // ---------------------------------------------------------------- decimals

  predicate IsDigit(c: char)
  {
    '0' <= c <= '9'
  }

  predicate AllDigits(s: string)
  {
    forall i :: 0 <= i < |s| ==> IsDigit(s[i])
  }

  function DigitValue(c: char): nat
    requires IsDigit(c)
  {
    c as int - '0' as int
  }

  function DigitChar(d: nat): (c: char)
    requires d < 10
    ensures IsDigit(c) && DigitValue(c) == d
  {
    ('0' as int + d) as char
  }

  /** The value of a string of decimal digits (`parseInt` on `\d+`). */
  function DigitsValue(s: string): nat
    requires AllDigits(s)
  {
    if s == [] then 0 else DigitsValue(s[..|s| - 1]) * 10 + DigitValue(s[|s| - 1])
  }

  /** The decimal rendering of `n`, as a template literal `${n}` writes it. */
  function ShowNat(n: nat): (s: string)
    ensures |s| >= 1 && AllDigits(s)
  {
    if n < 10 then [DigitChar(n)] else ShowNat(n / 10) + [DigitChar(n % 10)]
  }

  /** Reading back a rendered number gives the number. */
  lemma {:induction false} ShowNatValue(n: nat)
    ensures DigitsValue(ShowNat(n)) == n
  {
    if n >= 10 {
      var s := ShowNat(n);
      assert s[..|s| - 1] == ShowNat(n / 10);
      ShowNatValue(n / 10);
    }
  }

  /** The longest run of digits at the start of `s` (what `\d+` consumes). */
  function DigitPrefix(s: string): (r: string)
    ensures |r| <= |s| && r == s[..|r|] && AllDigits(r)
    ensures |r| < |s| ==> !IsDigit(s[|r|])
  {
    if s == [] || !IsDigit(s[0]) then [] else [s[0]] + DigitPrefix(s[1..])
  }

  /** The digit run at the start of `d + rest` is `d` when `rest` does not
      start with a digit. */
  lemma {:induction false} DigitPrefixOf(d: string, rest: string)
    requires AllDigits(d)
    requires rest == [] || !IsDigit(rest[0])
    ensures DigitPrefix(d + rest) == d
  {
    if d != [] {
      assert (d + rest)[1..] == d[1..] + rest;
      DigitPrefixOf(d[1..], rest);
    }
  }

  predicate IsSpace(c: char)
  {
    c == ' ' || c == '\t' || c == '\n' || c == '\r' || c == '\U{000B}' || c == '\U{000C}'
  }

  function TrimStart(s: string): (r: string)
    ensures |r| <= |s|
    ensures r == s[|s| - |r|..]
    ensures r == [] || !IsSpace(r[0])
  {
    if s != [] && IsSpace(s[0]) then TrimStart(s[1..]) else s
  }

  /** `parseInt(s, 10)`: leading white space, an optional sign, then the
      longest run of digits; `None` stands for NaN (no digits). */
  function ParseInt(s: string): Option<int>
  {
    var t := TrimStart(s);
    var negative := t != [] && t[0] == '-';
    var u := if t != [] && (t[0] == '-' || t[0] == '+') then t[1..] else t;
    var d := DigitPrefix(u);
    if d == [] then None
    else if negative then Some(-(DigitsValue(d) as int))
    else Some(DigitsValue(d))
  }

  /** `parseInt` reads a plain digit string as its decimal value. */
  lemma ParseIntDigits(s: string)
    requires s != [] && AllDigits(s)
    ensures ParseInt(s) == Some(DigitsValue(s))
  {
    assert TrimStart(s) == s;
    DigitPrefixOf(s, []);
    assert s + [] == s;
  }
}
