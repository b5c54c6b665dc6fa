/** Trade records and their content hash. The hash is taken over the string
    forms of the record's values, sorted and concatenated, then digested.
    Python's `str` of a number and the MD5 digest are not modelled: they are
    the two functions of a `Hasher`, and every property below holds for any
    choice of them. */
module Trades {

  /** A value stored in a trade record. Quantities are in millionths, the
      price is the exact ratio counter / base. */
  datatype Value = Text(s: string) | Amount(micros: int) | Ratio(r: real) | Whole(n: int)

  /** `show` renders a number as Python's `str` would; `digest` stands for
      MD5 of the UTF-8 text followed by `hexdigest`. */
  datatype Hasher = Hasher(show: Value -> string, digest: string -> string)

  /** One trade as the stream records it (`hash` is added last). */
  datatype TradeRecord = TradeRecord(
    id: string, price: real, volume: int, counter: int, timestamp: int, hash: string)

  /** The record's values in the order its keys were created, without `hash`. */
  function FieldValues(t: TradeRecord): seq<Value>
  {
    [Text(t.id), Ratio(t.price), Amount(t.volume), Amount(t.counter), Whole(t.timestamp)]
  }

  /** Python's `str(v)`: a string is its own string form. */
  function Str(h: Hasher, v: Value): string
  {
    match v
    case Text(s) => s
    case _ => h.show(v)
  }

  /** `str` as a function value. */
  function Render(h: Hasher): Value -> string
  {
    v => Str(h, v)
  }

  /** `[f(x) for x in xs]`. */
  function Map<T, U>(f: T -> U, xs: seq<T>): (r: seq<U>)
    ensures |r| == |xs|
    ensures forall i :: 0 <= i < |xs| ==> r[i] == f(xs[i])
  {
    seq(|xs|, i requires 0 <= i < |xs| => f(xs[i]))
  }

  /** `[str(i) for i in vs]`. */
  function Strs(h: Hasher, vs: seq<Value>): seq<string>
  {
    Map(Render(h), vs)
  }

  // ---------------------------------------------------------------------
  // Python's string order: lexicographic on code points, a proper prefix
  // first.

  predicate LexLe(a: string, b: string)
  {
    |a| == 0 || (|b| > 0 && (a[0] < b[0] || (a[0] == b[0] && LexLe(a[1..], b[1..]))))
  }

  lemma {:induction false} LexTotal(a: string, b: string)
    ensures LexLe(a, b) || LexLe(b, a)
  {
    if |a| > 0 && |b| > 0 && a[0] == b[0] {
      LexTotal(a[1..], b[1..]);
    }
  }

  lemma {:induction false} LexAntisymmetric(a: string, b: string)
    requires LexLe(a, b) && LexLe(b, a)
    ensures a == b
  {
    if |a| > 0 {
      LexAntisymmetric(a[1..], b[1..]);
      assert a == [a[0]] + a[1..] && b == [b[0]] + b[1..];
    }
  }

  lemma {:induction false} LexTransitive(a: string, b: string, c: string)
    requires LexLe(a, b) && LexLe(b, c)
    ensures LexLe(a, c)
  {
    if |a| > 0 && a[0] == b[0] && b[0] == c[0] {
      LexTransitive(a[1..], b[1..], c[1..]);
    }
  }

  predicate Sorted(s: seq<string>)
  {
    forall i, j :: 0 <= i < j < |s| ==> LexLe(s[i], s[j])
  }

  /** Places `x` before the first element it does not exceed. */
  function InsertSorted(x: string, s: seq<string>): (r: seq<string>)
    requires Sorted(s)
    ensures multiset(r) == multiset(s) + multiset{x}
    ensures Sorted(r)
  {
    if |s| == 0 then [x]
    else if LexLe(x, s[0]) then
      BelowHead(x, s);
      [x] + s
    else
      LexTotal(x, s[0]);
      SortedTail(s);
      var rest := InsertSorted(x, s[1..]);
      HeadBelowInsert(s, x, rest);
      [s[0]] + rest
  }

  /** A string at or below the head of a sorted list can go in front. */
  lemma BelowHead(x: string, s: seq<string>)
    requires Sorted(s) && |s| > 0 && LexLe(x, s[0])
    ensures Sorted([x] + s)
  {
    forall j | 0 <= j < |s| ensures LexLe(x, s[j]) {
      if j > 0 { LexTransitive(x, s[0], s[j]); }
    }
    var r := [x] + s;
    forall i, j | 0 <= i < j < |r| ensures LexLe(r[i], r[j]) {
      assert r[j] == s[j - 1];
      if i > 0 { assert r[i] == s[i - 1]; }
    }
  }

  /** The head of a sorted list, at or below `x`, can go in front of the
      sorted insertion of `x` into its tail. */
  lemma HeadBelowInsert(s: seq<string>, x: string, rest: seq<string>)
    requires Sorted(s) && |s| > 0 && LexLe(s[0], x)
    requires multiset(rest) == multiset(s[1..]) + multiset{x} && Sorted(rest)
    ensures multiset([s[0]] + rest) == multiset(s) + multiset{x}
    ensures Sorted([s[0]] + rest)
  {
    assert s == [s[0]] + s[1..];
    forall k | 0 <= k < |rest| ensures LexLe(s[0], rest[k]) {
      assert rest[k] in multiset(rest);
      if rest[k] != x {
        assert rest[k] in multiset(s[1..]);
        var m :| 0 <= m < |s[1..]| && s[1..][m] == rest[k];
        assert s[1..][m] == s[m + 1];
      }
    }
    var r := [s[0]] + rest;
    forall i, j | 0 <= i < j < |r| ensures LexLe(r[i], r[j]) {
      assert r[j] == rest[j - 1];
      if i > 0 { assert r[i] == rest[i - 1]; }
    }
  }

  /** Python's `sorted` on a list of strings. */
  function SortStrings(s: seq<string>): (r: seq<string>)
    ensures multiset(r) == multiset(s)
    ensures Sorted(r)
  {
    if |s| == 0 then []
    else
      assert s == [s[0]] + s[1..];
      InsertSorted(s[0], SortStrings(s[1..]))
  }

  /** `"".join(ss)`. */
  function Concat(ss: seq<string>): string
  {
    if |ss| == 0 then "" else ss[0] + Concat(ss[1..])
  }

  /** The text that is digested: the sorted string forms, joined. */
  function Canonical(h: Hasher, vs: seq<Value>): string
  {
    Concat(SortStrings(Strs(h, vs)))
  }

  /** The hash of a record's values (the source's `__trade_hash`). */
  function HashValues(h: Hasher, vs: seq<Value>): string
  {
    h.digest(Canonical(h, vs))
  }

  /** Builds the record of one trade and attaches its hash, computed over the
      record before the hash key exists. */
  function MakeRecord(h: Hasher, orderId: string, base: int, counter: int, timestamp: int): (r: TradeRecord)
    requires base != 0
    ensures r.id == orderId && r.volume == base && r.counter == counter && r.timestamp == timestamp
    ensures r.price * (base as real) == counter as real
    ensures r.hash == h.digest(Canonical(h, FieldValues(r)))
  {
    var price := (counter as real) / (base as real);
    var unhashed := TradeRecord(orderId, price, base, counter, timestamp, "");
    unhashed.(hash := HashValues(h, FieldValues(unhashed)))
  }

  // ---------------------------------------------------------------------
  // Properties of the hash

  /** Taking element `i` out of a list. */
  lemma MultisetWithout<T>(s: seq<T>, i: nat)
    requires i < |s|
    ensures multiset(s) == multiset{s[i]} + multiset(s[..i] + s[i + 1..])
  {
    assert s == s[..i] + [s[i]] + s[i + 1..];
  }

  lemma MultisetCancel<T>(x: T, m: multiset<T>, n: multiset<T>)
    requires multiset{x} + m == multiset{x} + n
    ensures m == n
  {
    forall y ensures m[y] == n[y] {
      assert (multiset{x} + m)[y] == multiset{x}[y] + m[y];
      assert (multiset{x} + n)[y] == multiset{x}[y] + n[y];
    }
  }

  /** Removing an equal element from two rearrangements of one list leaves
      rearrangements of one list. */
  lemma SameElementTails<T>(a: seq<T>, i: nat, b: seq<T>, j: nat)
    requires multiset(a) == multiset(b) && i < |a| && j < |b| && a[i] == b[j]
    ensures multiset(a[..i] + a[i + 1..]) == multiset(b[..j] + b[j + 1..])
  {
    MultisetWithout(a, i);
    MultisetWithout(b, j);
    MultisetCancel(a[i], multiset(a[..i] + a[i + 1..]), multiset(b[..j] + b[j + 1..]));
  }

  /** Removing the same first element from two rearrangements of one list
      leaves rearrangements of one list. */
  lemma SameHeadTails<T>(a: seq<T>, b: seq<T>)
    requires multiset(a) == multiset(b) && |a| > 0 && |b| > 0 && a[0] == b[0]
    ensures multiset(a[1..]) == multiset(b[1..])
  {
    assert a == [a[0]] + a[1..] && b == [b[0]] + b[1..];
    MultisetCancel(a[0], multiset(a[1..]), multiset(b[1..]));
  }
  lemma SortedTail(a: seq<string>)
    requires Sorted(a) && |a| > 0
    ensures Sorted(a[1..])
  {
    forall i, j | 0 <= i < j < |a| - 1 ensures LexLe(a[1..][i], a[1..][j]) {
      assert a[1..][i] == a[i + 1] && a[1..][j] == a[j + 1];
    }
  }

  /** The head of a sorted list is at most every element of it. */
  lemma SortedHeadLeast(a: seq<string>, x: string)
    requires Sorted(a) && x in multiset(a)
    ensures LexLe(a[0], x)
  {
    var i :| 0 <= i < |a| && a[i] == x;
    if i == 0 { LexTotal(x, x); }
  }

  /** Two sorted lists holding the same strings are the same list. */
  lemma {:induction false} SortedUnique(a: seq<string>, b: seq<string>)
    requires Sorted(a) && Sorted(b) && multiset(a) == multiset(b)
    ensures a == b
  {
    if |a| == 0 {
      assert |multiset(b)| == 0;
    } else {
      assert |b| > 0 by { assert |multiset(b)| == |multiset(a)| > 0; }
      assert a[0] in multiset(a) && b[0] in multiset(b);
      SortedHeadLeast(a, b[0]);
      SortedHeadLeast(b, a[0]);
      LexAntisymmetric(a[0], b[0]);
      SameHeadTails(a, b);
      SortedTail(a);
      SortedTail(b);
      SortedUnique(a[1..], b[1..]);
      assert a == [a[0]] + a[1..] && b == [b[0]] + b[1..];
    }
  }

  /** Mapping a list without its element `i`. */
  lemma MapWithout<T, U>(f: T -> U, xs: seq<T>, i: nat)
    requires i < |xs|
    ensures Map(f, xs[..i] + xs[i + 1..]) == Map(f, xs)[..i] + Map(f, xs)[i + 1..]
  {
    var xs', m := xs[..i] + xs[i + 1..], Map(f, xs);
    var l, r := Map(f, xs'), m[..i] + m[i + 1..];
    forall k | 0 <= k < |l| ensures l[k] == r[k] {
      if k < i {
        assert xs'[k] == xs[k];
      } else {
        assert xs'[k] == xs[k + 1];
      }
    }
  }

  /** The image of a list is the image of one element plus the image of the
      list without it. */
  lemma MapSplit<T, U>(f: T -> U, xs: seq<T>, i: nat)
    requires i < |xs|
    ensures multiset(Map(f, xs)) == multiset{f(xs[i])} + multiset(Map(f, xs[..i] + xs[i + 1..]))
  {
    MultisetWithout(Map(f, xs), i);
    MapWithout(f, xs, i);
  }

  /** Mapping preserves "same elements, possibly reordered". */
  lemma {:induction false} MapPermutation<T, U>(f: T -> U, a: seq<T>, b: seq<T>)
    requires multiset(a) == multiset(b)
    ensures multiset(Map(f, a)) == multiset(Map(f, b))
    decreases |a|
  {
    if |a| == 0 {
      assert |multiset(b)| == 0;
    } else {
      assert a[0] in multiset(b);
      var i :| 0 <= i < |b| && b[i] == a[0];
      var a', b' := a[..0] + a[1..], b[..i] + b[i + 1..];
      SameElementTails(a, 0, b, i);
      MapPermutation(f, a', b');
      MapSplit(f, a, 0);
      MapSplit(f, b, i);
    }
  }

  /** Rendering preserves "same values, possibly reordered". */
  lemma StrsPermutation(h: Hasher, a: seq<Value>, b: seq<Value>)
    requires multiset(a) == multiset(b)
    ensures multiset(Strs(h, a)) == multiset(Strs(h, b))
  {
    MapPermutation(Render(h), a, b);
  }

  /** The hash does not depend on the order of the values: any rearrangement
      of the same values digests the same text. */
  lemma HashIgnoresOrder(h: Hasher, a: seq<Value>, b: seq<Value>)
    requires multiset(a) == multiset(b)
    ensures HashValues(h, a) == HashValues(h, b)
  {
    StrsPermutation(h, a, b);
    SortedUnique(SortStrings(Strs(h, a)), SortStrings(Strs(h, b)));
  }

  /** Records whose values form the same multiset get the same hash,
      whatever their hash fields held. */
  lemma RecordHashDependsOnValues(h: Hasher, r1: TradeRecord, r2: TradeRecord)
    requires multiset(FieldValues(r1)) == multiset(FieldValues(r2))
    ensures HashValues(h, FieldValues(r1)) == HashValues(h, FieldValues(r2))
  {
    HashIgnoresOrder(h, FieldValues(r1), FieldValues(r2));
  }
}
