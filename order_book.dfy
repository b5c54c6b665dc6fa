/** The two sides of the local order book and the list operations the stream
    performs on them: lookup by id, price-positioned insertion, removal at an
    index and a volume update at an index. */
module OrderBook {
  import opened Prelude

  /** One resting order. Price and volume are fixed-point amounts in
      millionths, so rounding a difference to six decimals is exact. */
  datatype Order = Order(id: string, price: int, volume: int)

  /** Which list an order lives in (the source names it by the strings
      "bids" and "asks"). */
  datatype Side = Bids | Asks

  /** Result of looking an id up: the order, its index and its side, or
      nothing (the source's `(False, False, False)`). */
  datatype Lookup = NotFound | Found(order: Order, index: nat, side: Side)

  predicate HasId(s: seq<Order>, id: string)
  {
    exists i :: 0 <= i < |s| && s[i].id == id
  }

  /** No two entries of a side share an id. */
  predicate UniqueIds(s: seq<Order>)
  {
    forall i, j :: 0 <= i < j < |s| ==> s[i].id != s[j].id
  }

  /** Prices never decrease from left to right. */
  predicate Ascending(s: seq<Order>)
  {
    forall i, j :: 0 <= i < j < |s| ==> s[i].price <= s[j].price
  }

  /** Index of the first entry carrying `id`, if any. */
  function FirstWithId(s: seq<Order>, id: string): (r: Option<nat>)
    ensures r.Some? ==> r.value < |s| && s[r.value].id == id
    ensures r.Some? ==> forall j :: 0 <= j < r.value ==> s[j].id != id
    ensures r.None? <==> !HasId(s, id)
  {
    if |s| == 0 then None
    else if s[0].id == id then Some(0)
    else match FirstWithId(s[1..], id)
      case None => None
      case Some(k) => Some(k + 1)
  }

  /** The lookup of an id across both sides: bids are searched first, and
      asks only when no bid carries the id. */
  function Fetch(bids: seq<Order>, asks: seq<Order>, id: string): (r: Lookup)
    ensures HasId(bids, id) ==> r.Found? && r.side == Bids
    ensures r.Found? && r.side == Bids ==>
      r.index < |bids| && r.order == bids[r.index] && r.order.id == id &&
      forall j :: 0 <= j < r.index ==> bids[j].id != id
    ensures r.Found? && r.side == Asks ==>
      !HasId(bids, id) &&
      r.index < |asks| && r.order == asks[r.index] && r.order.id == id &&
      forall j :: 0 <= j < r.index ==> asks[j].id != id
    ensures r.NotFound? <==> !HasId(bids, id) && !HasId(asks, id)
  {
    match FirstWithId(bids, id)
    case Some(i) => Found(bids[i], i, Bids)
    case None =>
      match FirstWithId(asks, id)
      case Some(i) => Found(asks[i], i, Asks)
      case None => NotFound
  }

  /** Index of the last entry whose price is at most `price`, if any. */
  function LastAtOrBelow(s: seq<Order>, price: int): (r: Option<nat>)
    ensures r.Some? ==> r.value < |s| && s[r.value].price <= price
    ensures r.Some? ==> forall j :: r.value < j < |s| ==> s[j].price > price
    ensures r.None? ==> forall j :: 0 <= j < |s| ==> s[j].price > price
  {
    if |s| == 0 then None
    else if s[|s| - 1].price <= price then Some(|s| - 1)
    else LastAtOrBelow(s[..|s| - 1], price)
  }

  /** Python's `list.index`: the position of the first entry EQUAL to `o`
      (equal id, price and volume), which need not be where `o` was found. */
  function IndexOf(s: seq<Order>, o: Order): (r: nat)
    requires o in s
    ensures r < |s| && s[r] == o
    ensures forall j :: 0 <= j < r ==> s[j] != o
  {
    if s[0] == o then 0 else 1 + IndexOf(s[1..], o)
  }

  /** Where the source inserts a new order of the given price: one past the
      list position of the last entry priced at or below it, else 0. The
      same rule is used for both sides. */
  function InsertionPoint(s: seq<Order>, price: int): (r: nat)
    ensures r <= |s|
    ensures r > 0 ==> s[r - 1].price <= price
    ensures r == 0 <==> forall j :: 0 <= j < |s| ==> s[j].price > price
  {
    match LastAtOrBelow(s, price)
    case None => 0
    case Some(k) => IndexOf(s, s[k]) + 1
  }

  /** `list.insert(InsertionPoint(...), o)`. */
  function Insert(s: seq<Order>, o: Order): (r: seq<Order>)
    ensures |r| == |s| + 1
    ensures r[InsertionPoint(s, o.price)] == o
    ensures forall j :: 0 <= j < InsertionPoint(s, o.price) ==> r[j] == s[j]
    ensures forall j :: InsertionPoint(s, o.price) < j < |r| ==> r[j] == s[j - 1]
    ensures multiset(r) == multiset(s) + multiset{o}
  {
    var p := InsertionPoint(s, o.price);
    InsertAt(s, p, o);
    s[..p] + [o] + s[p..]
  }

  /** What `list.insert(p, x)` does to positions and contents. */
  lemma InsertAt<T>(s: seq<T>, p: nat, x: T)
    requires p <= |s|
    ensures var r := s[..p] + [x] + s[p..];
      |r| == |s| + 1 && r[p] == x &&
      (forall j :: 0 <= j < p ==> r[j] == s[j]) &&
      (forall j :: p < j < |r| ==> r[j] == s[j - 1]) &&
      multiset(r) == multiset(s) + multiset{x}
  {
    assert s == s[..p] + s[p..];
  }

  /** `list.pop(i)`: the list without its entry at index `i`. */
  function RemoveAt(s: seq<Order>, i: nat): (r: seq<Order>)
    requires i < |s|
    ensures |r| == |s| - 1
    ensures forall j :: 0 <= j < i ==> r[j] == s[j]
    ensures forall j :: i <= j < |r| ==> r[j] == s[j + 1]
    ensures multiset(r) + multiset{s[i]} == multiset(s)
  {
    assert s == s[..i] + [s[i]] + s[i + 1..];
    s[..i] + s[i + 1..]
  }

  /** `side[i].update({"volume": v})`. */
  function SetVolume(s: seq<Order>, i: nat, v: int): (r: seq<Order>)
    requires i < |s|
    ensures |r| == |s|
    ensures r[i].id == s[i].id && r[i].price == s[i].price && r[i].volume == v
    ensures forall j :: 0 <= j < |s| && j != i ==> r[j] == s[j]
  {
    s[i := s[i].(volume := v)]
  }

  // ---------------------------------------------------------------------
  // Properties of the book operations

  /** With unique ids `list.index` finds the entry at its own position. */
  lemma {:induction false} IndexOfUnique(s: seq<Order>, k: nat)
    requires UniqueIds(s) && k < |s|
    ensures IndexOf(s, s[k]) == k
  {
  }

  /** On a side with unique ids the new order lands immediately after the
      last entry priced at or below it: every entry before it is the old
      prefix, every entry from the insertion point on is priced above it. */
  lemma InsertionPointAfterLast(s: seq<Order>, price: int)
    requires UniqueIds(s)
    ensures var p := InsertionPoint(s, price);
      forall j :: p <= j < |s| ==> s[j].price > price
  {
    match LastAtOrBelow(s, price)
    case None =>
    case Some(k) => IndexOfUnique(s, k);
  }

  /** Inserting keeps every old entry in its relative order: removing the new
      order again gives back the old side. */
  lemma InsertThenRemove(s: seq<Order>, o: Order)
    ensures var p := InsertionPoint(s, o.price);
      p < |Insert(s, o)| && RemoveAt(Insert(s, o), p) == s
  {
    var p := InsertionPoint(s, o.price);
    var r := Insert(s, o);
    assert r[..p] == s[..p];
    assert r[p + 1..] == s[p..];
    assert s == s[..p] + s[p..];
  }

  /** Inserting into an ascending side with unique ids keeps it ascending. */
  lemma InsertKeepsAscending(s: seq<Order>, o: Order)
    requires Ascending(s) && UniqueIds(s)
    ensures Ascending(Insert(s, o))
  {
    var p := InsertionPoint(s, o.price);
    var r := Insert(s, o);
    InsertionPointAfterLast(s, o.price);
    forall i, j | 0 <= i < j < |r| ensures r[i].price <= r[j].price {
      var a := if i < p then s[i] else if i == p then o else s[i - 1];
      var b := if j < p then s[j] else if j == p then o else s[j - 1];
      assert r[i] == a && r[j] == b;
      if j < p {
        assert a.price <= b.price;
      } else if j == p {
        assert s[i].price <= s[p - 1].price;
      } else if i == p {
        assert b.price > o.price;
      } else {
        assert a.price <= b.price;
      }
    }
  }

  /** Removing an entry keeps an ascending side ascending. */
  lemma RemoveKeepsAscending(s: seq<Order>, i: nat)
    requires i < |s| && Ascending(s)
    ensures Ascending(RemoveAt(s, i))
  {
  }

  /** The comparator is the same for bids, which the venue lists best
      (highest) first: a lower bid goes in FRONT of a higher one, so a
      descending bid list does not stay descending. */
  lemma LowerBidGoesFirst()
    ensures Insert([Order("a", 100, 2)], Order("c", 99, 1))
         == [Order("c", 99, 1), Order("a", 100, 2)]
  {
    assert LastAtOrBelow([Order("a", 100, 2)], 99) == None;
  }

  /** `list.index` finds the first EQUAL entry: with two identical entries
      priced at or below the new order, it lands after the first copy. */
  lemma DuplicateEntryShiftsInsertion()
    ensures var x := Order("a", 5, 1);
      Insert([x, x], Order("b", 6, 1)) == [x, Order("b", 6, 1), x]
  {
    var x := Order("a", 5, 1);
    assert LastAtOrBelow([x, x], 6) == Some(1);
    assert IndexOf([x, x], x) == 0;
  }

  /** Entries with the same ids in the same places are searched alike. */
  lemma FirstWithIdSameIds(a: seq<Order>, b: seq<Order>, id: string)
    requires |a| == |b| && forall j :: 0 <= j < |a| ==> a[j].id == b[j].id
    ensures FirstWithId(a, id) == FirstWithId(b, id)
  {
    var fa := FirstWithId(a, id);
    if fa.Some? {
      assert b[fa.value].id == id;
    }
  }

  /** An id the side does not hold is found where it was inserted. */
  lemma InsertFreshFirst(s: seq<Order>, o: Order)
    requires !HasId(s, o.id)
    ensures FirstWithId(Insert(s, o), o.id) == Some(InsertionPoint(s, o.price))
  {
    var p := InsertionPoint(s, o.price);
    var r := Insert(s, o);
    forall j | 0 <= j < p ensures r[j].id != o.id {
      assert r[j] == s[j];
    }
  }

  /** Two volume changes of one entry are the last of them. */
  lemma SetVolumeTwice(s: seq<Order>, i: nat, v: int, w: int)
    requires i < |s|
    ensures SetVolume(SetVolume(s, i, v), i, w) == SetVolume(s, i, w)
  {
  }

  /** Removing an entry forgets any volume change made to it. */
  lemma RemoveAfterSetVolume(s: seq<Order>, i: nat, v: int)
    requires i < |s|
    ensures RemoveAt(SetVolume(s, i, v), i) == RemoveAt(s, i)
  {
  }

  /** Inserting an id the side does not hold keeps its ids unique. */
  lemma InsertKeepsUniqueIds(s: seq<Order>, o: Order)
    requires UniqueIds(s) && !HasId(s, o.id)
    ensures UniqueIds(Insert(s, o))
  {
    var p := InsertionPoint(s, o.price);
    var r := Insert(s, o);
    forall i, j | 0 <= i < j < |r| ensures r[i].id != r[j].id {
      var a := if i < p then s[i] else if i == p then o else s[i - 1];
      var b := if j < p then s[j] else if j == p then o else s[j - 1];
      assert r[i] == a && r[j] == b;
    }
  }

  /** Removing an entry keeps ids unique. */
  lemma RemoveKeepsUniqueIds(s: seq<Order>, i: nat)
    requires i < |s| && UniqueIds(s)
    ensures UniqueIds(RemoveAt(s, i))
  {
    var r := RemoveAt(s, i);
    forall a, b | 0 <= a < b < |r| ensures r[a].id != r[b].id {
      var a' := if a < i then a else a + 1;
      var b' := if b < i then b else b + 1;
      assert r[a] == s[a'] && r[b] == s[b'];
    }
  }

  /** A volume change keeps prices in order and ids unique. */
  lemma SetVolumeKeepsShape(s: seq<Order>, i: nat, v: int)
    requires i < |s|
    ensures Ascending(s) ==> Ascending(SetVolume(s, i, v))
    ensures UniqueIds(s) ==> UniqueIds(SetVolume(s, i, v))
  {
    var r := SetVolume(s, i, v);
    assert forall j :: 0 <= j < |s| ==> r[j].price == s[j].price && r[j].id == s[j].id;
  }
}
