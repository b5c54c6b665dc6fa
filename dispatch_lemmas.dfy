/** What the stream's operations promise, stated over the step functions of
    `Dispatch` and proved for all states and messages. */
module DispatchLemmas {
  import opened Prelude
  import opened OrderBook
  import opened Trades
  import opened StreamState
  import opened Dispatch

  // ---------------------------------------------------------------------
  // The trade loop

  /** Once a trade of the batch raises, the trades after it are never
      applied: the batch ends where it raised. */
  lemma {:induction false} ApplyTradesStopsAtRaise(
    h: Hasher, s: State, done: seq<TradeUpdate>, rest: seq<TradeUpdate>, timestamp: int)
    requires ChannelsComplete(s.channels)
    requires ApplyTrades(h, s, done, timestamp).outcome.Raised?
    ensures ApplyTrades(h, s, done + rest, timestamp) == ApplyTrades(h, s, done, timestamp)
    decreases |rest|
  {
    if rest == [] {
      assert done + rest == done;
    } else {
      var all := done + rest;
      var shorter := rest[..|rest| - 1];
      assert all[..|all| - 1] == done + shorter;
      ApplyTradesStopsAtRaise(h, s, done, shorter, timestamp);
    }
  }

  lemma SplitLast<T>(s: seq<T>)
    requires |s| > 0
    ensures s == s[..|s| - 1] + [s[|s| - 1]]
  {
  }

  lemma ConsAppend<T>(x: T, a: seq<T>, b: seq<T>)
    ensures [x] + (a + b) == ([x] + a) + b
  {
  }

  /** Appending a trade to a batch runs it on the batch's result, unless
      the batch raised. */
  lemma ApplyTradesSnoc(h: Hasher, s: State, done: seq<TradeUpdate>, t: TradeUpdate, timestamp: int)
    requires ChannelsComplete(s.channels)
    ensures var before := ApplyTrades(h, s, done, timestamp);
      ApplyTrades(h, s, done + [t], timestamp) ==
        if before.outcome.Raised? then before else AddTradeStep(h, before.state, t, timestamp)
  {
    assert (done + [t])[..|done|] == done;
  }

  /** One more trade of a batch whose first `i` trades all returned runs
      on their result. */
  lemma ApplyTradesNext(h: Hasher, s: State, batch: seq<TradeUpdate>, i: nat, timestamp: int)
    requires ChannelsComplete(s.channels) && i < |batch|
    requires ApplyTrades(h, s, batch[..i], timestamp).outcome.Returned?
    ensures ApplyTrades(h, s, batch[..i + 1], timestamp)
         == AddTradeStep(h, ApplyTrades(h, s, batch[..i], timestamp).state, batch[i], timestamp)
  {
    var done := batch[..i + 1];
    assert done[..i] == batch[..i] && done[i] == batch[i];
  }

  /** Once a prefix of the batch raised, the whole batch ends as that
      prefix did. */
  lemma ApplyTradesPrefixRaised(h: Hasher, s: State, batch: seq<TradeUpdate>, k: nat, timestamp: int)
    requires ChannelsComplete(s.channels) && k <= |batch|
    requires ApplyTrades(h, s, batch[..k], timestamp).outcome.Raised?
    ensures ApplyTrades(h, s, batch, timestamp) == ApplyTrades(h, s, batch[..k], timestamp)
  {
    ApplyTradesStopsAtRaise(h, s, batch[..k], batch[k..], timestamp);
    assert batch[..k] + batch[k..] == batch;
  }

  /** Trades are applied front to back: the first trade of the batch runs
      on the incoming state and the rest of the batch on its result, unless
      it raised. */
  lemma {:induction false} ApplyTradesInOrder(
    h: Hasher, s: State, first: TradeUpdate, rest: seq<TradeUpdate>, timestamp: int)
    requires ChannelsComplete(s.channels)
    ensures var head := AddTradeStep(h, s, first, timestamp);
      ApplyTrades(h, s, [first] + rest, timestamp) ==
        if head.outcome.Raised? then head else ApplyTrades(h, head.state, rest, timestamp)
    decreases |rest|
  {
    var all := [first] + rest;
    if rest == [] {
      assert all[..0] == [];
    } else {
      var shorter := rest[..|rest| - 1];
      assert all[..|all| - 1] == [first] + shorter;
      assert all[|all| - 1] == rest[|rest| - 1];
      ApplyTradesInOrder(h, s, first, shorter, timestamp);
    }
  }

  /** The record `_add_trade` builds for one trade of a batch. */
  function RecordOf(h: Hasher, t: TradeUpdate, timestamp: int): TradeRecord
    requires t.base != 0
  {
    MakeRecord(h, t.orderId, t.base, t.counter, timestamp)
  }

  /** The records of a batch, newest (last applied) first: entry `i` is the
      record of the `i`-th trade counted from the end. */
  function NewestFirst(h: Hasher, trades: seq<TradeUpdate>, timestamp: int): seq<TradeRecord>
    requires NonZeroBases(trades)
  {
    seq(|trades|, i requires 0 <= i < |trades| => RecordOf(h, trades[|trades| - 1 - i], timestamp))
  }

  /** One more trade puts its record in front of the shorter batch's. */
  lemma NewestFirstSnoc(h: Hasher, trades: seq<TradeUpdate>, timestamp: int)
    requires NonZeroBases(trades) && trades != []
    ensures NonZeroBases(trades[..|trades| - 1])
    ensures NewestFirst(h, trades, timestamp)
         == [RecordOf(h, trades[|trades| - 1], timestamp)] + NewestFirst(h, trades[..|trades| - 1], timestamp)
  {
    var last := |trades| - 1;
    var done := trades[..last];
    assert forall k :: 0 <= k < last ==> done[k] == trades[k];
    var r := NewestFirst(h, trades, timestamp);
    var rest := NewestFirst(h, done, timestamp);
    assert |r| == 1 + |rest|;
    forall i | 1 <= i < |r|
      ensures r[i] == rest[i - 1]
    {
      assert done[last - i] == trades[last - i];
    }
  }

  /** A batch on a loaded book with no zero base records every trade, found
      or not, in front of the old history, newest first. */
  lemma {:induction false} ApplyTradesRecordsAll(h: Hasher, s: State, trades: seq<TradeUpdate>, timestamp: int)
    requires ChannelsComplete(s.channels) && s.loaded && NonZeroBases(trades)
    ensures var r := ApplyTrades(h, s, trades, timestamp);
      r.outcome == Returned(true) &&
      r.state.history == NewestFirst(h, trades, timestamp) + s.history &&
      |r.state.history| == |s.history| + |trades|
    decreases |trades|
  {
    if trades != [] {
      var last := |trades| - 1;
      var done := trades[..last];
      assert NonZeroBases(done) by {
        assert forall k :: 0 <= k < last ==> done[k] == trades[k];
      }
      ApplyTradesRecordsAll(h, s, done, timestamp);
      ApplyTradesSnoc(h, s, done, trades[last], timestamp);
      SplitLast(trades);
      var before := ApplyTrades(h, s, done, timestamp);
      var t := trades[last];
      var rec := MakeRecord(h, t.orderId, t.base, t.counter, timestamp);
      AddTradePrepends(h, before.state, t, timestamp);
      NewestFirstSnoc(h, trades, timestamp);
      ConsAppend(rec, NewestFirst(h, done, timestamp), s.history);
    }
  }

  /** A trade with a non-zero base on a loaded book puts its record in
      front of the history. */
  lemma AddTradePrepends(h: Hasher, s: State, t: TradeUpdate, timestamp: int)
    requires ChannelsComplete(s.channels) && s.loaded && t.base != 0
    ensures var r := AddTradeStep(h, s, t, timestamp);
      r.outcome == Returned(true) &&
      r.state.history == [MakeRecord(h, t.orderId, t.base, t.counter, timestamp)] + s.history
  {
  }
  // ---------------------------------------------------------------------
  // Adding orders

  /** A BID or ASK on a loaded book lands at the insertion point of its own
      side, which otherwise keeps its entries in order; the other side is
      untouched and the new book is published when its flag is on. */
  lemma AddOrderPlaces(s: State, c: CreateUpdate, side: Side)
    requires ChannelsComplete(s.channels) && s.loaded && c.kind == KindOf(side)
    ensures var r := AddOrderStep(s, c);
      var p := InsertionPoint(SideOf(s, side), c.price);
      r.outcome == Returned(true) &&
      p < |SideOf(r.state, side)| &&
      SideOf(r.state, side)[p] == Order(c.orderId, c.price, c.volume) &&
      RemoveAt(SideOf(r.state, side), p) == SideOf(s, side) &&
      SideOf(r.state, Opposite(side)) == SideOf(s, Opposite(side)) &&
      r.state.outbox == s.outbox +
        (if s.channels["order_book"] then [BookPayload(r.state.bids, r.state.asks)] else [])
  {
    InsertThenRemove(SideOf(s, side), Order(c.orderId, c.price, c.volume));
  }

  /** A create whose type is neither BID nor ASK changes neither side, yet
      still returns true and publishes the (unchanged) book. */
  lemma AddOrderOtherKind(s: State, c: CreateUpdate)
    requires ChannelsComplete(s.channels) && c.kind != "BID" && c.kind != "ASK"
    ensures var r := AddOrderStep(s, c);
      r.outcome == Returned(true) &&
      r.state.bids == s.bids && r.state.asks == s.asks &&
      r.state.outbox == s.outbox +
        (if s.channels["order_book"] && s.loaded then [BookPayload(s.bids, s.asks)] else [])
  {
  }

  /** Adding an order whose id is in neither side and then deleting that id
      gives back the book it started from. */
  lemma AddThenRemoveRestoresBook(s: State, c: CreateUpdate)
    requires ChannelsComplete(s.channels) && s.loaded
    requires c.kind == "BID" || c.kind == "ASK"
    requires !HasId(s.bids, c.orderId) && !HasId(s.asks, c.orderId)
    ensures var added := AddOrderStep(s, c).state;
      var removed := RemoveOrderStep(added, c.orderId);
      removed.outcome == Returned(true) &&
      removed.state.bids == s.bids && removed.state.asks == s.asks
  {
    var o := Order(c.orderId, c.price, c.volume);
    var added := AddOrderStep(s, c).state;
    if c.kind == "BID" {
      InsertFreshFirst(s.bids, o);
      InsertThenRemove(s.bids, o);
      assert added.bids == Insert(s.bids, o) && added.asks == s.asks;
      assert Fetch(added.bids, added.asks, c.orderId) == Found(o, InsertionPoint(s.bids, c.price), Bids);
    } else {
      InsertFreshFirst(s.asks, o);
      InsertThenRemove(s.asks, o);
      assert added.asks == Insert(s.asks, o) && added.bids == s.bids;
      assert Fetch(added.bids, added.asks, c.orderId) == Found(o, InsertionPoint(s.asks, c.price), Asks);
    }
  }

  // ---------------------------------------------------------------------
  // Removing and updating orders

  /** Deleting a known id pops exactly the entry `Fetch` reported, from its
      side only, and publishes the new book when its flag is on. */
  lemma RemoveOrderExact(s: State, id: string)
    requires ChannelsComplete(s.channels) && s.loaded
    requires Fetch(s.bids, s.asks, id).Found?
    ensures var f := Fetch(s.bids, s.asks, id);
      var r := RemoveOrderStep(s, id);
      r.outcome == Returned(true) &&
      f.order.id == id &&
      SideOf(r.state, f.side) == RemoveAt(SideOf(s, f.side), f.index) &&
      SideOf(r.state, Opposite(f.side)) == SideOf(s, Opposite(f.side)) &&
      r.state.outbox == s.outbox +
        (if s.channels["order_book"] then [BookPayload(r.state.bids, r.state.asks)] else [])
  {
  }

  /** A trade that leaves volume on its order changes only that entry's
      volume, to the old volume minus the traded base; nothing is published. */
  lemma UpdateOrderPartialFill(s: State, t: TradeUpdate)
    requires ChannelsComplete(s.channels) && s.loaded
    requires Fetch(s.bids, s.asks, t.orderId).Found?
    requires Fetch(s.bids, s.asks, t.orderId).order.volume - t.base != 0
    ensures var f := Fetch(s.bids, s.asks, t.orderId);
      var r := UpdateOrderStep(s, t);
      var after := SideOf(r.state, f.side);
      r.outcome == Returned(true) &&
      |after| == |SideOf(s, f.side)| &&
      after[f.index] == Order(f.order.id, f.order.price, f.order.volume - t.base) &&
      (forall j :: 0 <= j < |after| && j != f.index ==> after[j] == SideOf(s, f.side)[j]) &&
      SideOf(r.state, Opposite(f.side)) == SideOf(s, Opposite(f.side)) &&
      r.state.outbox == s.outbox
  {
  }

  /** A trade for the whole remaining volume removes the order from its
      side, as a delete would. */
  lemma UpdateOrderFill(s: State, t: TradeUpdate)
    requires ChannelsComplete(s.channels) && s.loaded
    requires Fetch(s.bids, s.asks, t.orderId).Found?
    requires Fetch(s.bids, s.asks, t.orderId).order.volume == t.base
    ensures var r := UpdateOrderStep(s, t);
      r == Step(RemoveOrderStep(s, t.orderId).state, Returned(true))
  {
  }

  /** Two partial trades on one order leave the same state as one trade of
      their combined base: volume is conserved. */
  lemma UpdatesAccumulate(s: State, id: string, b1: int, b2: int, c1: int, c2: int, c: int)
    requires ChannelsComplete(s.channels) && s.loaded
    requires Fetch(s.bids, s.asks, id).Found?
    requires Fetch(s.bids, s.asks, id).order.volume - b1 != 0
    ensures UpdateOrderStep(UpdateOrderStep(s, TradeUpdate(id, b1, c1)).state, TradeUpdate(id, b2, c2))
         == UpdateOrderStep(s, TradeUpdate(id, b1 + b2, c))
  {
    if Fetch(s.bids, s.asks, id).order.volume - b1 - b2 == 0 {
      AccumulateFills(s, id, b1, b2, c1, c2, c);
    } else {
      AccumulateLeaves(s, id, b1, b2, c1, c2, c);
    }
  }

  /** `UpdatesAccumulate` when the second trade takes the rest. */
  lemma AccumulateFills(s: State, id: string, b1: int, b2: int, c1: int, c2: int, c: int)
    requires ChannelsComplete(s.channels) && s.loaded
    requires Fetch(s.bids, s.asks, id).Found?
    requires Fetch(s.bids, s.asks, id).order.volume - b1 != 0
    requires Fetch(s.bids, s.asks, id).order.volume - b1 - b2 == 0
    ensures UpdateOrderStep(UpdateOrderStep(s, TradeUpdate(id, b1, c1)).state, TradeUpdate(id, b2, c2))
         == UpdateOrderStep(s, TradeUpdate(id, b1 + b2, c))
  {
    var f := Fetch(s.bids, s.asks, id);
    var o, i, side := f.order, f.index, f.side;
    var v := o.volume - b1;
    var s1 := WithSide(s, side, SetVolume(SideOf(s, side), i, v));
    var t1, t2, t12 := TradeUpdate(id, b1, c1), TradeUpdate(id, b2, c2), TradeUpdate(id, b1 + b2, c);
    assert UpdateOrderStep(s, t1).state == s1 by {
      UpdateLeaves(s, t1, o, i, side);
    }
    assert Fetch(s1.bids, s1.asks, id) == Found(o.(volume := v), i, side) && s1.loaded && ChannelsComplete(s1.channels) by {
      FetchAfterSetVolume(s, id, v);
    }
    assert UpdateOrderStep(s1, t2) == Step(RemoveOrderStep(s1, id).state, Returned(true)) by {
      UpdateOrderFill(s1, t2);
    }
    assert UpdateOrderStep(s, t12) == Step(RemoveOrderStep(s, id).state, Returned(true)) by {
      UpdateOrderFill(s, t12);
    }
    assert RemoveOrderStep(s1, id).state == RemoveOrderStep(s, id).state by {
      SecondUpdateFills(s, id, v);
    }
  }

  /** `UpdatesAccumulate` when some volume is still left. */
  lemma AccumulateLeaves(s: State, id: string, b1: int, b2: int, c1: int, c2: int, c: int)
    requires ChannelsComplete(s.channels) && s.loaded
    requires Fetch(s.bids, s.asks, id).Found?
    requires Fetch(s.bids, s.asks, id).order.volume - b1 != 0
    requires Fetch(s.bids, s.asks, id).order.volume - b1 - b2 != 0
    ensures UpdateOrderStep(UpdateOrderStep(s, TradeUpdate(id, b1, c1)).state, TradeUpdate(id, b2, c2))
         == UpdateOrderStep(s, TradeUpdate(id, b1 + b2, c))
  {
    var f := Fetch(s.bids, s.asks, id);
    var o, i, side := f.order, f.index, f.side;
    var v := o.volume - b1;
    var s1 := WithSide(s, side, SetVolume(SideOf(s, side), i, v));
    var t1, t2, t12 := TradeUpdate(id, b1, c1), TradeUpdate(id, b2, c2), TradeUpdate(id, b1 + b2, c);
    assert UpdateOrderStep(s, t1).state == s1 by {
      UpdateLeaves(s, t1, o, i, side);
    }
    assert Fetch(s1.bids, s1.asks, id) == Found(o.(volume := v), i, side) && s1.loaded && ChannelsComplete(s1.channels) by {
      FetchAfterSetVolume(s, id, v);
    }
    var w := SetVolume(SideOf(s, side), i, v - b2);
    assert UpdateOrderStep(s1, t2) == Step(WithSide(s, side, w), Returned(true)) by {
      UpdateLeaves(s1, t2, o.(volume := v), i, side);
      SecondUpdateLeaves(s, id, v, v - b2);
    }
    assert UpdateOrderStep(s, t12) == Step(WithSide(s, side, w), Returned(true)) by {
      UpdateLeaves(s, t12, o, i, side);
    }
  }

  /** `UpdateOrderStep` when the trade leaves part of the order. */
  lemma UpdateLeaves(s: State, t: TradeUpdate, o: Order, i: nat, side: Side)
    requires ChannelsComplete(s.channels) && s.loaded
    requires Fetch(s.bids, s.asks, t.orderId) == Found(o, i, side) && o.volume - t.base != 0
    ensures UpdateOrderStep(s, t) == Step(WithSide(s, side, SetVolume(SideOf(s, side), i, o.volume - t.base)), Returned(true))
  {
  }

  /** The second update of `UpdatesAccumulate` empties the order: it is
      removed just as the combined update removes it. */
  lemma SecondUpdateFills(s: State, id: string, v: int)
    requires ChannelsComplete(s.channels) && s.loaded
    requires Fetch(s.bids, s.asks, id).Found?
    ensures var f := Fetch(s.bids, s.asks, id);
      var s1 := WithSide(s, f.side, SetVolume(SideOf(s, f.side), f.index, v));
      RemoveOrderStep(s1, id).state == RemoveOrderStep(s, id).state
  {
    var f := Fetch(s.bids, s.asks, id);
    var xs := SideOf(s, f.side);
    var s1 := WithSide(s, f.side, SetVolume(xs, f.index, v));
    FetchAfterSetVolume(s, id, v);
    RemoveAfterSetVolume(xs, f.index, v);
    WithSideTwice(s, f.side, SetVolume(xs, f.index, v), RemoveAt(xs, f.index));
  }

  /** The second update of `UpdatesAccumulate` leaves volume `w`: the entry
      ends as the combined update leaves it. */
  lemma SecondUpdateLeaves(s: State, id: string, v: int, w: int)
    requires Fetch(s.bids, s.asks, id).Found?
    ensures var f := Fetch(s.bids, s.asks, id);
      var s1 := WithSide(s, f.side, SetVolume(SideOf(s, f.side), f.index, v));
      WithSide(s1, f.side, SetVolume(SideOf(s1, f.side), f.index, w))
        == WithSide(s, f.side, SetVolume(SideOf(s, f.side), f.index, w))
  {
    var f := Fetch(s.bids, s.asks, id);
    var xs := SideOf(s, f.side);
    SetVolumeTwice(xs, f.index, v, w);
    WithSideTwice(s, f.side, SetVolume(xs, f.index, v), SetVolume(xs, f.index, w));
  }

  /** Writing a side twice keeps the second write. */
  lemma WithSideTwice(s: State, side: Side, xs: seq<Order>, ys: seq<Order>)
    ensures WithSide(WithSide(s, side, xs), side, ys) == WithSide(s, side, ys)
  {
  }

  /** Changing the volume of the entry `Fetch` found leaves `Fetch` finding
      the same place. */
  lemma FetchAfterSetVolume(s: State, id: string, v: int)
    requires Fetch(s.bids, s.asks, id).Found?
    ensures var f := Fetch(s.bids, s.asks, id);
      var s1 := WithSide(s, f.side, SetVolume(SideOf(s, f.side), f.index, v));
      Fetch(s1.bids, s1.asks, id) == Found(f.order.(volume := v), f.index, f.side)
  {
    var f := Fetch(s.bids, s.asks, id);
    var s1 := WithSide(s, f.side, SetVolume(SideOf(s, f.side), f.index, v));
    FirstWithIdSameIds(s.bids, s1.bids, id);
    FirstWithIdSameIds(s.asks, s1.asks, id);
  }

  // ---------------------------------------------------------------------
  // Recording trades

  /** A trade on a loaded book with a non-zero base always adds exactly one
      record in front of the history, whether its order was found or not.
      The record carries the order id, the base as volume, the counter, the
      batch timestamp, the price counter / base and the hash of its values;
      it becomes the latest trade and its price the ticker. The book is what
      the order update left. */
  lemma AddTradeRecords(h: Hasher, s: State, t: TradeUpdate, timestamp: int)
    requires ChannelsComplete(s.channels) && s.loaded && t.base != 0
    ensures var r := AddTradeStep(h, s, t, timestamp);
      var hist := r.state.history;
      r.outcome == Returned(true) &&
      |hist| == |s.history| + 1 && hist[1..] == s.history &&
      hist[0].id == t.orderId && hist[0].volume == t.base && hist[0].counter == t.counter &&
      hist[0].timestamp == timestamp && hist[0].price * (t.base as real) == t.counter as real &&
      hist[0].hash == HashValues(h, FieldValues(hist[0])) &&
      r.state.lastTrade == Some(hist[0]) && r.state.ticker == Some(hist[0].price)
  {
    var rec := MakeRecord(h, t.orderId, t.base, t.counter, timestamp);
    var u := UpdateOrderStep(s, t).state;
    var r := AddTradeStep(h, s, t, timestamp);
    assert r == Step(Publish(Record(u, rec), "trade"), Returned(true)) by {
      AddTradeUnfolds(h, s, t, timestamp);
    }
    assert r.state.history == [rec] + s.history && r.state.lastTrade == Some(rec) && r.state.ticker == Some(rec.price);
    assert r.state.history[1..] == s.history;
    assert rec.hash == HashValues(h, FieldValues(rec));
  }

  /** `AddTradeStep` on a loaded book and a non-zero base, unfolded. */
  lemma AddTradeUnfolds(h: Hasher, s: State, t: TradeUpdate, timestamp: int)
    requires ChannelsComplete(s.channels) && s.loaded && t.base != 0
    ensures AddTradeStep(h, s, t, timestamp)
         == Step(Publish(Record(UpdateOrderStep(s, t).state, MakeRecord(h, t.orderId, t.base, t.counter, timestamp)), "trade"), Returned(true))
  {
  }

  /** Recording a trade leaves the book as the order update left it and
      appends the trade category's publications. */
  lemma AddTradePublishes(h: Hasher, s: State, t: TradeUpdate, timestamp: int)
    requires ChannelsComplete(s.channels) && s.loaded && t.base != 0
    ensures var u := UpdateOrderStep(s, t).state;
      var r := AddTradeStep(h, s, t, timestamp);
      r.state.bids == u.bids && r.state.asks == u.asks &&
      r.state.outbox == u.outbox + Publications(r.state.(outbox := u.outbox), "trade")
  {
    var u := UpdateOrderStep(s, t).state;
    var p := Record(u, MakeRecord(h, t.orderId, t.base, t.counter, timestamp));
    assert AddTradeStep(h, s, t, timestamp) == Step(Publish(p, "trade"), Returned(true)) by {
      AddTradeUnfolds(h, s, t, timestamp);
    }
    assert Publish(p, "trade").(outbox := p.outbox) == p;
  }

  /** A trade on an id in neither side leaves the book alone but is still
      recorded. */
  lemma AddTradeOnUnknownOrder(h: Hasher, s: State, t: TradeUpdate, timestamp: int)
    requires ChannelsComplete(s.channels) && s.loaded && t.base != 0
    requires Fetch(s.bids, s.asks, t.orderId).NotFound?
    ensures var r := AddTradeStep(h, s, t, timestamp);
      r.outcome == Returned(true) &&
      r.state.bids == s.bids && r.state.asks == s.asks &&
      |r.state.history| == |s.history| + 1 && r.state.history[0].id == t.orderId
  {
  }

  /** A zero base raises after the order update took effect, and records
      nothing. */
  lemma AddTradeZeroBase(h: Hasher, s: State, t: TradeUpdate, timestamp: int)
    requires ChannelsComplete(s.channels) && s.loaded && t.base == 0
    ensures var r := AddTradeStep(h, s, t, timestamp);
      r.outcome == Raised(ZeroBase(t.orderId)) &&
      r.state == UpdateOrderStep(s, t).state &&
      r.state.history == s.history
  {
  }

  /** With every trade flag on, a recorded trade prints the rounded price,
      the new record and the whole history, in that order. */
  lemma TradePublishesInOrder(h: Hasher, s: State, t: TradeUpdate, timestamp: int)
    requires ChannelsComplete(s.channels) && s.loaded && t.base != 0
    requires s.channels["ticker"] && s.channels["trades"] && s.channels["trade_history"]
    ensures var u := UpdateOrderStep(s, t).state;
      var r := AddTradeStep(h, s, t, timestamp).state;
      r.outbox == u.outbox + [
        TickerPayload(RoundHalfEven(r.history[0].price)),
        TradePayload(r.history[0]),
        HistoryPayload(r.history)]
  {
  }

  // ---------------------------------------------------------------------
  // The dispatcher

  /** A frame whose only action is one trade acts exactly as `_add_trade`. */
  lemma SingleTrade(h: Hasher, s: State, t: TradeUpdate, timestamp: int)
    requires ChannelsComplete(s.channels)
    ensures ManagerStep(h, s, Message(None, Some(Delta(None, None, [t], timestamp))))
         == AddTradeStep(h, s, t, timestamp)
  {
    assert [t][..0] == [];
    assert ApplyTrades(h, s, [], timestamp) == Step(s, Returned(true));
    assert ApplyTrades(h, s, [t], timestamp) == AddTradeStep(h, s, t, timestamp);
  }

  /** A frame without "asks" or "create_update", or whose three delta values
      are all empty, changes nothing and reaches no handler. */
  lemma ManagerIgnoresEmpty(h: Hasher, s: State, m: Message)
    requires ChannelsComplete(s.channels) && m.snapshot.None?
    requires m.delta.Some? ==>
      m.delta.value.create.None? && m.delta.value.delete.None? && m.delta.value.trades == []
    ensures ManagerStep(h, s, m) == Step(s, Returned(false))
  {
  }

  /** A snapshot replaces both sides wholesale, whatever else the frame
      holds; it publishes nothing and leaves the trade state alone. */
  lemma SnapshotWins(h: Hasher, s: State, book: Snapshot, d: Option<Delta>)
    requires ChannelsComplete(s.channels)
    ensures var r := ManagerStep(h, s, Message(Some(book), d));
      r.outcome == Returned(true) &&
      r.state.bids == book.bids && r.state.asks == book.asks && r.state.loaded &&
      r.state.outbox == s.outbox && r.state.history == s.history &&
      r.state.lastTrade == s.lastTrade && r.state.ticker == s.ticker &&
      (forall id :: HasId(book.bids, id) ==> Fetch(r.state.bids, r.state.asks, id).side == Bids)
  {
  }

  /** A create makes the frame's delete and trades irrelevant. */
  lemma CreateWins(h: Hasher, s: State, c: CreateUpdate, d1: Delta, d2: Delta)
    requires ChannelsComplete(s.channels)
    requires d1.create == Some(c) && d2.create == Some(c)
    ensures ManagerStep(h, s, Message(None, Some(d1))) == ManagerStep(h, s, Message(None, Some(d2)))
  {
  }

  /** Without a create, a delete makes the frame's trades irrelevant. */
  lemma DeleteBeforeTrades(h: Hasher, s: State, id: string, d1: Delta, d2: Delta)
    requires ChannelsComplete(s.channels)
    requires d1.create.None? && d2.create.None? && d1.delete == Some(id) && d2.delete == Some(id)
    ensures ManagerStep(h, s, Message(None, Some(d1))) == ManagerStep(h, s, Message(None, Some(d2)))
  {
  }

  /** Every single-frame step keeps the state invariant. */
  lemma StepsPreserveValid(h: Hasher, s: State, c: CreateUpdate, id: string, t: TradeUpdate, timestamp: int)
    requires Valid(s)
    ensures Valid(AddOrderStep(s, c).state)
    ensures Valid(RemoveOrderStep(s, id).state)
    ensures Valid(UpdateOrderStep(s, t).state)
    ensures Valid(AddTradeStep(h, s, t, timestamp).state)
  {
  }

  lemma {:induction false} ApplyTradesPreservesValid(h: Hasher, s: State, trades: seq<TradeUpdate>, timestamp: int)
    requires Valid(s)
    ensures Valid(ApplyTrades(h, s, trades, timestamp).state)
    decreases |trades|
  {
    if trades != [] {
      var last := |trades| - 1;
      var before := ApplyTrades(h, s, trades[..last], timestamp);
      ApplyTradesPreservesValid(h, s, trades[..last], timestamp);
      StepsPreserveValid(h, before.state, CreateUpdate("", 0, 0, ""), "", trades[last], timestamp);
    }
  }

  /** Whatever frame arrives, the invariant survives it. */
  lemma ManagerPreservesValid(h: Hasher, s: State, m: Message)
    requires Valid(s)
    ensures Valid(ManagerStep(h, s, m).state)
  {
    match m.snapshot
    case Some(_) =>
    case None =>
      match m.delta
      case None =>
      case Some(d) =>
        var dummy := CreateUpdate("", 0, 0, "");
        if d.create.Some? {
          StepsPreserveValid(h, s, d.create.value, "", TradeUpdate("", 0, 0), 0);
        } else if d.delete.Some? {
          StepsPreserveValid(h, s, dummy, d.delete.value, TradeUpdate("", 0, 0), 0);
        } else {
          ApplyTradesPreservesValid(h, s, d.trades, d.timestamp);
        }
  }

  // ---------------------------------------------------------------------
  // The asks side stays in ascending price order

  /** The asks are in ascending price order and hold each id once. */
  predicate AsksInOrder(s: State)
  {
    Ascending(s.asks) && UniqueIds(s.asks)
  }

  /** An ASK whose id is new to the asks side keeps it in order. */
  lemma AddOrderKeepsAsksInOrder(s: State, c: CreateUpdate)
    requires ChannelsComplete(s.channels) && AsksInOrder(s)
    requires c.kind == "ASK" ==> !HasId(s.asks, c.orderId)
    ensures AsksInOrder(AddOrderStep(s, c).state)
  {
    if c.kind == "ASK" && s.loaded {
      var o := Order(c.orderId, c.price, c.volume);
      InsertKeepsAscending(s.asks, o);
      InsertKeepsUniqueIds(s.asks, o);
    }
  }

  lemma RemoveOrderKeepsAsksInOrder(s: State, id: string)
    requires ChannelsComplete(s.channels) && AsksInOrder(s)
    ensures AsksInOrder(RemoveOrderStep(s, id).state)
  {
    if s.loaded && Fetch(s.bids, s.asks, id).Found? {
      var f := Fetch(s.bids, s.asks, id);
      if f.side == Asks {
        RemoveKeepsAscending(s.asks, f.index);
        RemoveKeepsUniqueIds(s.asks, f.index);
      }
    }
  }

  lemma AddTradeKeepsAsksInOrder(h: Hasher, s: State, t: TradeUpdate, timestamp: int)
    requires ChannelsComplete(s.channels) && AsksInOrder(s)
    ensures AsksInOrder(UpdateOrderStep(s, t).state)
    ensures AsksInOrder(AddTradeStep(h, s, t, timestamp).state)
  {
    if s.loaded && Fetch(s.bids, s.asks, t.orderId).Found? {
      var f := Fetch(s.bids, s.asks, t.orderId);
      if f.order.volume - t.base == 0 {
        RemoveOrderKeepsAsksInOrder(s, t.orderId);
      } else if f.side == Asks {
        SetVolumeKeepsShape(s.asks, f.index, f.order.volume - t.base);
      }
    }
  }

  lemma {:induction false} ApplyTradesKeepsAsksInOrder(h: Hasher, s: State, trades: seq<TradeUpdate>, timestamp: int)
    requires ChannelsComplete(s.channels) && AsksInOrder(s)
    ensures AsksInOrder(ApplyTrades(h, s, trades, timestamp).state)
    decreases |trades|
  {
    if trades != [] {
      var last := |trades| - 1;
      ApplyTradesKeepsAsksInOrder(h, s, trades[..last], timestamp);
      AddTradeKeepsAsksInOrder(h, ApplyTrades(h, s, trades[..last], timestamp).state, trades[last], timestamp);
    }
  }

  /** Starting from asks in order, a snapshot whose asks are in order, and
      new ASKs with new ids, the asks side stays in ascending price order
      with unique ids, whatever else arrives. */
  lemma ManagerKeepsAsksInOrder(h: Hasher, s: State, m: Message)
    requires ChannelsComplete(s.channels) && AsksInOrder(s)
    requires m.snapshot.Some? ==> Ascending(m.snapshot.value.asks) && UniqueIds(m.snapshot.value.asks)
    requires m.snapshot.None? && m.delta.Some? && m.delta.value.create.Some? ==>
      var c := m.delta.value.create.value;
      c.kind == "ASK" ==> !HasId(s.asks, c.orderId)
    ensures AsksInOrder(ManagerStep(h, s, m).state)
  {
    if m.snapshot.None? && m.delta.Some? {
      var d := m.delta.value;
      if d.create.Some? {
        AddOrderKeepsAsksInOrder(s, d.create.value);
      } else if d.delete.Some? {
        RemoveOrderKeepsAsksInOrder(s, d.delete.value);
      } else {
        ApplyTradesKeepsAsksInOrder(h, s, d.trades, d.timestamp);
      }
    }
  }

  // ---------------------------------------------------------------------
  // A session

  // A snapshot with one bid and one ask, a lower BID, then a trade that
  // fills the first bid, with every flag on.

  /** Every channel flag is configured and on. */
  predicate AllOn(ch: map<string, bool>)
  {
    ChannelsComplete(ch) && ch["ticker"] && ch["trades"] && ch["trade_history"] && ch["order_book"]
  }

  const BidA := Order("a", 100_000000, 2_000000)
  const AskB := Order("b", 101_000000, 1_000000)
  const BidC := Order("c", 99_000000, 1_000000)

  /** The snapshot loads the book and prints nothing. */
  lemma SessionSnapshot(h: Hasher, ch: map<string, bool>)
    requires AllOn(ch)
    ensures ManagerStep(h, Initial(ch), Message(Some(Snapshot([BidA], [AskB])), None))
         == Step(State([BidA], [AskB], true, [], None, None, ch, []), Returned(true))
  {
  }

  /** The lower BID is placed in FRONT of the higher one: bids are not kept
      descending. The new book is printed. */
  lemma SessionLowerBid(h: Hasher, ch: map<string, bool>)
    requires AllOn(ch)
    ensures var s := State([BidA], [AskB], true, [], None, None, ch, []);
      var m := Message(None, Some(Delta(Some(CreateUpdate("c", 99_000000, 1_000000, "BID")), None, [], 0)));
      ManagerStep(h, s, m)
        == Step(State([BidC, BidA], [AskB], true, [], None, None, ch, [BookPayload([BidC, BidA], [AskB])]), Returned(true))
  {
    assert InsertionPoint([BidA], 99_000000) == 0;
    assert Insert([BidA], BidC) == [BidC, BidA];
  }

  /** The trade's order update finds "a" second among the bids and, its
      volume exhausted, removes it and prints the book. */
  lemma SessionFillRemoves(ch: map<string, bool>)
    requires AllOn(ch)
    ensures var s := FillBefore(ch);
      UpdateOrderStep(s, TradeUpdate("a", 2_000000, 200_000000))
        == Step(s.(bids := [BidC], outbox := [BookPayload([BidC], [AskB])]), Returned(true))
  {
    assert FirstWithId([BidC, BidA], "a") == Some(1);
    assert Fetch([BidC, BidA], [AskB], "a") == Found(BidA, 1, Bids);
    assert RemoveAt([BidC, BidA], 1) == [BidC];
  }

  /** The book after the lower BID, before the fill. */
  function FillBefore(ch: map<string, bool>): State
  {
    State([BidC, BidA], [AskB], true, [], None, None, ch, [])
  }

  /** A frame holding one trade, for all of "a". */
  function FillFrame(): Message
  {
    Message(None, Some(Delta(None, None, [TradeUpdate("a", 2_000000, 200_000000)], 7)))
  }

  /** A trade for all of "a" removes it and records one trade at price
      counter / base = 100; the book, then the ticker, the trade and the
      history are printed. */
  lemma SessionFill(h: Hasher, ch: map<string, bool>)
    requires AllOn(ch)
    ensures var r := ManagerStep(h, FillBefore(ch), FillFrame());
      r.outcome == Returned(true) && r.state.bids == [BidC] && r.state.asks == [AskB]
    ensures var r := ManagerStep(h, FillBefore(ch), FillFrame());
      |r.state.history| == 1 && r.state.history[0].id == "a" && r.state.history[0].price == 100.0 &&
      r.state.ticker == Some(100.0)
    ensures var r := ManagerStep(h, FillBefore(ch), FillFrame());
      r.state.outbox == [BookPayload([BidC], [AskB])] +
        [TickerPayload(100), TradePayload(r.state.history[0]), HistoryPayload(r.state.history)]
  {
    var s := FillBefore(ch);
    var t := TradeUpdate("a", 2_000000, 200_000000);
    SessionFillRemoves(ch);
    AddTradeRecords(h, s, t, 7);
    AddTradePublishes(h, s, t, 7);
    TradePublishesInOrder(h, s, t, 7);
    SingleTrade(h, s, t, 7);
    var r := AddTradeStep(h, s, t, 7).state;
    assert UpdateOrderStep(s, t).state.outbox == [BookPayload([BidC], [AskB])];
    assert r.history[0].price == 100.0;
    assert RoundHalfEven(100.0) == 100;
    assert r.outbox == [BookPayload([BidC], [AskB])] + [TickerPayload(100), TradePayload(r.history[0]), HistoryPayload(r.history)];
    assert ManagerStep(h, s, FillFrame()).state == r;
  }
}
