/** The stream object: the mutable mirror of the book and the trade feed,
    updated one decoded frame at a time. Each method changes the fields as
    the source does and is proved to land in the state, and return the
    outcome, that the matching function of `Dispatch` specifies. */
module Streaming {
  import opened Prelude
  import opened OrderBook
  import opened Trades
  import opened StreamState
  import opened Dispatch
  import DispatchLemmas

  class Stream {
    var bids: seq<Order>
    var asks: seq<Order>
    var loaded: bool                    // false while bids/asks are None
    var tradeHistory: seq<TradeRecord>  // newest first
    var trades: Option<TradeRecord>
    var ticker: Option<real>
    var channels: map<string, bool>
    var outbox: seq<Payload>            // what has been printed
    const hasher: Hasher

    /** The fields as a `State` value. */
    function View(): State
      reads this
    {
      State(bids, asks, loaded, tradeHistory, trades, ticker, channels, outbox)
    }

    ghost predicate Valid()
      reads this
    {
      StreamState.Valid(View())
    }

    /** A stream with no book yet, an empty history and the configured
        channel flags. */
    constructor (channels: map<string, bool>, hasher: Hasher)
      requires ChannelsComplete(channels)
      ensures Valid() && View() == Initial(channels) && this.hasher == hasher
    {
      bids, asks, loaded := [], [], false;
      tradeHistory, trades, ticker := [], None, None;
      this.channels := channels;
      outbox := [];
      this.hasher := hasher;
    }

    /** `_handle_subscriptions`: prints what the flags ask for. */
    method HandleSubscriptions(category: string)
      requires ChannelsComplete(channels)
      modifies this
      ensures View() == Publish(old(View()), category)
    {
      ghost var before := View();
      if category == "trade" {
        if channels["ticker"] {
          if tradeHistory != [] {
            outbox := outbox + [TickerPayload(RoundHalfEven(tradeHistory[0].price))];
          }
        }
        if channels["trades"] {
          if trades.Some? {
            outbox := outbox + [TradePayload(trades.value)];
          }
        }
        if channels["trade_history"] {
          if tradeHistory != [] {
            outbox := outbox + [HistoryPayload(tradeHistory)];
          }
        }
      } else if channels["order_book"] {
        if loaded {
          outbox := outbox + [BookPayload(bids, asks)];
        }
      }
      assert outbox == before.outbox + Publications(before, category);
    }

    /** `_add_order`. */
    method AddOrder(c: CreateUpdate) returns (out: Outcome)
      requires Valid()
      modifies this
      ensures Valid()
      ensures Step(View(), out) == AddOrderStep(old(View()), c)
    {
      var order := Order(c.orderId, c.price, c.volume);
      if c.kind == "BID" {
        if !loaded { return Raised(NoSnapshot); }
        var at := InsertionPoint(bids, order.price);
        bids := bids[..at] + [order] + bids[at..];
      } else if c.kind == "ASK" {
        if !loaded { return Raised(NoSnapshot); }
        var at := InsertionPoint(asks, order.price);
        asks := asks[..at] + [order] + asks[at..];
      }
      HandleSubscriptions("order_book");
      out := Returned(true);
    }

    /** `_remove_order`. */
    method RemoveOrder(id: string) returns (out: Outcome)
      requires Valid()
      modifies this
      ensures Valid()
      ensures Step(View(), out) == RemoveOrderStep(old(View()), id)
    {
      if !loaded { return Raised(NoSnapshot); }
      var found := Fetch(bids, asks, id);
      if found.NotFound? { return Raised(UnknownOrder(id)); }
      var index := found.index;
      match found.side {
        case Bids => bids := bids[..index] + bids[index + 1..];
        case Asks => asks := asks[..index] + asks[index + 1..];
      }
      HandleSubscriptions("order_book");
      out := Returned(true);
    }

    /** `_update_order`. */
    method UpdateOrder(t: TradeUpdate) returns (out: Outcome)
      requires Valid()
      modifies this
      ensures Valid()
      ensures Step(View(), out) == UpdateOrderStep(old(View()), t)
    {
      if !loaded { return Raised(NoSnapshot); }
      var found := Fetch(bids, asks, t.orderId);
      if found.NotFound? { return Returned(false); }
      var remaining := found.order.volume - t.base;
      if remaining == 0 {
        var removed := RemoveOrder(t.orderId);
        if removed.Raised? { return removed; }
        return Returned(true);
      }
      var index := found.index;
      match found.side {
        case Bids => bids := bids[index := bids[index].(volume := remaining)];
        case Asks => asks := asks[index := asks[index].(volume := remaining)];
      }
      out := Returned(true);
    }

    /** `_add_trade`. */
    method AddTrade(t: TradeUpdate, timestamp: int) returns (out: Outcome)
      requires Valid()
      modifies this
      ensures Valid()
      ensures Step(View(), out) == AddTradeStep(hasher, old(View()), t, timestamp)
    {
      var updated := UpdateOrder(t);
      if updated.Raised? { return updated; }
      if t.base == 0 { return Raised(ZeroBase(t.orderId)); }
      var record := MakeRecord(hasher, t.orderId, t.base, t.counter, timestamp);
      tradeHistory := [record] + tradeHistory;
      trades := Some(record);
      ticker := Some(record.price);
      HandleSubscriptions("trade");
      out := Returned(true);
    }

    /** The loop of `manager` over `trade_updates`, all with the frame's
        timestamp; a raise ends it. */
    method AddTrades(batch: seq<TradeUpdate>, timestamp: int) returns (out: Outcome)
      requires Valid()
      modifies this
      ensures Valid()
      ensures Step(View(), out) == ApplyTrades(hasher, old(View()), batch, timestamp)
    {
      var i := 0;
      while i < |batch|
        invariant 0 <= i <= |batch|
        invariant Valid()
        invariant ApplyTrades(hasher, old(View()), batch[..i], timestamp) == Step(View(), Returned(true))
      {
        DispatchLemmas.ApplyTradesNext(hasher, old(View()), batch, i, timestamp);
        var r := AddTrade(batch[i], timestamp);
        if r.Raised? {
          DispatchLemmas.ApplyTradesPrefixRaised(hasher, old(View()), batch, i + 1, timestamp);
          return r;
        }
        i := i + 1;
      }
      assert batch[..i] == batch;
      out := Returned(true);
    }

    /** `manager`, given the frame `receive` decoded. */
    method Manager(m: Message) returns (out: Outcome)
      requires Valid()
      modifies this
      ensures Valid()
      ensures Step(View(), out) == ManagerStep(hasher, old(View()), m)
    {
      if m.snapshot.Some? {
        bids := m.snapshot.value.bids;
        asks := m.snapshot.value.asks;
        loaded := true;
        return Returned(true);
      }
      if m.delta.None? { return Returned(false); }
      var d := m.delta.value;
      if d.create.Some? {
        out := AddOrder(d.create.value);
      } else if d.delete.Some? {
        out := RemoveOrder(d.delete.value);
      } else if d.trades != [] {
        out := AddTrades(d.trades, d.timestamp);
      } else {
        out := Returned(false);
      }
    }

    /** `subscribe`: turns a channel's flag on (the worker thread it starts
        is not modelled). */
    method Subscribe(channel: string)
      requires Valid()
      modifies this
      ensures Valid()
      ensures View() == old(View()).(channels := old(channels)[channel := true])
    {
      channels := channels[channel := true];
    }
  }
}
