/** The stream's operations as functions from a state to the next state and
    an outcome: the book mutators, the trade recorder and the message
    dispatcher (`manager`). An operation that raises in the source yields
    `Raised`, with the state as far as the source had changed it. */
module Dispatch {
  import opened Prelude
  import opened OrderBook
  import opened Trades
  import opened StreamState

  /** `create_update`: an order to add. `kind` is the raw "type" field. */
  datatype CreateUpdate = CreateUpdate(orderId: string, price: int, volume: int, kind: string)

  /** One entry of `trade_updates`: `base` is the traded volume and
      `counter` the traded value, both in millionths. */
  datatype TradeUpdate = TradeUpdate(orderId: string, base: int, counter: int)

  /** The three delta keys of a frame; `None` and `[]` stand for a null or
      empty value. */
  datatype Delta = Delta(
    create: Option<CreateUpdate>,
    delete: Option<string>,
    trades: seq<TradeUpdate>,
    timestamp: int)

  datatype Snapshot = Snapshot(bids: seq<Order>, asks: seq<Order>)

  /** A decoded frame: `snapshot` is present when it has an "asks" key,
      `delta` when it has a "create_update" key. An empty frame has neither. */
  datatype Message = Message(snapshot: Option<Snapshot>, delta: Option<Delta>)

  /** Why an operation raised. */
  datatype Error =
    | NoSnapshot               // a side is still `None`: iterating it raises TypeError
    | UnknownOrder(id: string) // removal of an id in neither side: the built expression is malformed
    | ZeroBase(id: string)     // counter / base with base zero: ZeroDivisionError

  /** What a call did: returned a value, or raised. */
  datatype Outcome = Returned(value: bool) | Raised(error: Error)

  datatype Step = Step(state: State, outcome: Outcome)

  function SideOf(s: State, side: Side): seq<Order>
  {
    match side
    case Bids => s.bids
    case Asks => s.asks
  }

  /** The state with one side replaced, the string-built `self.<side>`. */
  function WithSide(s: State, side: Side, xs: seq<Order>): (r: State)
    ensures SideOf(r, side) == xs
    ensures r.(bids := s.bids, asks := s.asks) == s
    ensures side == Bids ==> r.asks == s.asks
    ensures side == Asks ==> r.bids == s.bids
  {
    match side
    case Bids => s.(bids := xs)
    case Asks => s.(asks := xs)
  }

  function Opposite(side: Side): Side
  {
    match side
    case Bids => Asks
    case Asks => Bids
  }

  /** The "type" value that selects a side. */
  function KindOf(side: Side): string
  {
    match side
    case Bids => "BID"
    case Asks => "ASK"
  }

  /** `_add_order`: a BID or ASK is inserted on its side by price position;
      any other type changes nothing. The book category is published either
      way. */
  function AddOrderStep(s: State, c: CreateUpdate): (r: Step)
    requires ChannelsComplete(s.channels)
    ensures r.outcome == if !s.loaded && (c.kind == "BID" || c.kind == "ASK")
      then Raised(NoSnapshot) else Returned(true)
    ensures r.outcome.Raised? ==> r.state == s
    ensures r.state.(bids := s.bids, asks := s.asks, outbox := s.outbox) == s
  {
    var order := Order(c.orderId, c.price, c.volume);
    if c.kind == "BID" || c.kind == "ASK" then
      var side := if c.kind == "BID" then Bids else Asks;
      if !s.loaded then Step(s, Raised(NoSnapshot))
      else Step(Publish(WithSide(s, side, Insert(SideOf(s, side), order)), "order_book"), Returned(true))
    else
      Step(Publish(s, "order_book"), Returned(true))
  }

  /** `_remove_order`: pops the entry `Fetch` finds and publishes the book.
      An id in neither side raises and changes nothing. */
  function RemoveOrderStep(s: State, id: string): (r: Step)
    requires ChannelsComplete(s.channels)
    ensures r.outcome == if !s.loaded then Raised(NoSnapshot)
      else if Fetch(s.bids, s.asks, id).NotFound? then Raised(UnknownOrder(id))
      else Returned(true)
    ensures r.outcome.Raised? ==> r.state == s
    ensures r.state.(bids := s.bids, asks := s.asks, outbox := s.outbox) == s
  {
    if !s.loaded then Step(s, Raised(NoSnapshot))
    else match Fetch(s.bids, s.asks, id)
      case NotFound => Step(s, Raised(UnknownOrder(id)))
      case Found(_, i, side) =>
        Step(Publish(WithSide(s, side, RemoveAt(SideOf(s, side), i)), "order_book"), Returned(true))
  }

  /** `_update_order`: subtracts the traded volume from the order; an exact
      zero removes it (through `_remove_order`), anything else is written
      back in place. Returns false for an unknown id. */
  function UpdateOrderStep(s: State, t: TradeUpdate): (r: Step)
    requires ChannelsComplete(s.channels)
    ensures r.outcome == if !s.loaded then Raised(NoSnapshot)
      else Returned(Fetch(s.bids, s.asks, t.orderId).Found?)
    ensures r.outcome != Returned(true) ==> r.state == s
    ensures r.state.(bids := s.bids, asks := s.asks, outbox := s.outbox) == s
  {
    if !s.loaded then Step(s, Raised(NoSnapshot))
    else match Fetch(s.bids, s.asks, t.orderId)
      case NotFound => Step(s, Returned(false))
      case Found(order, i, side) =>
        var remaining := order.volume - t.base;
        if remaining == 0 then
          var removed := RemoveOrderStep(s, t.orderId);
          if removed.outcome.Raised? then removed else Step(removed.state, Returned(true))
        else
          Step(WithSide(s, side, SetVolume(SideOf(s, side), i, remaining)), Returned(true))
  }

  /** The state after recording a trade: the record goes to the front of the
      history and becomes the latest trade and the ticker source. */
  function Record(s: State, rec: TradeRecord): (r: State)
    ensures r.history == [rec] + s.history && r.lastTrade == Some(rec) && r.ticker == Some(rec.price)
    ensures r.(history := s.history, lastTrade := s.lastTrade, ticker := s.ticker) == s
  {
    s.(history := [rec] + s.history, lastTrade := Some(rec), ticker := Some(rec.price))
  }

  /** `_add_trade`: applies the trade to its order (whose result it ignores),
      then records it and publishes the trade category. A zero base raises
      after the order update has been applied. */
  function AddTradeStep(h: Hasher, s: State, t: TradeUpdate, timestamp: int): (r: Step)
    requires ChannelsComplete(s.channels)
    ensures r.outcome == if !s.loaded then Raised(NoSnapshot)
      else if t.base == 0 then Raised(ZeroBase(t.orderId))
      else Returned(true)
    ensures r.state.channels == s.channels && r.state.loaded == s.loaded
    ensures !s.loaded ==> r.state == s
  {
    var updated := UpdateOrderStep(s, t);
    if updated.outcome.Raised? then updated
    else if t.base == 0 then Step(updated.state, Raised(ZeroBase(t.orderId)))
    else
      var rec := MakeRecord(h, t.orderId, t.base, t.counter, timestamp);
      Step(Publish(Record(updated.state, rec), "trade"), Returned(true))
  }

  /** No trade of the batch divides by zero. */
  predicate NonZeroBases(trades: seq<TradeUpdate>)
  {
    forall k :: 0 <= k < |trades| ==> trades[k].base != 0
  }

  /** The loop over `trade_updates`: each trade in list order, with the
      batch's timestamp, until one raises. */
  function ApplyTrades(h: Hasher, s: State, trades: seq<TradeUpdate>, timestamp: int): (r: Step)
    requires ChannelsComplete(s.channels)
    ensures r.state.channels == s.channels && r.state.loaded == s.loaded
    ensures r.outcome.Returned? ==> r.outcome.value
    ensures r.outcome.Returned? <==> (trades == [] || s.loaded) && NonZeroBases(trades)
    decreases |trades|
  {
    if |trades| == 0 then Step(s, Returned(true))
    else
      var last := |trades| - 1;
      var before := ApplyTrades(h, s, trades[..last], timestamp);
      assert NonZeroBases(trades) <==> NonZeroBases(trades[..last]) && trades[last].base != 0 by {
        assert forall k :: 0 <= k < last ==> trades[..last][k] == trades[k];
      }
      if before.outcome.Raised? then before
      else AddTradeStep(h, before.state, trades[last], timestamp)
  }

  /** `manager` on one decoded frame. A frame with "asks" replaces the book
      and publishes nothing. Otherwise a frame with "create_update" is acted
      on: a create first, else a delete, else a non-empty trade batch.
      Returns whether the frame reached a handler. */
  function ManagerStep(h: Hasher, s: State, m: Message): (r: Step)
    requires ChannelsComplete(s.channels)
    ensures r.state.channels == s.channels
    ensures r.outcome == Returned(false) ==> r.state == s
  {
    match m.snapshot
    case Some(book) => Step(s.(bids := book.bids, asks := book.asks, loaded := true), Returned(true))
    case None =>
      match m.delta
      case None => Step(s, Returned(false))
      case Some(d) =>
        if d.create.Some? then AddOrderStep(s, d.create.value)
        else if d.delete.Some? then RemoveOrderStep(s, d.delete.value)
        else if |d.trades| > 0 then ApplyTrades(h, s, d.trades, d.timestamp)
        else Step(s, Returned(false))
  }
}
