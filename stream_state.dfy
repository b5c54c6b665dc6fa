/** The stream's state as a value, and the publication policy: which
    payloads are emitted after a change of a given category. */
module StreamState {
  import opened Prelude
  import opened OrderBook
  import opened Trades

  /** What `print` would have written, one payload per line. */
  datatype Payload =
    | TickerPayload(rounded: int)
    | TradePayload(trade: TradeRecord)
    | HistoryPayload(history: seq<TradeRecord>)
    | BookPayload(bids: seq<Order>, asks: seq<Order>)

  /** Everything the stream object holds. `loaded` is false while `bids`,
      `asks` and `_order_book` are still `None`; the published book aliases
      the two lists, so it is always the current `bids` and `asks`. */
  datatype State = State(
    bids: seq<Order>,
    asks: seq<Order>,
    loaded: bool,
    history: seq<TradeRecord>,        // newest first
    lastTrade: Option<TradeRecord>,   // `_trades`
    ticker: Option<real>,             // `_ticker`
    channels: map<string, bool>,
    outbox: seq<Payload>)

  /** The four flags the publication policy reads are all configured. */
  predicate ChannelsComplete(c: map<string, bool>)
  {
    "ticker" in c && "trades" in c && "trade_history" in c && "order_book" in c
  }

  /** The invariant every operation keeps: the latest trade, the ticker and
      the head of the history agree, and there is no book before a snapshot. */
  predicate Valid(s: State)
  {
    ChannelsComplete(s.channels) &&
    (!s.loaded ==> s.bids == [] && s.asks == []) &&
    (s.history == [] <==> s.lastTrade.None?) &&
    (s.history != [] ==> s.lastTrade == Some(s.history[0]) && s.ticker == Some(s.history[0].price)) &&
    (s.history == [] ==> s.ticker.None?)
  }

  /** A freshly constructed stream with the configured channel flags. */
  function Initial(channels: map<string, bool>): (s: State)
    requires ChannelsComplete(channels)
    ensures Valid(s) && !s.loaded && s.history == [] && s.outbox == []
    ensures s.channels == channels && s.lastTrade == None && s.ticker == None
  {
    State([], [], false, [], None, None, channels, [])
  }

  /** Python's `round(x, 0)`: nearest integer, ties to the even one. */
  function RoundHalfEven(x: real): (n: int)
    ensures (n as real) - x <= 0.5 && x - (n as real) <= 0.5
    ensures ((n as real) - x == 0.5 || x - (n as real) == 0.5) ==> n % 2 == 0
  {
    var f := x.Floor;
    var d := x - (f as real);
    if d < 0.5 then f
    else if d > 0.5 then f + 1
    else if f % 2 == 0 then f
    else f + 1
  }

  /** Nearest with ties to even determines the integer: any `n` within one
      half of `x`, and even at a tie, is the rounding of `x`. */
  lemma RoundHalfEvenUnique(x: real, n: int)
    requires (n as real) - x <= 0.5 && x - (n as real) <= 0.5
    requires ((n as real) - x == 0.5 || x - (n as real) == 0.5) ==> n % 2 == 0
    ensures n == RoundHalfEven(x)
  {
    var m := RoundHalfEven(x);
    assert -1 <= n - m <= 1;
  }

  /** Emission order of the payload kinds. */
  function Rank(p: Payload): nat
  {
    match p
    case TickerPayload(_) => 0
    case TradePayload(_) => 1
    case HistoryPayload(_) => 2
    case BookPayload(_, _) => 3
  }

  predicate Has(ps: seq<Payload>, rank: nat)
  {
    exists i :: 0 <= i < |ps| && Rank(ps[i]) == rank
  }

  /** A payload shows the current state. */
  predicate Shows(s: State, p: Payload)
  {
    match p
    case TickerPayload(n) => s.history != [] && n == RoundHalfEven(s.history[0].price)
    case TradePayload(t) => s.lastTrade == Some(t)
    case HistoryPayload(h) => h == s.history
    case BookPayload(b, a) => b == s.bids && a == s.asks
  }

  /** The payloads `_handle_subscriptions(category)` prints. For "trade":
      the rounded latest price, the latest trade, the whole history, each
      only when its flag is on and there is something to show; for any other
      category the book, when its flag is on and a snapshot has arrived. */
  function Publications(s: State, category: string): seq<Payload>
    requires ChannelsComplete(s.channels)
  {
    if category == "trade" then
      (if s.channels["ticker"] && s.history != []
        then [TickerPayload(RoundHalfEven(s.history[0].price))] else []) +
      (if s.channels["trades"] && s.lastTrade.Some?
        then [TradePayload(s.lastTrade.value)] else []) +
      (if s.channels["trade_history"] && s.history != []
        then [HistoryPayload(s.history)] else [])
    else if s.channels["order_book"] && s.loaded then
      [BookPayload(s.bids, s.asks)]
    else
      []
  }

  /** The policy: payloads come in ticker, trade, history, book order, each
      shows the current state, and each kind is printed exactly when its
      category, its flag and something to show are all there. */
  lemma PublicationsPolicy(s: State, category: string)
    requires ChannelsComplete(s.channels)
    ensures var r := Publications(s, category);
      (forall i, j :: 0 <= i < j < |r| ==> Rank(r[i]) < Rank(r[j])) &&
      (forall i :: 0 <= i < |r| ==> Shows(s, r[i])) &&
      (Has(r, 0) <==> category == "trade" && s.channels["ticker"] && s.history != []) &&
      (Has(r, 1) <==> category == "trade" && s.channels["trades"] && s.lastTrade.Some?) &&
      (Has(r, 2) <==> category == "trade" && s.channels["trade_history"] && s.history != []) &&
      (Has(r, 3) <==> category != "trade" && s.channels["order_book"] && s.loaded)
  {
    var r := Publications(s, category);
    if category == "trade" {
      var ticker := if s.channels["ticker"] && s.history != []
        then [TickerPayload(RoundHalfEven(s.history[0].price))] else [];
      var trade := if s.channels["trades"] && s.lastTrade.Some?
        then [TradePayload(s.lastTrade.value)] else [];
      var history := if s.channels["trade_history"] && s.history != []
        then [HistoryPayload(s.history)] else [];
      assert r == ticker + trade + history;
      assert forall i :: 0 <= i < |r| ==> Rank(r[i]) <= 2;
      assert Has(r, 0) ==> ticker != [];
      assert Has(r, 1) ==> trade != [];
      assert Has(r, 2) ==> history != [];
      assert ticker != [] ==> r[0] == ticker[0];
      assert trade != [] ==> r[|ticker|] == trade[0];
      assert history != [] ==> r[|r| - 1] == history[0];
    } else if s.channels["order_book"] && s.loaded {
      assert Rank(r[0]) == 3;
    }
  }

  /** The state after publishing: only the outbox grows. */
  function Publish(s: State, category: string): (r: State)
    requires ChannelsComplete(s.channels)
    ensures r.outbox == s.outbox + Publications(s, category)
    ensures r.(outbox := s.outbox) == s
  {
    s.(outbox := s.outbox + Publications(s, category))
  }
}
