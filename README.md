# Luno stream order book mirror, in Dafny

The `Stream` class of the Luno client (`luno/classes.py`) mirrors an
exchange's order book and trade feed from websocket frames. Its state is
the `bids` and `asks` lists of `{id, price, volume}` orders, the trade
history (newest first), the latest trade, the ticker price, the
book-payload alias `_order_book` and a map of channel flags. `manager`
takes one decoded frame and does one of four things:

- loads a snapshot;
- adds an order (`_add_order`);
- deletes an order (`_remove_order`);
- applies a batch of trades (`_add_trade`, which goes through
  `_update_order`).

After an add, a delete or a trade, `_handle_subscriptions` prints the
payloads that the channel flags ask for. Loading a snapshot replaces the
book and prints nothing.

This project models that class.

- `prelude.dfy`: `Option`.
- `order_book.dfy`, module `OrderBook`: orders and the list operations
  behind the mutators. These are `fetch_order`'s bids-first lookup, the
  insertion point of `_add_order` (including how `list.index` behaves),
  removal at an index and a volume write. It also holds the ordering
  lemmas.
- `trades.dfy`, module `Trades`: trade records and `__trade_hash`. The
  string forms of the values are sorted with Python's code-point order and
  joined, then digested.
- `stream_state.dfy`, module `StreamState`: the stream's state as a
  value, its invariant and the publication policy of
  `_handle_subscriptions`.
- `dispatch.dfy`, module `Dispatch`: each operation as a function from a
  state to the next state and an outcome. An operation that raises in
  Python yields `Raised(error)` together with the state as far as Python
  had changed it.
- `dispatch_lemmas.dfy`, module `DispatchLemmas`: the properties that
  relate several operations or steps.
- `stream.dfy`, module `Streaming`: class `Stream`. Its fields are the
  source's fields and its methods change them step by step as the source
  does. `AddOrder`, `RemoveOrder`, `UpdateOrder`, `AddTrade`, `AddTrades`
  and `Manager` are each proved to reach exactly the state and outcome
  that their `Dispatch` function specifies, and to keep the invariant.
  `HandleSubscriptions` is proved equal to `StreamState.Publish`, the
  constructor to `StreamState.Initial`, and `Subscribe` sets one flag.

Modelling choices:

- **Numbers.** Prices, volumes, `base` and `counter` are integers counting
  millionths, so the `round(…, 6)` of a volume difference is exact. A
  trade's price is the exact rational `counter / base`. The ticker payload
  is that price rounded half to even, as Python's `round` does.
- **Before a snapshot.** `bids`, `asks` and `_order_book` are `None`. This
  is the `loaded` flag. Any operation that iterates a side before a
  snapshot raises `NoSnapshot` (Python's `TypeError`).
- **The published book.** `_order_book` is built from the very list
  objects that later mutations change in place. So once a snapshot has
  arrived, the book that is printed is always the current `bids` and
  `asks`.
- **Unknown ids on removal.** Deleting an id that is in neither side
  builds `self.False.pop(False)` for `eval`. That is not an `IndexError`,
  so it escapes the handler. The model raises `UnknownOrder` and leaves the
  state untouched. Python's `IndexError` branch cannot be reached, because
  `fetch_order` only reports indices that exist.
- **Zero base.** A trade with `base` zero raises `ZeroBase`
  (`ZeroDivisionError`). By then `_update_order` has already run, so its
  changes stay.
- **The bids side.** Order books usually list bids highest first.
  `_add_order` uses one insertion rule for both sides: the new order goes
  right after the last entry whose price is at or below its own
  (`luno/classes.py:152-159`). That keeps `asks` ascending, but it puts a
  lower bid in front: a BID at 99 added to bids `[a(100)]` gives
  `[c(99), a(100)]`. The model follows the code; see
  `OrderBook.LowerBidGoesFirst` and `DispatchLemmas.SessionLowerBid`.
- **Return values.** `manager` returns nothing. `ManagerStep`'s
  `Returned(b)` says whether the frame reached a handler (`b` is false for
  an empty or action-free frame), and that is all it adds.

## Model

| member | source | states |
|---|---|---|
| OrderBook.FirstWithId | luno/classes.py:285-294 | the index of the first entry with the id, no earlier entry has it, and none exactly when the id is absent |
| OrderBook.Fetch | luno/classes.py:281-300 | an id present in bids is found in bids at its first occurrence whatever asks hold; an asks hit means the id is not in bids and is its first occurrence in asks; not found exactly when neither side has the id |
| OrderBook.LastAtOrBelow | luno/classes.py:155-157 | the last entry at or below the price: it is at or below, every later one is above, and none means every entry is above |
| OrderBook.IndexOf | luno/classes.py:157 | `list.index`: the first position holding an equal entry |
| OrderBook.InsertionPoint | luno/classes.py:152-157 | the insertion index is in range, the entry before it is at or below the price, and it is 0 exactly when every entry is above the price |
| OrderBook.Insert | luno/classes.py:159 | one longer, the new order at the insertion point, entries before it unchanged, entries after it shifted by one, same multiset plus the new order |
| OrderBook.RemoveAt | luno/classes.py:182 | one shorter, entries before the index unchanged, entries after it shifted down, same multiset minus the popped entry |
| OrderBook.SetVolume | luno/classes.py:140-142 | same length, only the volume of the entry at the index changes (id and price kept), all other entries unchanged |
| OrderBook.IndexOfUnique | luno/classes.py:157 | with unique ids, `list.index` of an entry finds that very entry |
| OrderBook.InsertionPointAfterLast | luno/classes.py:155-157 | with unique ids, every entry from the insertion point on is above the price, so the order lands right after the last entry at or below it |
| OrderBook.InsertFreshFirst | luno/classes.py:159 | an inserted id the side lacked is found first at the insertion point |
| OrderBook.SetVolumeTwice | luno/classes.py:142 | a second volume write at the same index overrides the first |
| OrderBook.RemoveAfterSetVolume | luno/classes.py:142 | popping an entry whose volume was rewritten gives the same list as popping it unchanged |
| OrderBook.InsertThenRemove | luno/classes.py:159 | popping the insertion point after an insert gives the list back |
| OrderBook.InsertKeepsAscending | luno/classes.py:161-166 | an ascending side with unique ids stays ascending after an insert |
| OrderBook.RemoveKeepsAscending | luno/classes.py:182 | popping keeps an ascending side ascending |
| OrderBook.InsertKeepsUniqueIds | luno/classes.py:159 | inserting an id the side lacks keeps its ids unique |
| OrderBook.RemoveKeepsUniqueIds | luno/classes.py:182 | popping keeps ids unique |
| OrderBook.SetVolumeKeepsShape | luno/classes.py:142 | a volume write keeps a side ascending and its ids unique |
| OrderBook.LowerBidGoesFirst | luno/classes.py:154-159 | bids [a(100)] plus a BID at 99 gives [c(99), a(100)]: bids are not kept descending |
| OrderBook.DuplicateEntryShiftsInsertion | luno/classes.py:155-157 | with two equal entries, `list.index` finds the first, so a higher order is placed between them |
| Trades.FieldValues | luno/classes.py:206-210 | the record's values in key order (id, price, volume, counter, timestamp), without the hash; the hash lemmas show the order does not matter |
| Trades.Strs | luno/classes.py:194 | `str` of each value, as `Map` of the rendering; `StrsPermutation` states its behaviour under reordering |
| Trades.Map | luno/classes.py:194 | the list comprehension over the values: one string per value, position by position |
| Trades.LexLe | luno/classes.py:194 | the string order `sorted` uses: code point by code point, a proper prefix first; `LexTotal`, `LexAntisymmetric` and `LexTransitive` show it is a total order |
| Trades.LexTotal | luno/classes.py:194 | Python's string order is total |
| Trades.LexAntisymmetric | luno/classes.py:194 | strings each at or below the other are equal |
| Trades.LexTransitive | luno/classes.py:194 | Python's string order is transitive |
| Trades.InsertSorted | luno/classes.py:194 | inserting into a sorted list keeps it sorted and adds exactly that string |
| Trades.SortStrings | luno/classes.py:194 | `sorted`: the result is sorted and a rearrangement of its input |
| Trades.SortedUnique | luno/classes.py:194 | two sorted rearrangements of one list are equal |
| Trades.MapPermutation | luno/classes.py:194 | mapping a rearranged list gives a rearranged result |
| Trades.StrsPermutation | luno/classes.py:194 | rearranged values have rearranged string forms |
| Trades.Concat | luno/classes.py:194 | `"".join`: the strings one after another |
| Trades.Canonical | luno/classes.py:194 | the digested text, the sorted string forms joined; `SortedUnique` makes it depend only on the multiset of values |
| Trades.HashValues | luno/classes.py:193-195 | `__trade_hash`: the digest of the canonical text, with the MD5 digest a parameter; `HashIgnoresOrder` states that it depends only on the multiset of values |
| Trades.MakeRecord | luno/classes.py:204-214 | the record carries order id, base as volume, counter and timestamp, its price times base is the counter, and its hash is the digest of the canonical text of its values without the hash |
| Trades.HashIgnoresOrder | luno/classes.py:193-195 | the hash depends only on the multiset of values, not their order |
| Trades.RecordHashDependsOnValues | luno/classes.py:212-214 | records with equal value multisets get equal hashes |
| StreamState.Initial | luno/classes.py:32-47 | a fresh stream has the configured channel flags, no book, no history, no latest trade or ticker, nothing printed, and satisfies the invariant |
| StreamState.RoundHalfEven | luno/classes.py:230 | the rounded integer is within one half of the price and even at a tie |
| StreamState.RoundHalfEvenUnique | luno/classes.py:230 | any integer within one half and even at a tie is that rounding |
| StreamState.Publications | luno/classes.py:226-246 | what `_handle_subscriptions` prints for a category; `PublicationsPolicy` states its order, contents and exactly when each payload is printed |
| StreamState.PublicationsPolicy | luno/classes.py:226-246 | payloads come in ticker, trade, history, book order; each shows the current state; each kind is present exactly when its category, flag and non-emptiness condition hold |
| StreamState.Publish | luno/classes.py:226-246 | publishing appends the payloads and changes nothing else |
| Dispatch.WithSide | luno/classes.py:142 | the string-built `self.<side>` write replaces only that side |
| Dispatch.AddOrderStep | luno/classes.py:145-173 | raises only for BID or ASK before a snapshot, then with no change; returns true otherwise; touches only the book and the printed output |
| Dispatch.RemoveOrderStep | luno/classes.py:175-191 | raises before a snapshot or for an id in neither side, with no change; returns true otherwise; touches only the book and output |
| Dispatch.UpdateOrderStep | luno/classes.py:119-143 | raises before a snapshot; returns whether the id was found; nothing changes unless it returns true; touches only the book and output |
| Dispatch.Record | luno/classes.py:216-219 | the record is prepended to the history and becomes the latest trade and the ticker; nothing else changes |
| Dispatch.AddTradeStep | luno/classes.py:197-224 | raises before a snapshot with no change, raises on a zero base, returns true otherwise; channels and the snapshot flag unchanged |
| Dispatch.ApplyTrades | luno/classes.py:336-338 | returns (true) exactly when the batch is empty or the book loaded, and no base is zero; channels and snapshot flag unchanged |
| Dispatch.ManagerStep | luno/classes.py:305-338 | channels never change; a frame that reaches no handler changes nothing |
| DispatchLemmas.ApplyTradesStopsAtRaise | luno/classes.py:337-338 | after a trade raises, the rest of the batch is not applied |
| DispatchLemmas.ApplyTradesInOrder | luno/classes.py:337-338 | the first trade of a batch runs on the incoming state and the rest on its result, unless it raised |
| DispatchLemmas.ApplyTradesSnoc | luno/classes.py:337-338 | a batch with one more trade is the shorter batch followed by that trade, unless the shorter one raised |
| DispatchLemmas.ApplyTradesPrefixRaised | luno/classes.py:337-338 | once a prefix of the batch raises, the whole batch ends in that same raise and state |
| DispatchLemmas.NewestFirst | luno/classes.py:216 | the records a batch leaves at the head of the history: position `i` holds the record of the `i`-th trade from the end |
| DispatchLemmas.NewestFirstSnoc | luno/classes.py:216 | one more trade puts its record in front of the records of the shorter batch |
| DispatchLemmas.ApplyTradesRecordsAll | luno/classes.py:336-338 | a batch with no zero base on a loaded book records every trade, found or not, newest first in front of the old history |
| DispatchLemmas.AddOrderPlaces | luno/classes.py:149-171 | a BID/ASK lands at the insertion point of its side, popping it there gives the old side back, the other side is untouched, and the new book is printed when its flag is on |
| DispatchLemmas.AddOrderOtherKind | luno/classes.py:154-173 | any other type changes neither side, returns true and prints the unchanged book when its flag is on |
| DispatchLemmas.AddThenRemoveRestoresBook | luno/classes.py:159-191 | adding a fresh id then deleting it gives the original book back |
| DispatchLemmas.RemoveOrderExact | luno/classes.py:179-191 | a delete pops exactly the entry `fetch_order` reported, from that side only, and prints the new book when its flag is on |
| DispatchLemmas.UpdateOrderPartialFill | luno/classes.py:131-143 | a non-zero remainder (negative included) changes only that entry's volume, to old volume minus base; nothing printed |
| DispatchLemmas.UpdateOrderFill | luno/classes.py:131-136 | a zero remainder acts exactly as deleting the order |
| DispatchLemmas.UpdatesAccumulate | luno/classes.py:124-143 | two partial trades on one order equal one trade of their combined base |
| DispatchLemmas.UpdateLeaves | luno/classes.py:131-142 | a trade that leaves volume writes the remainder into the order's place and returns true |
| DispatchLemmas.FetchAfterSetVolume | luno/classes.py:142 | after a volume write `fetch_order` finds the same side and index |
| DispatchLemmas.AddTradeRecords | luno/classes.py:202-221 | exactly one record is prepended with id, volume, counter, timestamp, price = counter / base and its hash; it becomes the latest trade and ticker; earlier history is kept |
| DispatchLemmas.AddTradePublishes | luno/classes.py:199-221 | the book is what the order update left, and the output grows by the trade category's publications |
| DispatchLemmas.AddTradePrepends | luno/classes.py:216 | the new record goes in front of the old history |
| DispatchLemmas.AddTradeOnUnknownOrder | luno/classes.py:202-216 | a trade on an unknown id leaves the book alone but is still recorded |
| DispatchLemmas.AddTradeZeroBase | luno/classes.py:202-204 | a zero base raises after the order update took effect, recording nothing |
| DispatchLemmas.TradePublishesInOrder | luno/classes.py:221-241 | with all trade flags on, a trade prints the rounded price, the record and the whole history, in that order |
| DispatchLemmas.SingleTrade | luno/classes.py:336-338 | a one-trade batch acts exactly as `_add_trade` |
| DispatchLemmas.ManagerIgnoresEmpty | luno/classes.py:312-336 | an empty frame, or one whose three delta values are empty, changes nothing |
| DispatchLemmas.SnapshotWins | luno/classes.py:316-320 | a snapshot replaces both sides whatever else the frame holds, prints nothing and keeps the trade state; its bid ids are then found on the bids side |
| DispatchLemmas.CreateWins | luno/classes.py:328-329 | with a create, the frame's delete and trades do not matter |
| DispatchLemmas.DeleteBeforeTrades | luno/classes.py:332-333 | without a create, a delete makes the trades irrelevant |
| DispatchLemmas.StepsPreserveValid | luno/classes.py:119-224 | each handler keeps the invariant |
| DispatchLemmas.ApplyTradesPreservesValid | luno/classes.py:336-338 | a trade batch keeps the invariant |
| DispatchLemmas.ManagerPreservesValid | luno/classes.py:305-338 | every frame keeps the invariant |
| DispatchLemmas.AddOrderKeepsAsksInOrder | luno/classes.py:161-166 | an ASK with a new id keeps asks ascending with unique ids |
| DispatchLemmas.RemoveOrderKeepsAsksInOrder | luno/classes.py:179-182 | a delete keeps asks ascending with unique ids |
| DispatchLemmas.AddTradeKeepsAsksInOrder | luno/classes.py:119-143 | an order update and a trade keep asks ascending with unique ids |
| DispatchLemmas.ApplyTradesKeepsAsksInOrder | luno/classes.py:336-338 | a trade batch keeps asks ascending with unique ids |
| DispatchLemmas.ManagerKeepsAsksInOrder | luno/classes.py:305-338 | given an ordered snapshot and fresh ASK ids, every frame keeps asks ascending with unique ids |
| DispatchLemmas.SessionSnapshot | luno/classes.py:316-320 | a first snapshot loads the book and prints nothing |
| DispatchLemmas.SessionLowerBid | luno/classes.py:154-171 | a lower BID goes in front of the higher one and the book is printed |
| DispatchLemmas.SessionFillRemoves | luno/classes.py:131-136 | a trade for all of an order's volume removes it and prints the book |
| DispatchLemmas.SessionFill | luno/classes.py:336-338 | the fill removes the order, records one trade at price 100, and prints the book, ticker, trade and history |
| Streaming.Stream.constructor | luno/classes.py:26-47 | a new stream is the initial state with the configured flags |
| Streaming.Stream.HandleSubscriptions | luno/classes.py:226-246 | the output grows by exactly the policy's payloads, nothing else changes |
| Streaming.Stream.AddOrder | luno/classes.py:145-173 | the fields and result are those of `AddOrderStep`; the invariant is kept |
| Streaming.Stream.RemoveOrder | luno/classes.py:175-191 | the fields and result are those of `RemoveOrderStep`; the invariant is kept |
| Streaming.Stream.UpdateOrder | luno/classes.py:119-143 | the fields and result are those of `UpdateOrderStep`; the invariant is kept |
| Streaming.Stream.AddTrade | luno/classes.py:197-224 | the fields and result are those of `AddTradeStep`; the invariant is kept |
| Streaming.Stream.AddTrades | luno/classes.py:336-338 | the loop over the batch lands in the state and result of `ApplyTrades`; the invariant is kept |
| Streaming.Stream.Manager | luno/classes.py:305-338 | the fields and result are those of `ManagerStep` on the frame (the trade loop applies the batch in order and stops at the first raise); the invariant is kept |
| Streaming.Stream.Subscribe | luno/classes.py:251-252 | only the channel's flag changes, to on |

## Left out

- Websocket plumbing (`start`, `stop`, `_connect`'s retry loop and
  authentication, `receive`): network I/O. `manager` takes an
  already-decoded frame as its argument.
- Credential and configuration loading (`_handle_creds`,
  `_handle_configs`): file and YAML I/O. The constructor takes the
  channel flags as an argument and requires the four flags the policy
  reads.
- The worker thread that `subscribe` starts: concurrency. Only the flag
  write is modelled.
- The getters `ticker`, `trades`, `order_book` and `trade_history`: each
  is one `manager` step followed by a field read.
- `print` and `json.dumps`: the printed payloads are values appended to
  `outbox`.
- `logging`, `inspect.stack`, `pformat` and `get_available_channels`'
  printing: output only.
- MD5 and Python's `str` of numbers: they are the two functions of a
  `Hasher`. Every hash property holds for any choice of them.
- OrderBook.IndexOf: book entries hold numbers, not the feed's decimal
  strings or the float that a partial fill writes back. Python's
  `list.index` at `luno/classes.py:157` and `:164` compares whole dicts,
  so it can tell apart two entries the model treats as equal. Example:
  bids `[x(price "5", volume "2")]`. A trade of base "1" on x leaves
  volume `1.0`. A create then re-adds x with price "5" and volume "1", so
  bids are `[x(1.0), x("1")]`. Now a BID y at "6" arrives. Python finds
  `previous[-1]` at index 1 and gives `[x, x, y]`. The model finds both
  entries equal, takes index 0, and gives `[x, y, x]`. This needs a
  duplicated id.
- Trades.Hasher: `show` receives the numeric value of `base` and
  `counter`, not their text. Python's `str` at `luno/classes.py:194`
  renders the feed's raw strings, so "2" and "2.000000" hash differently
  in Python but alike in the model.
- Float semantics: `float()` parsing, binary rounding error and
  `round(…, 6)` are replaced by exact millionths, and the trade price by an
  exact rational.
- Malformed or missing frame fields: a `KeyError` for a missing sibling
  key, unparsable numbers, or `create_update` without `type`. A frame is
  a well-formed `Message` value.
- A `create_update`, `delete_update` or `trade_updates` value that is
  truthy but not of the expected shape: it is not modelled.
- `examples/ticker.py`: a demo polling loop with no logic of its own. It
  is not part of this model.
