# Verification of the NautilusTrader MetaTrader 5 adapter

A Dafny model of the adapter's stateful core and proofs about it: the inbound MQL5 feed, the request and
subscription registries, the order and bar state machines, and the two text codecs. `dafny verify
dfyconfig.toml` checks everything.

Code that changes objects in place is modelled by classes whose methods are proved equal to a step of a
specification; the theorems are about the specification, over every run. Code made of expressions is
modelled by functions.

## The feed

An MQL5 service connects, says hello with the symbols and bars it is active on, streams tick batches (each
with a cursor) and closed bars, and may drop, restart, replay and overlap.

- `wire.dfy`, `subscription_state.dfy`, `feed_handler.dfy`: the wire vocabulary and the classes of
  `feed/handler.py`. Messages on one channel (a symbol's ticks, one bar key, control) never affect another.
- `tick_by_tick.dfy`: the same handler fed one tick per batch, on the ticks' own fields.
- `exactly_once.dfy`: batches as slices of a source log. The handler refines a machine that keeps only a
  frontier. With no gap it emits each priced tick once, in order; and it does so for *every* gapless run if
  and only if no two priced ticks of the log share a millisecond. With gaps it still emits a strictly
  increasing subsequence.
- `bar_dedup.dfy`: a stateless rule for which bars go out, which the handler refines.
- `feed_protocol.dfy`: adapter, network and service as a transition system, generic in the subscription key.
  Each step is a coroutine stretch between awaits: accepting is two steps because the gateway waits for the
  old connection to close, and a replay sends one command at a time, so user commands, hellos, drops,
  replacements and stops interleave with it. `supported` is what the service can activate; the service
  answers every change of its active set with a hello.
- `feed_echo.dfy`: that answer starts another replay. The exchange nevertheless ends under every scheduler.
- `feed_client.dfy`: the gateway and the feed half of `data.py`. Their methods are tied to the effects the
  protocol is made of (`SubscribeEffect`, `UnsubscribeEffect`, `ReplaySet`, `Issue`).
- `feed_routing.dfy`: end to end, from messages, user commands and restarts to what is published, as a
  specification and as a session that puts the data client itself through any run of events.
- `feed_path.dfy`: the request path of a connection.

## Client and execution

- `registry.dfy`: `Base`, `Subscriptions`, `Requests`. A table searched by name refines a two-way index.
- `client_requests.dfy`, `request_callbacks.dfy`: ids from one counter, both registries, one future per request;
  whose callbacks are called and what becomes of each future.
- `closed_bars.dfy`: closing bars from a stream of revisions.
- `orders.dfy`, `exec_join.dfy`: order ids, references and routing; joining executions with commissions.
- `hedging.dfy`: a book of long and short legs, close on stop, and the leg a SELL closes.
- `account_state.dfy`: account state from summary events.
- `tick_paging.dfy`: requesting ticks page by page.
- `ea_codec.dfy`: the caret protocol of the expert advisor.

## What was found

Where the code does not do what it seems to promise, the code is modelled as it is and the exact condition is
proved:

- Two priced ticks in one millisecond can be delivered twice by a replay, or lose one when a batch boundary
  falls between them (`ExactlyOnce.ReplayDuplicates`, `ExactlyOnce.SplitLoses`).
- Unsubscribing while the gateway is stopped leaves a pending key to be subscribed again; so does
  unsubscribing a bar key during a replay whose commands for other timeframes have gone out while its own has
  not. Exactly these are the cases (`FeedProtocol.CleanUnlessStale`), and both occur
  (`FeedProtocol.UnsubscribeWhileDownIsLost`, `FeedProtocol.UnsubscribeDuringReplayIsLost`). The second
  concerns bars of two timeframes: quotes are replayed in one command.
- A bar spec survives the hello only when its symbol has no colon (`Wire.BarSpecRoundTrip`).
- The documentation of `Subscriptions.add` and `Requests.add` says an existing id is overwritten; the code
  raises, and so does the model.
- Id 0 and an empty name can be registered but never found or, for id 0, removed (`Registry.FoundExactly`).
- `update_last` on an unregistered id leaves a stray value (`Registry.Subscriptions.UpdateLast`).
- Ending a request unsuccessfully with no exception, as `client/symbol.py` does, leaves its future pending
  until its timeout, or until a result is set on it directly (`ClientRequests.StrandedExactly`,
  `ClientRequests.StrandedForGood`). A timeout cancels the
  future first, so the request's own cancel callback is not called (`ClientRequests.CancelCalledExactly`).
- Open positions, open orders and symbol details are answered by setting the future's result directly. Such
  a result is not what the request received, and the request stays registered: until somebody ends it, every
  later request of that name gets the first answer again (`ClientRequests.DeliversReceived`,
  `ClientRequests.StaleAnswer`, `ClientRequests.DirectAnswerDropsReceived`).
- Paging for ticks does not go back in time. The next page is asked up to the least stamp of the page before,
  but a stamp is never before the clock; asked for a past end, every page after the first is asked up to the
  present (`TickPaging.GoesBackIff`, `TickPaging.NeverBeforeClock`, `TickPaging.JumpsForward`).
- A joined execution is not forgotten: every later half calls the handler again (`ExecJoin.OneCallIff`), for the
  id is popped from the inner dictionary; only an id spelled like one of its keys loses a half
  (`ExecJoin.ForgottenExactly`; when it is the reference, the source raises for its absence).
- Close on stop does not look at return codes: a rejected order is reported as closed
  (`Hedging.ReportHonestIff`), so the report can be relied on only when there is nothing to close
  (`Hedging.ReportReliableIff`).
- A client reference with a colon is routed under a shortened reference (`Orders.IdsAndRouting`).
- The first bar ever, when revisions are published, counts as a revision if its time is zero
  (`ClosedBars.RevisedStream`).
- Normalizing a request path twice differs from normalizing it once exactly when the part before the query,
  less its final slashes, ends in a blank, as in `/a /` (`FeedPath.NormalForm`, `FeedPath.NotIdempotentAt`).

`Execution` and `CommissionReport` in `data_types.py` name their id `exec_id` and have no account, while
`client/order.py` reads `execId` and `acctNumber`; the model follows `client/order.py`.

## Model

| member | source | states |
|---|---|---|
| Wire.ParseBarSpecSound | nautilus_mt5/feed/messages.py:260-269 | whatever parses has a colon-free, non-empty, trimmed symbol and a non-empty, trimmed timeframe |
| Wire.MalformedExactly | nautilus_mt5/feed/messages.py:260-269 | a spec is malformed exactly when it has no colon or nothing but blanks before or after the first |
| Wire.PaddingIgnored | nautilus_mt5/feed/messages.py:260-269 | blanks around the symbol and around the timeframe do not change what is read |
| Wire.UpperExactly | nautilus_mt5/feed/handler.py:84 | upper-casing gives the one spelling without lower-case letters |
| Wire.HelloBarsEach | nautilus_mt5/feed/handler.py:79-86 | each spec of a hello counts by itself: skipped when malformed, else its symbol and upper-case timeframe |
| Wire.BarSpecRoundTrip | nautilus_mt5/feed/messages.py:260-269 | a trimmed non-empty key formatted as `SYMBOL:TF` parses back exactly when its symbol has no colon |
| Wire.HelloBarsRoundTrip | nautilus_mt5/feed/handler.py:79-86 | a hello listing the service's well-formed active keys is read back as exactly those keys |
| SubscriptionTracking.LastCommandSemantics | nautilus_mt5/feed/handler.py:43-86 | after any run, unsubscribe-pending is exactly the keys whose latest command unsubscribes, subscribe-pending exactly those whose latest command subscribes with no later hello naming them; the two are disjoint |
| SubscriptionTracking.KeysIgnoreCase | nautilus_mt5/feed/handler.py:53-73 | two timeframes name the same bar keys exactly when they differ in case alone |
| SubscriptionTracking.SubscriptionState.MarkSubscribe | nautilus_mt5/feed/handler.py:43-46 | the loop over symbols makes one subscribe event of the specification |
| SubscriptionTracking.SubscriptionState.MarkUnsubscribe | nautilus_mt5/feed/handler.py:48-51 | likewise one unsubscribe event |
| SubscriptionTracking.SubscriptionState.MarkSubscribeBars | nautilus_mt5/feed/handler.py:53-62 | likewise for bar keys, timeframe upper-cased |
| SubscriptionTracking.SubscriptionState.MarkUnsubscribeBars | nautilus_mt5/feed/handler.py:64-73 | likewise for unsubscribing bar keys |
| SubscriptionTracking.SubscriptionState.ApplyHello | nautilus_mt5/feed/handler.py:75-86 | records session and service sets, skips malformed specs, and answers only what was subscribe-pending |
| FeedHandler.SymbolFeedState.Dedup | nautilus_mt5/feed/handler.py:125-144 | one batch: stale cursor drops it whole; else exactly the ticks not before the cursor, not the last tick again, and priced; state moves only when something is kept |
| FeedHandler.InboundFeedHandler.StateFor | nautilus_mt5/feed/handler.py:114-117 | each symbol has its own state object, fresh when new |
| FeedHandler.InboundFeedHandler.BarStateFor | nautilus_mt5/feed/handler.py:119-123 | each (symbol, upper-cased timeframe) has its own state object |
| FeedHandler.InboundFeedHandler.DedupTickBatch | nautilus_mt5/feed/handler.py:125-144 | a batch changes its own symbol's state only |
| FeedHandler.InboundFeedHandler.DedupBarMessage | nautilus_mt5/feed/handler.py:146-156 | a bar goes out when valid and later than the last of its key; only that key's time moves |
| FeedHandler.InboundFeedHandler.HandleMessage | nautilus_mt5/feed/handler.py:158-178 | the whole new state and the event are those of the specification |
| FeedHandler.HandleIsLocal | nautilus_mt5/feed/handler.py:114-178 | a message reads and writes only its own channel's state and emits only on that channel |
| FeedHandler.EventsComeFrom | nautilus_mt5/feed/handler.py:158-178 | over any run each event is a message received, or some of the ticks of one under its symbol and cursor; what is neither ticks nor a bar always goes out |
| FeedHandler.NonInterference | nautilus_mt5/feed/handler.py:114-178 | over any interleaving, what a channel emits is what it would emit fed alone |
| ExactlyOnce.DeliverRefines | nautilus_mt5/feed/handler.py:125-144 | on a log with distinct priced times, one batch emits exactly what lies past the frontier and moves as it does |
| ExactlyOnce.DeliverAllRefines | nautilus_mt5/feed/handler.py:125-144 | every run of slices, replays, overlaps and gaps included, refines the frontier machine |
| ExactlyOnce.ExactlyOnceDelivery | nautilus_mt5/feed/handler.py:125-144 | a gapless run emits exactly the priced ticks up to its furthest slice, once and in order |
| ExactlyOnce.ReplayDuplicates | nautilus_mt5/feed/handler.py:131-142 | two priced ticks in one millisecond that differ in bid, ask, volume or flags: a replay emits one of them twice |
| ExactlyOnce.SplitLoses | nautilus_mt5/feed/handler.py:131-142 | two neighbouring priced ticks in one millisecond that agree in all of these, split between batches: the second is lost |
| ExactlyOnce.ExactlyOnceCharacterised | nautilus_mt5/feed/handler.py:125-144 | every gapless run delivers exactly once if and only if no two priced ticks share a millisecond |
| ExactlyOnce.DeliveredIsSubsequence | nautilus_mt5/feed/handler.py:125-144 | gaps allowed, the output is a strictly increasing subsequence of the log |
| ExactlyOnce.ExactlyOnceInterleaved | nautilus_mt5/feed/handler.py:125-178 | exactly once for a symbol amid any other messages |
| TickByTick.SingleTick | nautilus_mt5/feed/handler.py:89-144 | after a tick, a priced one in the same millisecond goes out exactly when it differs in bid, ask, volume or flags, and only then is remembered |
| TickByTick.TickByTickDelivery | nautilus_mt5/feed/handler.py:89-144 | a log sent one tick per batch: exactly the priced ticks go out that differ from the priced tick before them in time, bid, ask, volume or flags |
| BarDedup.LastClosedIsLatest | nautilus_mt5/feed/handler.py:146-156 | the stored time of a key is that of its latest valid bar, 0 when there is none |
| BarDedup.BarDedupRefinesRule | nautilus_mt5/feed/handler.py:119-156 | over any run the bars emitted are those a stateless rule selects: time and close positive, and later than every such bar of the key before |
| BarDedup.SelectedTimesIncrease | nautilus_mt5/feed/handler.py:146-156 | emitted times of one key strictly increase |
| BarDedup.EmittedConverts | nautilus_mt5/feed/converter.py:12-59 | every emitted tick and bar converts, to one with its own prices and volume, stamped with its own time and the later of that and the clock |
| FeedProtocol.InvKept | nautilus_mt5/feed/gateway.py:115-207 | every step keeps connection ownership, replay tagging, coverage of the desired set, and an owed hello |
| FeedProtocol.SubscriptionConvergence | nautilus_mt5/data.py:188-227 | in every execution, once a hello on the open current connection has been answered the service will be active on every desired key it supports, at once when no command is in flight |
| FeedProtocol.DesiredExactly | nautilus_mt5/data.py:318-472 | in every execution the desired keys are exactly those the user last said to want, whatever connections, hellos, replays and stops did |
| FeedProtocol.CommandsTakeEffect | nautilus_mt5/data.py:318-472 | a command settles what is pending about its key, and on an open connection the service will be active on it, or not, whatever was in flight |
| FeedProtocol.OneOpenConnection | nautilus_mt5/feed/gateway.py:181-207 | at most one accepted connection is open |
| FeedProtocol.SupersededForGood | nautilus_mt5/feed/gateway.py:188-207 | a superseded connection stays so, and its teardown never clears the newer one |
| FeedProtocol.CleanUnlessStale | nautilus_mt5/data.py:429-442 | a replay asks for exactly the desired keys, and every step keeps that so except exactly a stale unsubscribe |
| FeedProtocol.UnsubscribeWhileDownIsLost | nautilus_mt5/data.py:438-441 | an execution that ends with an undesired key about to be replayed |
| FeedProtocol.UnsubscribeDuringReplayIsLost | nautilus_mt5/data.py:211-216 | an execution in which a bar key is unsubscribed between two commands of a replay, asked for again, and active though not desired |
| FeedEcho.NeverStuck | MQL5/refactoring/Services/NT5TickFeedService.mq5:270-312 | while something of the hello exchange is outstanding a step of it can be taken |
| FeedEcho.EchoProgress | nautilus_mt5/data.py:218-227 | every step of the exchange decreases a measure |
| FeedEcho.EchoQuiesces | nautilus_mt5/data.py:218-227 | under every scheduler the hello exchange ends, with nothing in flight and the service active on every desired key it supports |
| FeedClient.InboundFeedGateway.SubscribeSymbols | nautilus_mt5/feed/gateway.py:136-141 | marks pending, and sends exactly when the connection is open; nothing for no symbols |
| FeedClient.InboundFeedGateway.UnsubscribeSymbols | nautilus_mt5/feed/gateway.py:143-148 | likewise for unsubscribing |
| FeedClient.InboundFeedGateway.SubscribeBarKeys | nautilus_mt5/feed/gateway.py:150-159 | likewise for bars; nothing without a timeframe |
| FeedClient.InboundFeedGateway.UnsubscribeBarKeys | nautilus_mt5/feed/gateway.py:161-170 | likewise for unsubscribing bars |
| FeedClient.InboundFeedGateway.HandleRaw | nautilus_mt5/feed/gateway.py:209-225 | the handler decides; a hello is remembered |
| FeedClient.InboundFeedGateway.Accept | nautilus_mt5/feed/gateway.py:188-192 | the new connection is current and an open old one is closed |
| FeedClient.InboundFeedGateway.Teardown | nautilus_mt5/feed/gateway.py:204-207 | clears the slot only if it is still this connection's |
| FeedClient.InboundFeedGateway.Stop | nautilus_mt5/feed/gateway.py:115-127 | closes and forgets the connection and the hello |
| FeedClient.FeedDataClient.SubscribeQuoteTicks | nautilus_mt5/data.py:318-336 | for a cached instrument, the protocol's subscribe effect on desired set, pending sets and commands; else nothing |
| FeedClient.FeedDataClient.UnsubscribeQuoteTicks | nautilus_mt5/data.py:429-442 | the protocol's unsubscribe effect, with the pending set untouched when there is no gateway |
| FeedClient.FeedDataClient.SubscribeBarType | nautilus_mt5/data.py:381-401 | the subscribe effect on bar keys; the keys of the bar types stay those desired, each under its own timeframe |
| FeedClient.FeedDataClient.UnsubscribeBarType | nautilus_mt5/data.py:450-472 | the unsubscribe effect on bar keys, forgetting the key's bar type |
| FeedClient.FeedDataClient.ReplayPendingQuotes | nautilus_mt5/data.py:188-195 | one command with everything desired or pending, none when there is nothing |
| FeedClient.FeedDataClient.ReplayPendingBars | nautilus_mt5/data.py:205-216 | one command per timeframe; together exactly the desired or pending keys, each once |
| FeedClient.KeyGroupsCover | nautilus_mt5/data.py:211-216 | the groups of the timeframes are non-empty, disjoint and make up all keys with those timeframes |
| FeedClient.GroupByTimeframe | nautilus_mt5/data.py:211-213 | the index lists under each timeframe its symbols, each once |
| FeedClient.TimeframesAgree | nautilus_mt5/parsing/data.py:50-72 | the timeframe sent is read by the service (MQL5/refactoring/Include/NT5FeedWire.mqh) as exactly the bar type's period, and is sent for just the seven supported |
| FeedClient.FeedKeysDiffer | nautilus_mt5/data.py:381-401 | two bar types have one feed key exactly when symbol, aggregation and step agree |
| FeedClient.FeedDataClient.OpenFeedGateway | nautilus_mt5/data.py:154-161 | a new gateway takes over the handler with everything it has delivered |
| FeedClient.FeedDataClient.CloseFeedGateway | nautilus_mt5/data.py:291-296 | stopping keeps the handler and its state |
| FeedClient.FeedDataClient.RestartFeedGateway | nautilus_mt5/data.py:197-203 | a restart preserves the deduplication state of every symbol and bar key |
| FeedClient.FeedDataClient.HandleFeedTicks | nautilus_mt5/data.py:246-259 | publishes the converted ticks in order, for a cached instrument |
| FeedClient.FeedDataClient.HandleFeedBar | nautilus_mt5/data.py:261-282 | when the key is desired, the instrument cached and the bar valid, publishes just the one bar, under the key's bar type, with the wire bar's own prices, volume and time; else nothing |
| FeedClient.FeedDataClient.HandleFeedEvent | nautilus_mt5/data.py:218-244 | a hello starts both replays; ticks and bars are published |
| FeedClient.FeedDataClient.Receive | nautilus_mt5/data.py:218-282 | one message through the handler and out; what the handler has let through afterwards is exactly as specified, for a hello too |
| FeedClient.FeedDataClient.Dispatch | nautilus_mt5/data.py:218-244 | publishing, and the replays of a hello, leave what the handler has let through alone |
| FeedRouting.BarRouting | nautilus_mt5/data.py:261-282 | after any run of commands, messages and restarts, a bar is published exactly when it is news and the latest command about its key asks for it: once, under the bar type last asked for, with its own open, high, low, close, volume and stamps |
| FeedRouting.QuoteRouting | nautilus_mt5/data.py:246-259 | every tick the handler lets through is published as a quote, in order, and nothing else is |
| FeedRouting.QuotesShown | nautilus_mt5/data.py:246-259 | each tick let through becomes one quote of its own symbol's instrument, in order, with its own bid and ask, its own time, and the later of that and the clock; nothing for an instrument not cached |
| FeedRouting.QuotesExactlyOnce | nautilus_mt5/data.py:154-259 | end to end over restarts, replays and other traffic, a symbol's quotes are its log's priced ticks up to the furthest slice, each once |
| FeedRouting.Session.Put | nautilus_mt5/data.py:154-472 | putting the data client through one more event keeps it equal to the specification: after any history it has published exactly what the specification says |
| FeedPath.NormalForm | nautilus_mt5/feed/gateway.py:40-50 | the normal form of a request is rooted, has no query and no final slash; normalizing it again changes nothing exactly when the request's part before the query, less final slashes, does not end in a blank |
| FeedPath.FixedPoints | nautilus_mt5/feed/gateway.py:29-50 | a rooted path is left as it is exactly when it has no query, no final slash and no final blank |
| FeedPath.MissingRequest | nautilus_mt5/feed/gateway.py:36-38 | without a request path the configured one comes back as it stands, and when that is a fixed point |
| FeedPath.NotIdempotent | nautilus_mt5/feed/gateway.py:40-50 | a blank before the query or before a final slash survives once and is dropped the second time |
| FeedPath.NotIdempotentAt | nautilus_mt5/feed/gateway.py:40-50 | two concrete requests for which normalizing twice differs from once |
| FeedPath.UrlNormalizes | nautilus_mt5/feed/gateway.py:40-50 | a full URL normalizes to its path, whatever host and query |
| FeedPath.HostAlone | nautilus_mt5/feed/gateway.py:40-50 | a URL without a path asks for the root |
| FeedPath.SlashAdded | nautilus_mt5/feed/gateway.py:29-50 | a path without a leading slash is read as if it had one |
| FeedPath.MatchesExactly | nautilus_mt5/feed/gateway.py:53-56 | which requests are taken, exactly; a configured query matches nothing |
| Registry.Base.NameToReqId | nautilus_mt5/common.py:65-82 | finds the id of a name, or nothing when no id has it |
| Registry.Base.AddReqId | nautilus_mt5/common.py:112-138 | refuses a used id or name and changes nothing; else all dictionaries gain the entry |
| Registry.Base.RemoveReqId | nautilus_mt5/common.py:140-152 | all dictionaries lose the id |
| Registry.Base.ResolveReqId | nautilus_mt5/common.py:280-281 | which id a call by id or name means, zero counting as none |
| Registry.Subscriptions.Add | nautilus_mt5/common.py:229-260 | the table's insert, and what is then found under the id |
| Registry.Subscriptions.Remove | nautilus_mt5/common.py:262-283 | the table's delete, by id or by name |
| Registry.Subscriptions.Get | nautilus_mt5/common.py:285-315 | the table's lookup, by id or by name |
| Registry.Subscriptions.UpdateLast | nautilus_mt5/common.py:317-329 | sets a registered id's last value; the dictionaries keep equal keys exactly when the id is registered |
| Registry.Requests.Add | nautilus_mt5/common.py:357-389 | the table's insert with a fresh pending future and no results |
| Registry.Requests.Remove | nautilus_mt5/common.py:391-414 | the table's delete; other requests keep their futures |
| Registry.Requests.Get | nautilus_mt5/common.py:416-447 | the table's lookup |
| Registry.Requests.Append | nautilus_mt5/client/market_data.py:844-852 | appends to the results of the request found under an id, if there is one |
| Registry.TableRefinesIndex | nautilus_mt5/common.py:84-447 | over every sequence of adds, removes and gets, by id or name, the searched table gives the answers and rows of a two-way index; names stay injective |
| Registry.FoundExactly | nautilus_mt5/common.py:285-315 | get and remove by name agree with by id; an entry is found exactly when its id is not zero and its name not empty |
| Registry.AddRemoveRestores | nautilus_mt5/common.py:229-283 | add then remove, by id or name, restores the table exactly when the id is not zero |
| ClientRequests.InvHolds | nautilus_mt5/client/client.py:755-766 | in every run ids in use are below the counter, requests and subscriptions share none, and names are not shared |
| ClientRequests.DispatchOrderIrrelevant | nautilus_mt5/client/market_data.py:840-864 | an id is found in at most one registry, so the order of asking cannot matter |
| ClientRequests.DuplicateExactly | nautilus_mt5/client/market_data.py:104-124 | when the duplicate error is met, exactly; a refused call only spends an id |
| ClientRequests.OneSubscriptionPerName | nautilus_mt5/client/market_data.py:72-162 | after subscribing exactly one subscription has the name, after unsubscribing none; others are untouched |
| ClientRequests.SettlesOnce | nautilus_mt5/client/client.py:506-571 | a settled future keeps its outcome for the rest of the run |
| ClientRequests.GoneForGood | nautilus_mt5/client/client.py:542-571 | an id once gone is never registered again |
| ClientRequests.LateEndIsNoOp | nautilus_mt5/client/client.py:561-571 | ending removes for good; a later or second end changes and calls nothing |
| ClientRequests.StrandedExactly | nautilus_mt5/client/client.py:561-571 | a request is removed with its future pending exactly by an unsuccessful end without exception |
| ClientRequests.StrandedStays | nautilus_mt5/client/client.py:529-571 | a future without its request is settled by its own timeout or by a result set on it, and nothing else |
| ClientRequests.StrandedForGood | nautilus_mt5/client/symbol.py:31-74 | it stays pending for good exactly when neither happens |
| ClientRequests.CancelCalledExactly | nautilus_mt5/client/client.py:564-570 | when the request's cancel callback is called; never after its timeout |
| ClientRequests.SettledByOne | nautilus_mt5/client/client.py:564-570 | a settled future was settled by exactly one step and has that step's outcome |
| ClientRequests.DeliversReceived | nautilus_mt5/client/client.py:561-571 | the step that settled a successful request removed it exactly when it was an end of it, and then the result is exactly the values received for its id, in order; else the result is whatever was set directly and the registry is untouched |
| ClientRequests.RegisteredUntilEnd | nautilus_mt5/client/client.py:561-571 | a visible request stays registered under its name exactly until it is ended |
| ClientRequests.StaleAnswer | nautilus_mt5/client/account.py:134-166 | an answer set directly is found again by every later request of the name until the request is ended |
| ClientRequests.DirectAnswerDropsReceived | nautilus_mt5/client/order.py:183-199 | a run in which a received value is not delivered and the request is still registered |
| RequestCallbacks.RegisteredAsGiven | nautilus_mt5/common.py:112-138 | after any run, a request or subscription told that it is registered has the next id, the name, handle and cancel it gave, and an empty payload |
| RequestCallbacks.CancelsItsOwn | nautilus_mt5/client/client.py:561-571 | a request keeps name, handle and cancel until its own end; an unsuccessful end calls the cancel that very request was made with, exactly when it is pending |
| RequestCallbacks.SubscriptionKeepsItsOwn | nautilus_mt5/client/market_data.py:104-162 | a subscription keeps name, handle and cancel until its name is unsubscribed |
| RequestCallbacks.OutcomeOfRequest | nautilus_mt5/client/client.py:529-571 | the outcome of a request, after any run, is a function of the data, ends, answers and timeouts of its own id and of the connection closing, computed without the registry |
| RequestCallbacks.ConnectionClosedFails | nautilus_mt5/client/connection.py:176-180 | closing fails exactly the pending futures of registered requests and removes nothing |
| ClientRequests.MetaTrader5Client.MakeSubscription | nautilus_mt5/client/market_data.py:104-132 | the subscribe step |
| ClientRequests.MetaTrader5Client.RemoveSubscription | nautilus_mt5/client/market_data.py:153-162 | the unsubscribe step |
| ClientRequests.MetaTrader5Client.MakeRequest | nautilus_mt5/client/market_data.py:959-973 | the request step, looking for the name first or not |
| ClientRequests.MetaTrader5Client.ProcessHistoricalData | nautilus_mt5/client/market_data.py:844-852 | the data step for a request |
| ClientRequests.MetaTrader5Client.EndRequest | nautilus_mt5/client/client.py:542-571 | the end step: outcome, cancel callback and removal |
| ClientRequests.MetaTrader5Client.SetResult | nautilus_mt5/client/symbol.py:119-120 | the resolve step: a result set on a pending future, an error on one that is done |
| ClientRequests.MetaTrader5Client.TimeOut | nautilus_mt5/client/client.py:531-533 | the timeout step: a pending future is cancelled |
| ClientRequests.MetaTrader5Client.ProcessConnectionClosed | nautilus_mt5/client/connection.py:176-180 | every pending future of a registered request fails, no other changes |
| ClosedBars.BarProcessor.ProcessBarData | nautilus_mt5/client/market_data.py:679-745 | one bar: the bar kept and what is published, in all modes |
| ClosedBars.OlderBarsIgnored | nautilus_mt5/client/market_data.py:711-716 | an older bar changes nothing |
| ClosedBars.LastRevisionsMeaning | nautilus_mt5/client/market_data.py:707-738 | the grouping has strictly increasing times and exactly the last bar of each time |
| ClosedBars.FirstRevisionsMeaning | nautilus_mt5/client/market_data.py:707-738 | the bars that close the one before: strictly increasing times and exactly the first bar of each time |
| ClosedBars.ClosedBarStream | nautilus_mt5/client/market_data.py:707-738 | the i-th bar published has the time, prices and volume (0 for -1) of the last revision of the i-th time in order, and is stamped with the clock reading of the first bar of the next time; the last time is the bar still open |
| ClosedBars.PublishedTimesIncrease | nautilus_mt5/client/market_data.py:707-738 | published times strictly increase |
| ClosedBars.RevisedStream | nautilus_mt5/client/market_data.py:711-745 | with revisions every in-order bar goes out at once with its own time, prices and volume (0 for -1) and its own clock reading, marked by comparison with the one before |
| ClosedBars.HistoricalIsCompleteLive | nautilus_mt5/client/market_data.py:728-731 | a historical run publishes, of the live run's bars, exactly those complete by the clock |
| ClosedBars.BarTypesIndependent | nautilus_mt5/client/market_data.py:707-738 | each bar type is processed as if alone |
| ClosedBars.ClosedBarStreams | nautilus_mt5/client/market_data.py:707-738 | the closed-bar stream of each bar type amid all others |
| ExecJoin.ExactlyOneCall | nautilus_mt5/client/order.py:331-381 | the call is made when the second half arrives, with the id's own latest halves, and is the only one if no event about the id follows |
| ExecJoin.OneCallIff | nautilus_mt5/client/order.py:348-381 | exactly one call if and only if the completing event is the last about the id |
| ExecJoin.OwnHalvesOnly | nautilus_mt5/client/order.py:331-381 | every call joins two delivered halves of its own id |
| ExecJoin.CalledOnceBoth | nautilus_mt5/client/order.py:331-381 | there has been a call exactly when both halves have arrived |
| ExecJoin.CalledExactly | nautilus_mt5/client/order.py:331-381 | every call of every run: made exactly when both halves have arrived, the handler of the latest execution's account is registered and, for a report, the account has a name; with which handler, reference and halves |
| ExecJoin.RegisteredNow | nautilus_mt5/client/client.py:480-504 | a handler is registered exactly when the run last registered it, or never spoke of it and it was to begin with |
| ExecJoin.HandlersDiffer | nautilus_mt5/client/order.py:347-378 | different accounts have different handlers |
| ExecJoin.ForgottenExactly | nautilus_mt5/client/order.py:331-381 | after a call another half calls again, except exactly when the id is spelled like the inner dictionary's key of a half still needed |
| ExecJoin.CallsOnlyRegistered | nautilus_mt5/client/order.py:347-378 | a call goes to the registered handler of the execution's own account; a report calls nobody for an execution without account |
| ExecJoin.ExecutionJoin.ProcessExecDetails | nautilus_mt5/client/order.py:331-356 | the execution step of the specification |
| ExecJoin.ExecutionJoin.ProcessCommissionReport | nautilus_mt5/client/order.py:358-381 | the report step of the specification |
| Orders.RefRoundTrip | nautilus_mt5/client/order.py:41-46 | the suffix put on at placing comes off; stripping twice gives the client's reference exactly when it has no colon |
| Orders.StrDenotes | nautilus_mt5/client/order.py:41-46 | the id as text denotes the id |
| Orders.WireRefIdentifies | nautilus_mt5/client/order.py:41-46 | two references sent are equal exactly when client reference and id are |
| Orders.IdsAndRouting | nautilus_mt5/client/order.py:225-329 | in every interleaving ids strictly increase and a placed order's status goes to its account with its stored reference |
| Orders.IdsConsecutive | nautilus_mt5/client/order.py:225-237 | from the first id, -1, ids are handed out one after the other without a gap until a valid-id message |
| Orders.ValidIdHeeded | nautilus_mt5/client/order.py:239-248 | after a valid-id message the counter is that id, 101 or what it was, whichever is largest, and no id handed out later, in any run, is below it |
| Orders.AnswerCollects | nautilus_mt5/client/order.py:183-292 | between asking and the end of the answer every open order reported is collected, in order, with id, account and reference less its suffix |
| Orders.AnswerEnds | nautilus_mt5/client/order.py:294-299 | after the end of the answer nothing is collected, in any run, until somebody asks again |
| Orders.ReportedIsKnown | nautilus_mt5/client/order.py:253-292 | an order first heard of in an answer keeps the account and reference the answer gave, and its status goes there, until it is placed anew |
| Orders.RegisteredExactly | nautilus_mt5/client/client.py:480-491 | the handlers registered are exactly those the run registered |
| Orders.StatusReachesPlacer | nautilus_mt5/execution.py:802-836 | take an id, let anything happen, place a colon-free reference under it, let anything happen: its status goes to its account with that reference |
| Orders.HandedForGood | nautilus_mt5/execution.py:802-836 | an id handed out can be placed under, whatever happens in between |
| Orders.PlacedForGood | nautilus_mt5/client/order.py:41-44 | what was placed under an id stays recorded for the rest of the run |
| Orders.EchoAgrees | nautilus_mt5/client/order.py:253-292 | the venue's echo agrees with what is stored, and the event carries the reference, exactly when it has no colon |
| Orders.OrderMixin.PlaceOrder | nautilus_mt5/client/order.py:41-46 | records account and reference, returns the reference to send; under an id handed out and not yet used this is the placing step |
| Orders.OrderMixin.NextOrderId | nautilus_mt5/client/order.py:225-237 | hands out the counter and advances it |
| Orders.OrderMixin.ProcessNextValidId | nautilus_mt5/client/order.py:239-248 | the counter only rises, to at least 101 |
| Orders.OrderMixin.SubmitBuy | nautilus_mt5/execution.py:802-836 | a BUY takes its id and is placed under it at once |
| Orders.OrderMixin.ProcessOpenOrder | nautilus_mt5/client/order.py:253-292 | an answer is collected without overwriting a reference; else an event is routed |
| Orders.OrderMixin.ProcessOrderStatus | nautilus_mt5/client/order.py:322-329 | where a status goes |
| Hedging.Venue.CloseAllPositionsOnStop | nautilus_mt5/execution.py:246-282 | what is left of the book leg by leg, the orders sent, and the tickets reported closed |
| Hedging.OrdersSent | nautilus_mt5/execution.py:246-272 | one order for each leg with a ticket, a symbol and a positive volume, in the order of the legs: the leg's own symbol, whole volume and ticket, on the other side |
| Hedging.FullFillsClose | nautilus_mt5/execution.py:246-282 | with every order filled in full a leg with a ticket remains exactly when it has no symbol, no positive volume or is neither long nor short; a book of valid legs is left empty |
| Hedging.ReportedExactly | nautilus_mt5/execution.py:272-280 | a ticket is reported closed exactly when it is not 0 and a leg of it with a symbol and a positive volume had its order sent without an exception |
| Hedging.CloseConserves | nautilus_mt5/execution.py:246-282 | exposure left is exposure before less what was executed, in every symbol |
| Hedging.UnfilledRemain | nautilus_mt5/execution.py:246-282 | with full or no fills the unfilled legs remain, untouched and in order, and a leg remains exactly when it was in the book and not filled |
| Hedging.InRemaining | nautilus_mt5/execution.py:246-282 | a leg's ticket remains exactly when the leg was not filled in full |
| Hedging.ReportHonestIff | nautilus_mt5/execution.py:272-280 | no leg reported closed is still open exactly when every order that did not raise was filled |
| Hedging.ReportReliableIff | nautilus_mt5/execution.py:246-280 | whatever the venue answers the report is honest, exactly when no leg is one to send an order for |
| Hedging.ChooseTicket | nautilus_mt5/execution.py:816-832 | a SELL carries the ticket of the only leg with a ticket that is long, and one only when there is exactly one |
| Hedging.SellMovesExposure | nautilus_mt5/execution.py:804-836 | a SELL moves net exposure by minus its volume in its symbol alone; gross falls when it closes, rises when it opens |
| Hedging.SellFlattens | nautilus_mt5/execution.py:804-836 | selling a long leg's whole volume under its ticket takes exactly that leg out of the book |
| AccountSummaries.ExecutionClient.OnAccountSummary | nautilus_mt5/execution.py:973-1032 | the new values, and the states reported on this event |
| AccountSummaries.ReportsExactly | nautilus_mt5/execution.py:973-1032 | the states reported are exactly those whose total, initial and maintenance margin are the latest values of NetLiquidation, FullInitMarginReq and FullMaintMarginReq, locked the margin up to the total, free the rest, for every named currency with all four tags seen; each once |
| AccountSummaries.OrderIrrelevant | nautilus_mt5/execution.py:973-1032 | runs that agree on the latest values report the same states |
| AccountSummaries.SwapNeighbours | nautilus_mt5/execution.py:973-979 | neighbouring values of different tags or currencies can be swapped |
| AccountSummaries.BalanceAddsUp | nautilus_mt5/execution.py:989-1008 | free plus locked is total, free is not negative, and zero exactly when margin reaches total |
| EaCodec.SplitJoin | nautilus_mt5/metatrader5/ea_sockets.py:106-124 | splitting undoes joining exactly for at least one field and no caret in any |
| EaCodec.JoinSplit | nautilus_mt5/metatrader5/ea_sockets.py:106-124 | joining undoes splitting, always |
| EaCodec.ParseFailsExactly | nautilus_mt5/metatrader5/ea_sockets.py:124-136 | parsing fails exactly below two carets; the later empty-field error is unreachable |
| EaCodec.MadeFields | nautilus_mt5/metatrader5/ea_sockets.py:97-122 | the fields of a made message are the command, the sub-command and the parameters, in that order |
| EaCodec.ParseMade | nautilus_mt5/metatrader5/ea_sockets.py:97-136 | caret-free parts parse back, empty parameters dropped |
| EaCodec.RoundTrip | nautilus_mt5/metatrader5/ea_sockets.py:97-136 | the exact round trip holds if and only if no part has a caret and no parameter is empty |
| TickPaging.HandleTicksRequest | nautilus_mt5/data.py:585-618 | at most `limit` fetches and ticks, the cache's capacity standing for a limit of zero; each asks for what is missing up to 1000, ending at the least stamp of the page before; the result is all that was fetched, stably sorted, short only after an empty page |
| TickPaging.FetchPages | nautilus_mt5/data.py:598-615 | the loop: each fetch brings a tick or ends it, and only an empty page ends it short of the limit |
| TickPaging.PageHolds | nautilus_mt5/client/market_data.py:480-540 | a page holds exactly the ticks of the rows answered that have a time and the positive prices of their kind: those prices, that time, and the later of it and the clock |
| TickPaging.PageCounts | nautilus_mt5/client/market_data.py:480-540 | a page holds each tick exactly as often as the first rows of the answer, up to the number asked for, give it |
| TickPaging.SortPermutes | nautilus_mt5/data.py:617 | sorting gives a permutation in order of stamps |
| TickPaging.SortIsStable | nautilus_mt5/data.py:617 | ticks with one stamp keep their order |
| TickPaging.EarliestIsLeast | nautilus_mt5/data.py:612-614 | the next page ends at the least stamp of the one before |
| TickPaging.GoesBackIff | nautilus_mt5/data.py:598-615 | a fetch ends before the one it follows exactly when some answered row converts with both its clock reading and its own time before that end |
| TickPaging.NeverBeforeClock | nautilus_mt5/client/market_data.py:515-540 | if the clock never reads before a time, every fetch but the first ends at that time or later |
| TickPaging.JumpsForward | nautilus_mt5/data.py:598-615 | a run asked for a past end whose second page is asked up to the present |

## Left out

- JSON encoding and decoding of wire messages, sockets, WebSockets, RPyC, the MetaTrader5 package, logging and configuration: foreign I/O. The model starts from parsed messages, and asyncio scheduling appears as interleaving of steps.
- Float prices: prices are reals; instrument rounding (`make_price`, `make_qty`), NaN and infinities are not modelled.
- Unicode: upper-casing covers ASCII letters, and the blanks stripped are those of Latin-1.
- FeedProtocol.SubscriptionConvergence: one kind of key at a time; a hello prompted by the other kind is an unprompted hello of the service. The hello's own wait in the start routine, with its timeout, is the steps `StartReplay` and `StopBegin`.
- FeedProtocol.CleanUnlessStale: computing a replay and sending its first command are two steps here and one stretch in the source, so the model also allows an unsubscribe between them.
- FeedEcho.EchoQuiesces: covers the exchange left alone; user commands, drops and further spontaneous hellos are part of the executions leading up to it, not of the exchange.
- FeedClient.FeedDataClient.ReplayPendingBars: the source sorts the pending keys before grouping; the order of commands and of symbols in a command is left open.
- FeedClient.FeedDataClient.Receive: instruments are a fixed cache, so instruments added or removed during a run are not covered.
- `InboundFeedHandler.reset` and `handle_raw`: clearing everything, and parsing before handling.
- Strategy-side checks around subscriptions (venue profile, trade ticks) and the polling feed without the service.
- ClientRequests.OneSubscriptionPerName: the subscription's own handler and cancellation calls to the bridge are opaque, and a re-subscription after degradation is not modelled.
- ClientRequests.GoneForGood: the retry after a refused add in `client/symbol.py` (lines 82-88), which removes the id and registers it again; its name holds the fresh id, so the add is not refused.
- ClosedBars.BarProcessor.ProcessBarData: instruments are assumed cached; the source raises for a missing one after having kept the bar. The end of a bar's period is given with the bar, so day bars dated YYYYMMDD are not converted here.
- ExecJoin.OneCallIff: ids spelled like the inner dictionary's own keys are excluded, as they are popped for real (ExecJoin.ForgottenExactly); ExecJoin.ExactlyOneCall holds for them too.
- What the execution client makes of an order's return code (accepted, filled, rejected events).
- Registration of event handlers by name is one set; which callback is registered is not distinguished.
- Hedging: volumes are reals and the venue's choice of fills is an input; a SELL larger than its leg, which the venue refuses, is not a fill. BUY orders never carry a ticket.
- AccountSummaries.BalanceAddsUp: amounts are exact; the source rounds total, free and locked each to the currency's precision (`Money`) before the balance is checked.
- AccountSummaries: values that are not numbers are left out; the source stores them as text and then fails to compare them.
- TickPaging.HandleTicksRequest: paging with a start, which has no decreasing end in the source, is left out; the clock reading of each row is given with the row.
- Reconnection and the watchdog of the client, `get_positions` and `get_open_orders` freshness, order modification, order lists and reports: no clean invariant, or only easy members.
- `homologation/`, `examples/`, configuration, venue profiles and factories: scripts and lookups.
