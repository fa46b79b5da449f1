# A verified model of the trading benchmark

The repository is a benchmark for matching engines: bots send orders (over REST or FIX 4.4) to a
contestant's engine in a sandbox, a kernel probe measures round trips, telemetry turns metrics into
scores, and a leaderboard ranks the sessions. This project models its state-changing core in Dafny
and proves what that core is for. `dafny verify dfyconfig.toml` checks everything.

Code that works step by step is modelled as classes and methods whose contracts tie the new state to
a function or relation on values; the theorems about every run, history or interleaving are lemmas
about those values.

| modules | what they model |
|---|---|
| Matching, OrderBooks, Venue | `OrderBook.match`: on values, on mutable order objects, and for all symbols at once |
| PriceTime, Validators | the price-time validator: by definition, and as insertion by swaps with an early-exit scan |
| EngineMeetsValidator, EngineVerdicts, EngineValidatorRuns | engine and validator driven together: the verdicts counted, when there is no violation, and runs, also rejected ones |
| FixCodec, FixSession | FIX 4.4 printing, framing, parsing, and both ends of a session |
| Publisher, FleetRun | the batching publisher, and the fleet's spawn/wait/close protocol on all interleavings |
| FlowTracker, KernelEvents | the eBPF flow table over packet traces, and the 40-byte event record |
| Scoring, CompositeScore, ScoringEngine | the per-session fold, the score, and the engine under its three readers |
| Consumer | the metrics consumer's batching, alone and with the engine |
| SandboxRegistry | the sandbox manager's two maps under any interleaving of launches and ends |
| Leaderboard | the hub's last-write-wins maps and the ranked snapshot |
| Sequences, Options, Lexical | shared facts about sequences, optional values, decimals and splitting |

Conventions. Prices and scores are reals. Clocks, arrival stamps, random draws, percentiles, the
logarithm, Docker's answers and the outcome of Kafka writes are parameters or inputs. `sort.Slice` is
any rearrangement in the comparator's order, so nothing depends on a stable sort; its body here is an
insertion, of which callers see only that contract. A `char` of the FIX model stands for one byte.

## Results worth knowing

* **When engine and validator agree.** The repository never connects the two (lines 99-101 of
  telemetry/internal/scorer/composite.go reserve the validator), so the driver is this model's: record
  each order, match it, report both parties of every fill, in an order chosen for each fill. For orders of
  arbitrary price, quantity and arrival stamp with distinct ids, `RunVerdicts` counts the violations
  exactly, and `NoViolationIff` says when there are none: each order that trades must beat every order
  still open on its own side, and must consume makers in the validator's order. Limit orders always do
  the first (`LimitOrderIsBest`), and the second if stamps agree with the order of matching
  (`InOrderIsFair`); then every report is accepted (`LimitOrdersAccepted`). Stamps are taken before
  the book's lock (dummy-engine/main.go lines 142-152), so they need not agree: `LimitOrdersIff` is the
  exact condition without that assumption. `MarketOrderRejected` and `SwappedStampsRejected` exhibit
  rejected runs for either half.
* **A FIX stream splits back if and only if** no header or body field has a tag ending in 10 and no
  value contains `10=`: the reader takes the first chunk containing `10=` for the trailer. An order
  whose symbol contains `10=` loses its quantity (`MarkedSymbolCutsOrder`, `CutOrderTags`). A whole
  session of a client's logon and orders is answered report by report (`ConversationIsAnswered`).
* **The first message of a session carries MsgSeqNum 2**: both ends start the counter at 1 and bump it
  before use (botfleet/internal/worker/fix_client.go lines 70 and 141; dummy-engine/main.go lines 225
  and 312; `FirstNumberIsTwo`). FIX 4.4 starts at 1. Numbers then rise by one.
  Neither reader checks BodyLength, CheckSum or MsgSeqNum; `FrameIsIntact` and `SessionIsIntact`
  are about what is sent.
* **The fleet cannot hang in a send.** The bots' sends do not watch the context (archetypes.go lines 47 to
  327), so a bot at a full channel waits for the publisher; `NeverStuck` and `CanReturn` show that it gets
  on in every reachable state, `ReturnIsComplete` that nothing it came to send is lost.
* **A score can leave [0, 100].** Scores are computed without the lock that guards the fields. On one state
  of the run they are in range (`ScoresInRange`, `HistoryInRange`); when a delivery comes between two
  reads they need not be (`TornReadIff`, `TornTotalUnbounded`).
* **`parseEvent` guards for 32 bytes but reads 40**: `RecordDecidesIff` shows that records of 32 to 39
  bytes panic or read past their end, and no others do.
* **What the consumer loses.** If the select sees the cancellation, nothing. If a read fails, exactly the
  messages behind the last full batch of 64 since the last tick, because that path returns without
  flushing (telemetry/internal/consumer/consumer.go lines 124-127); so nothing is lost if and only if a
  multiple of 64 was decoded since then (`LosslessIff`). A cancellation that arrives while the loop waits
  in a read is such a failed read. `FailedReadLoses` is the smallest loss.
* **The registry is sound on every run but complete only for distinct addresses**
  (`AlwaysCompleteIff`); on the host network every sandbox has the same address, and
  `SharedAddressHides` ends one sandbox and hides another.
* **Batching never matters to a session's name, fills, maxima, archetypes and app latencies**, on any
  interleaving of the three readers (`SessionOverAnyRun`, `BatchingDoesNotMatter`). It does matter to the
  score history: that has one point for each delivery that reached the session, up to 30
  (`HistoryCountsDeliveries`), so two splits agree on its length exactly when those numbers agree or both
  reach 30 (`HistoriesAgreeIff`). Kernel records count as orders too: orderCount is the number of metrics
  plus the number of kernel records.
* **Documentation that the code does not follow.** The comment on `normalizeResilience`
  (composite.go line 332) promises 100 for recovery under 100 ms and degradation under 1.5; the code reaches
  100 only for a negative recovery time (`FullResilienceIff`). The repository's README gives other formulas
  for correctness (lines 62 and 264), tail latency (line 244) and resilience (line 254).
  `DocumentedCorrectnessIff`, `DocumentedTailLatencyIff` and `DocumentedResilienceIff` say where the code
  agrees with them: for correctness without violations only when every fill is correct, for tail latency
  nowhere from 1 ms to 100 ms, for resilience only in single points or when both are 0. The model follows
  the code.

## Model

| member | source | states |
|---|---|---|
| Matching.SweepFillsExactly | dummy-engine/main.go:79-93 | the matching loop fills exactly min(max(qty, 0), everything opposite at acceptable prices), on any sorted positive side |
| Matching.SweepTakesPrefix | dummy-engine/main.go:80-93 | the orders met are a prefix of the opposite side, each used up except possibly the last, which stays at the head with the remainder |
| Matching.SweepStopsRight | dummy-engine/main.go:80-84 | if the taker is left with something, nothing acceptable remains anywhere on the opposite side |
| Matching.SweepTouchesAcceptable | dummy-engine/main.go:82-84 | no fill is at a price the limit refuses; a limit of zero or less refuses none |
| Matching.SweepReportsWorst | dummy-engine/main.go:86 | the price returned is the worst one touched |
| Matching.ConsumesIff | dummy-engine/main.go:80-93 | which resting orders a loop consumes, told before the call: those at acceptable prices with less in front of them than the taker asks for |
| Matching.MatchFillsExactly | dummy-engine/main.go:75-119 | exact amount, prefix, acceptable prices and worst price together, for either direction |
| Matching.CallReturns | dummy-engine/main.go:75-93 | what a call returns, told before it: the price of the last order the loop consumes, and price and amount 0 exactly when it consumes none |
| Matching.MarketOrderTakesAll | dummy-engine/main.go:80-92 | an order with a limit of zero or less takes all it asked for or everything there is, at any price |
| Matching.LimitBuyKept | dummy-engine/main.go:82-84 | a limit buy pays at most its limit, and if something is left of it all asks left are above the limit |
| Matching.LimitSellKept | dummy-engine/main.go:101-103 | a limit sell gets at least its limit, and if something is left of it all bids left are below the limit |
| Matching.MatchKeepsUncrossed | dummy-engine/main.go:75-119 | after a match every bid is strictly below every ask |
| Matching.MatchKeepsBook | dummy-engine/main.go:75-119 | one match keeps both sides sorted by price then arrival, positive and uncrossed, whatever the order's price or quantity |
| Matching.RunKeepsBook | dummy-engine/main.go:75-119 | the book invariant after every run of orders on an empty book |
| Matching.RunIsPriceTime | dummy-engine/main.go:404-420 | over all runs bids fall and asks rise in price, and within a price earlier orders come first |
| Matching.SweepConserves | dummy-engine/main.go:84-92 | what leaves the opposite side is what the taker received, with no assumption on the side |
| Matching.MatchConserves | dummy-engine/main.go:84-117 | one match takes the same amount off both sides and adds only the order's own positive quantity |
| Matching.RunConserves | dummy-engine/main.go:84-117 | over any run, submitted = resting + traded on each side, with the same traded amount |
| OrderBooks.SortSlice | dummy-engine/main.go:404-420 | an unstable sort: the same order objects, rearranged, in the comparator's order |
| OrderBooks.RestOn | dummy-engine/main.go:94-97 | appending and sorting rests the taker on its side as the value-level step allows |
| OrderBooks.TradeHead | dummy-engine/main.go:81-92 | one iteration on shared order objects fills the smaller quantity, decrements both, and drops the head only when used up |
| OrderBooks.SweepQueue | dummy-engine/main.go:80-93 | the in-place loop computes the value-level sweep: remaining side, taker's rest, last price, total quantity |
| OrderBooks.MatchLists | dummy-engine/main.go:79-118 | both branches end in a book allowed by the value-level match and keep its invariant |
| OrderBooks.OrderBook.constructor | dummy-engine/main.go:69-73 | a new book is empty and valid |
| OrderBooks.OrderBook.Match | dummy-engine/main.go:75-119 | on objects: the invariant is kept, no order object occurs twice, price, amount and both sides are those of the value-level match, the price is 0 when nothing was filled and else that of an opposite order, and no foreign object enters the book |
| Venue.StepTouchesOneBook | dummy-engine/main.go:121-126 | a request matches on its own symbol's book and leaves all other books unchanged |
| Venue.SymbolsAreIndependent | dummy-engine/main.go:121-152 | under any interleaving of symbols each book goes through a run of exactly its own orders |
| Venue.VenueKeepsBooks | dummy-engine/main.go:121-152 | hence every book of the venue is sorted, positive, uncrossed, and balances its own submissions |
| PriceTime.RecordKeepsShadow | telemetry/internal/scorer/validator.go:44-57 | recording keeps both sides strictly ranked and every order on its side |
| PriceTime.FillKeepsShadow | telemetry/internal/scorer/validator.go:61-103 | so does judging a fill |
| PriceTime.UnknownFill | telemetry/internal/scorer/validator.go:67-73 | a fill for an id never recorded is a violation and changes nothing else |
| PriceTime.BidFill | telemetry/internal/scorer/validator.go:75-103 | the verdict on a bid, the first with its id: correct exactly when no unfilled bid has a higher price, or the same price and an earlier number; marked either way |
| PriceTime.AskFill | telemetry/internal/scorer/validator.go:75-103 | the same for an ask whose id no bid has, with lower prices first |
| PriceTime.RunKeepsShadow | telemetry/internal/scorer/validator.go:44-103 | over every run, duplicate ids included: each side is strictly ranked and is, marks aside, a rearrangement of all orders ever recorded on it; total = correct + violations = number of fills |
| PriceTime.RunIsRanked | telemetry/internal/scorer/validator.go:126-152 | after every run bids fall and asks rise in price, strictly, or by order of record |
| Validators.SwapIntoPlace | telemetry/internal/scorer/validator.go:126-152 | append-and-swap puts the order at the one place its rank allows and moves no other order relative to the rest |
| Validators.Insert | telemetry/internal/scorer/validator.go:126-152 | insertion keeps the side strictly ranked and adds exactly this order |
| Validators.FindOn | telemetry/internal/scorer/validator.go:112-124 | the search returns the first order with the id, or reports none |
| Validators.ScanIsComplete | telemetry/internal/scorer/validator.go:76-97 | looking only at the orders before an order decides the same as looking at the whole side |
| Validators.Scan | telemetry/internal/scorer/validator.go:76-97 | the early-exit scan answers yes exactly when nothing unfilled anywhere on the side has better priority |
| Validators.FillOn | telemetry/internal/scorer/validator.go:76-102 | verdict of the scan, and exactly this order object gets marked |
| Validators.Validator.constructor | telemetry/internal/scorer/validator.go:39-41 | a new validator holds the empty shadow book |
| Validators.Validator.RecordOrder | telemetry/internal/scorer/validator.go:44-57 | the objects follow the value-level recording: next sequence number, own side, ranked |
| Validators.Validator.RecordFill | telemetry/internal/scorer/validator.go:61-103 | true exactly when the id is known and no unfilled order on its side has better price or, at equal price, earlier arrival; the counters and the mark follow the definition |
| Validators.Validator.Stats | telemetry/internal/scorer/validator.go:106-110 | returns the counters of the shadow book |
| EngineMeetsValidator.Attribution | telemetry/internal/scorer/validator.go:67-68 | with distinct ids, a reported fill is attributed to the very order submitted under that id |
| EngineMeetsValidator.Verdict | telemetry/internal/scorer/validator.go:75-102 | the verdict depends only on prices and order of record of the orders still open on the same side |
| EngineMeetsValidator.MakerIsFirstIff | dummy-engine/main.go:81-92 | the resting order at the head is the validator's first choice if and only if no open order of equal price on its side was recorded before it, whatever the stamps |
| EngineMeetsValidator.PairsAccepted | dummy-engine/main.go:80-112 | of a whole matching loop's reports exactly those of first-choice makers are accepted, and the taker's either every time or never |
| EngineMeetsValidator.FairIff | telemetry/internal/scorer/validator.go:75-97 | whether a maker will be the validator's first choice when its turn comes can be read off the shadow book before the call |
| EngineMeetsValidator.EngineStep | dummy-engine/main.go:75-119 | the makers are the first orders of the opposite side, and after the match every open order that asked for something still rests in the book |
| EngineMeetsValidator.ValidatorStep | telemetry/internal/scorer/validator.go:44-103 | recording and any list of reports move the counters by exactly the accepted and the other reports |
| EngineMeetsValidator.StepVerdict | dummy-engine/main.go:75-119 | one recorded, matched and reported order keeps the link between book and shadow book; it is charged one violation per unfair maker, and one per fill if it is not the best on its own side |
| EngineMeetsValidator.RunVerdicts | dummy-engine/main.go:75-119 | the exact number of violations after every run, for arbitrary prices, quantities and stamps |
| EngineVerdicts.TradesIff | dummy-engine/main.go:80-84 | an order trades exactly when the loop's guards hold at its start |
| EngineVerdicts.NoViolationIff | telemetry/internal/scorer/validator.go:59-103 | no violation if and only if each order that passes the guards beats all open orders of its own side, and the makers that the guards of the loop let it consume are fair; all of it is told from the state before the call |
| EngineVerdicts.LimitOrderIsBest | dummy-engine/main.go:82-84 | a limit order that trades beats all open orders of its own side |
| EngineVerdicts.MakersFairIff | dummy-engine/main.go:80-93 | the makers so picked before the call are those of the fills the call makes |
| EngineVerdicts.LimitOrdersIff | telemetry/internal/scorer/validator.go:59-103 | for limit orders with arbitrary stamps: no violation if and only if all makers so picked are fair |
| EngineVerdicts.InOrderIsFair | dummy-engine/main.go:404-420 | stamps in the order of matching make every resting order fair |
| EngineVerdicts.LimitOrdersAccepted | telemetry/internal/scorer/validator.go:59-103 | for every run of limit orders stamped in the order of matching the validator accepts every fill of the engine, for both parties |
| EngineValidatorRuns.MatchExists | dummy-engine/main.go:75-119 | every match has an outcome |
| EngineValidatorRuns.RunExists | dummy-engine/main.go:75-119 | every list of orders with any reporting choices has a run of engine and validator |
| EngineValidatorRuns.MarketOrderRejected | dummy-engine/main.go:82-84 | three orders whose run exists and whose market order is charged exactly one violation on every run |
| EngineValidatorRuns.SwappedStampsRejected | dummy-engine/main.go:142-152 | three limit orders, two with stamps against the order of matching, whose run exists and is never free of violations |
| Lexical.DecimalRoundTrip | botfleet/internal/worker/fix_client.go:145-150 | printing a number and reading its digits back are inverse |
| Lexical.Pad3RoundTrip | botfleet/internal/worker/fix_client.go:151 | so are printing with three digits and reading |
| Lexical.DecimalDigits | botfleet/internal/worker/fix_client.go:145-150 | numbers are printed in the usual digits, most significant first |
| Lexical.Pad3Digits | botfleet/internal/worker/fix_client.go:151 | three digits with leading zeros |
| Lexical.ScanDecimal | botfleet/internal/worker/fix_client.go:196-199 | the integer scanner returns a printed tag, and fails exactly above 64-bit range |
| Lexical.ScanSigned | botfleet/internal/worker/fix_client.go:196-199 | blanks and a sign before a number and anything but a digit behind it do not disturb the scanner; numbers beyond 64 bits fail |
| Lexical.ScanNothing | botfleet/internal/worker/fix_client.go:196-199 | without a digit behind blanks and sign the scanner fails |
| FixCodec.MarkInField | botfleet/internal/worker/fix_client.go:166 | a field's text contains the reader's mark exactly when its tag ends in 10 or its value contains the mark |
| FixCodec.ReadField | botfleet/internal/worker/fix_client.go:157-171 | the reader consumes a printed field as one chunk and stops there exactly when it trips |
| FixCodec.ReadBackIff | botfleet/internal/worker/fix_client.go:157-171 | fields ended by a trailer-like one are read back whole, from any stream, if and only if no earlier one trips |
| FixCodec.MessageReadBackIff | dummy-engine/main.go:311-345 | the same for a framed message |
| FixCodec.StreamSplitsIff | dummy-engine/main.go:332-345 | reading the concatenation of any list of messages gives exactly those messages in order, if and only if none of their fields trips |
| FixCodec.CutShortIsEof | dummy-engine/main.go:332-338 | a message cut short by the end of the stream is not returned |
| FixCodec.ParseFields | botfleet/internal/worker/fix_client.go:189-202 | parsing printed fields gives their tag map; values may even hold `=` |
| FixCodec.PartsInTurn | botfleet/internal/worker/fix_client.go:189-202 | for any text, printed or not: the parts are taken one after the other |
| FixCodec.NoEqualsSkipped | botfleet/internal/worker/fix_client.go:192-195 | a part without `=` is skipped |
| FixCodec.PartCounts | botfleet/internal/worker/fix_client.go:192-199 | any other part is cut at its first `=` and counts exactly if a number stands in front |
| FixCodec.CollectIsLast | botfleet/internal/worker/fix_client.go:198 | of repeated tags the last value counts; no other tag appears |
| FixCodec.MessageParses | dummy-engine/main.go:351-364 | a framed message parses to its header, body and trailer fields |
| FixCodec.ByteSumConcat | botfleet/internal/worker/fix_client.go:181-187 | the byte sum of two texts in a row is the sum of theirs |
| FixCodec.ByteSumOne | botfleet/internal/worker/fix_client.go:181-187 | the byte sum of one byte is its value, be it a separator or not |
| FixCodec.FrameIsIntact | dummy-engine/main.go:320-326 | every framed message passes a receiver's BodyLength and CheckSum checks of FIX 4.4 Volume 2, which share nothing with the printer but the byte sum |
| FixSession.FixWriter.constructor | botfleet/internal/worker/fix_client.go:64-70 | a session starts with counter 1 and nothing sent |
| FixSession.FixWriter.Checksum | botfleet/internal/worker/fix_client.go:181-187 | the loop computes the byte sum modulo 256 |
| FixSession.FixWriter.SendMsg | botfleet/internal/worker/fix_client.go:140-155 | the bytes on the wire are always the messages sent so far, numbered consecutively |
| FixSession.HeaderBytes | dummy-engine/main.go:311-318 | the bytes of header and body: type, sender, target, number and time in this order, then the body |
| FixSession.FrameBytes | dummy-engine/main.go:319-326 | the bytes around them: begin string, length, and the byte sum of all before it modulo 256 in three digits |
| FixSession.FixReader.ReadMsg | botfleet/internal/worker/fix_client.go:157-171 | the reading loop returns the value-level message and leaves exactly the rest, or ends with the stream |
| FixSession.ParseMessage | botfleet/internal/worker/fix_client.go:189-202 | the parsing loop computes the value-level tag map |
| FixSession.SessionReadBack | botfleet/internal/worker/fix_client.go:140-171 | whatever is sent with the tags in use and separator-free values is read back message by message |
| FixSession.ParsedExactly | dummy-engine/main.go:351-364 | with distinct tags the parser returns each header, body and trailer field with its value, and nothing else |
| FixSession.AwaitReport | botfleet/internal/worker/fix_client.go:113-130 | the waiting loop stops right behind the first message that answers, or at the end of the stream |
| FixSession.AwaitFinds | botfleet/internal/worker/fix_client.go:121-129 | messages that do not answer are drained and the first that does ends the wait |
| FixSession.WaitEndsIff | botfleet/internal/worker/fix_client.go:121-129 | of messages with an order id exactly the execution reports for this order end a wait |
| FixSession.HandleConn | dummy-engine/main.go:222-258 | the acceptor's loop over a connection writes exactly the specified answers to the stream, up to its end or a logout |
| FixSession.OrderTags | dummy-engine/main.go:260-266 | what the acceptor reads off an order, both of its clock readings included, is what the client put on it, for limit and market orders |
| FixSession.OrderIsReadBack | dummy-engine/main.go:229-233 | the acceptor cuts the order out of its stream whatever follows |
| FixSession.OrderIsReported | dummy-engine/main.go:260-308 | the acceptor's answer is the report the order calls for in its own terms, addressed to the client: open if a limit order rests, else filled at its limit or the fixed price |
| FixSession.ReportTags | dummy-engine/main.go:260-308 | what the client reads off the report, tag by tag, for a resting and for a filled order |
| FixSession.ReportEndsWait | botfleet/internal/worker/fix_client.go:113-130 | a report ends the wait for its order exactly behind it |
| FixSession.OrderRoundTrip | dummy-engine/main.go:260-308 | end to end: serving an order sends its report first, and the client's wait ends right behind it |
| FixSession.LogonIsAnswered | dummy-engine/main.go:242-243 | a logon is answered by a logon the other way |
| FixSession.LogonIsDrained | botfleet/internal/worker/fix_client.go:113-129 | no wait takes a logon for a report |
| FixSession.HeartbeatIsAnswered | dummy-engine/main.go:244-250 | a heartbeat is answered by a heartbeat the other way with the same test request id, without one if there was none |
| FixSession.LogoutEndsServing | dummy-engine/main.go:251-253 | a logout is answered and nothing behind it is read |
| FixSession.OthersAreIgnored | dummy-engine/main.go:241-256 | a message of any other type is skipped and uses up no number |
| FixSession.OrdersAreAnswered | dummy-engine/main.go:227-257 | for every list of orders the acceptor's output is the reports in turn and nothing else, and each successive wait ends at its own report |
| FixSession.ConversationIsAnswered | botfleet/internal/worker/fix_client.go:56-131 | the same for a whole session that starts with a logon, whose answer every wait drains |
| FixSession.MessageIsIntact | dummy-engine/main.go:311-330 | a sent message passes both checks and carries its number in tag 34 |
| FixSession.SessionIsIntact | botfleet/internal/worker/fix_client.go:140-155 | message i of a session is intact and numbered one above its predecessor |
| FixSession.FirstNumberIsTwo | botfleet/internal/worker/fix_client.go:141 | the first message of every session carries 2 in tag 34 |
| FixSession.MarkedSymbolCutsOrder | dummy-engine/main.go:332-345 | every order whose symbol contains `10=` is cut behind the symbol, wherever it stands in the stream |
| FixSession.CutOrderTags | dummy-engine/main.go:260-266 | the acceptor takes the cut message for an order of that symbol without a quantity |
| Publisher.PublishedExactly | botfleet/internal/worker/fleet.go:178-207 | when everything marshals, metric i becomes the pair of metrics and replay message at 2i and 2i+1 with replay_seq i+1 |
| Publisher.PublishedAt | botfleet/internal/worker/fleet.go:182-207 | whatever other metrics cannot be marshalled: a metric with a finite price becomes its pair behind those of the finite ones before it, numbered by its place among all |
| Publisher.CompleteIff | botfleet/internal/worker/fleet.go:186-202 | the number of messages is even, and complete exactly when every metric marshals |
| Publisher.TakenKeepsExact | botfleet/internal/worker/fleet.go:178-210 | one receive keeps written ++ batch equal to everything published so far, and the batch even and at most 256 |
| Publisher.FlushesAt256 | botfleet/internal/worker/fleet.go:204-210 | a receive flushes exactly when it fills the batch up to 256 messages |
| Publisher.FlushedKeepsExact | botfleet/internal/worker/fleet.go:161-174 | a flush keeps it too and leaves everything written |
| Publisher.MetricsPublisher.constructor | botfleet/internal/worker/fleet.go:155-159 | the publisher starts empty and exact |
| Publisher.MetricsPublisher.Flush | botfleet/internal/worker/fleet.go:161-174 | a batch is handed over once, in order, and emptied |
| Publisher.MetricsPublisher.Receive | botfleet/internal/worker/fleet.go:178-210 | the loop's receive case keeps counters and messages exact |
| Publisher.MetricsPublisher.PublishMetrics | botfleet/internal/worker/fleet.go:155-216 | for every sequence of receives and ticks up to the close: everything received is written, in order, and the batch is empty |
| Publisher.TakenInIs | botfleet/internal/worker/fleet.go:176-214 | what a loop takes in: every metric up to the close; ticks bring nothing and end nothing |
| FleetRun.StepKeepsInv | botfleet/internal/worker/fleet.go:81-150 | every atomic step keeps the protocol invariant |
| FleetRun.RunKeepsInv | botfleet/internal/worker/fleet.go:81-216 | so it holds on every interleaving of spawning, bots and publisher; a bot that came to a send stands there until the channel takes its metric, and may return at any other moment, which covers the end of the run's time and cancellation |
| FleetRun.ShutdownIsSafe | botfleet/internal/worker/fleet.go:81-120 | no send ever meets a closed channel, and 0 <= activeCount <= wait-group count at every moment |
| FleetRun.SendWaitsIff | botfleet/internal/worker/fleet.go:91-92 | a send waits exactly while the channel holds 65536 metrics |
| FleetRun.StampIs | botfleet/internal/worker/fleet.go:197 | the active count stamped on a metric is the number of bots that have not begun to return at the moment it is read, which comes after the receive |
| FleetRun.AllSpawned | botfleet/internal/worker/fleet.go:110-150 | exactly the bots of the fleet are started, and all are gone at the return |
| FleetRun.ReturnIsComplete | botfleet/internal/worker/fleet.go:103-107 | when Run returns, every metric a bot came to send has been sent, received in order, and its messages are written; no bot is active |
| FleetRun.NothingMissingIff | botfleet/internal/worker/fleet.go:186-202 | at that point no message is missing exactly when every metric sent marshals |
| FleetRun.NeverStuck | botfleet/internal/worker/fleet.go:94-107 | no reachable state is a deadlock, although sends do not watch the context: until Run has returned some step is possible that is neither a tick nor a bot coming to another send; for a bot in a send it is the send or, on a full channel, a receive |
| FleetRun.StepsLead | botfleet/internal/worker/fleet.go:94-120 | every step but a tick and a bot coming to another send strictly lowers what is left to do; a bot in a send has that send and its receive ahead of it |
| FleetRun.CanReturn | botfleet/internal/worker/archetypes.go:47 | from every reachable state the run can return within that many steps, without any bot coming to another send; what has been sent by then is what was sent before plus the metrics of the bots that stood in a send |
| FlowTracker.Tracker.constructor | sandbox/internal/ebpf/bpf/tc_latency.c:48-60 | the table and the event buffer start empty |
| FlowTracker.Tracker.TcIngress | sandbox/internal/ebpf/bpf/tc_latency.c:111-119 | an ingress stamps its flow and emits nothing |
| FlowTracker.Tracker.TcEgress | sandbox/internal/ebpf/bpf/tc_latency.c:124-167 | stale stamps are dropped, a full buffer leaves the stamp, otherwise one event is appended and the stamp taken out |
| FlowTracker.TableIsLive | sandbox/internal/ebpf/bpf/tc_latency.c:117-165 | whatever is in the table is an ingress of that flow that nothing has ended |
| FlowTracker.LiveIsInTable | sandbox/internal/ebpf/bpf/tc_latency.c:117-165 | and every such ingress is in the table |
| FlowTracker.EventPairs | sandbox/internal/ebpf/bpf/tc_latency.c:138-165 | over every trace with arbitrary evictions, an event carries the time of the latest ingress of its flow; rtt = egress − ingress, between 0 and 5 s |
| FlowTracker.OneEventPerIngress | sandbox/internal/ebpf/bpf/tc_latency.c:165 | no ingress yields two events |
| FlowTracker.EmitsIff | sandbox/internal/ebpf/bpf/tc_latency.c:138-165 | an egress emits exactly when a live ingress of the flow with addresses and ports swapped is at most 5 s old and the buffer has room |
| FlowTracker.TimedIff | sandbox/internal/ebpf/bpf/tc_latency.c:111-167 | over every trace with arbitrary evictions and full buffers, in terms of packets: an event comes out exactly for a response with addresses and ports of its request swapped, whose stamp nothing took away, within 5 s and with room; flow, times and difference written out |
| KernelEvents.RoundTrip16 | sandbox/internal/ebpf/prober.go:211 | 16-bit decode and encode are inverse both ways |
| KernelEvents.RoundTrip32 | sandbox/internal/ebpf/prober.go:212-214 | the same for 32 bits |
| KernelEvents.RoundTrip64 | sandbox/internal/ebpf/prober.go:215-217 | the same for 64 bits |
| KernelEvents.ToIpInjective | sandbox/internal/ebpf/prober.go:218-220 | the printed address determines the address |
| KernelEvents.LayoutPieces | sandbox/internal/ebpf/bpf/tc_latency.c:34-44 | every field stands at its offset of the kernel's struct |
| KernelEvents.DecodeLayout | sandbox/internal/ebpf/prober.go:177-187 | decoding undoes the layout, whatever the padding |
| KernelEvents.LayoutDecode | sandbox/internal/ebpf/prober.go:177-187 | laying out a decoded record gives its bytes back |
| KernelEvents.EventRoundTrip | sandbox/internal/ebpf/prober.go:172-201 | every event passes through parseEvent unchanged, and different events come out different |
| KernelEvents.PublishedBytes | sandbox/internal/ebpf/prober.go:172-220 | what is published of a record, in terms of its bytes: addresses in dotted decimal, ports and the three times with the low byte first, at their offsets |
| KernelEvents.ShortRecords | sandbox/internal/ebpf/prober.go:172-187 | below 32 bytes an error with the length; a panic exactly from 32 bytes on when the buffer holds fewer than 40 |
| KernelEvents.RecordDecidesIff | sandbox/internal/ebpf/prober.go:172-187 | the result depends on the record alone exactly for lengths below 32 or from 40 on |
| Scoring.RecordAllConcat | telemetry/internal/scorer/composite.go:88-138 | folding two batches one after the other is folding their concatenation |
| Scoring.SessionsAreIndependent | telemetry/internal/scorer/composite.go:88-138 | what a batch does to a session depends only on the session's own metrics in it |
| Scoring.FoldedIsSummary | telemetry/internal/scorer/composite.go:88-117 | a session that received some metrics holds their number, their fills and correct fills, the first team name, the largest bot count, the archetype counts and the recorded latencies |
| Scoring.FillsAre | telemetry/internal/scorer/composite.go:102-107 | fills are the metrics with a price or a quantity, correct fills those of them marked correct |
| Scoring.OrdersAre | telemetry/internal/scorer/composite.go:112-117 | orders are all metrics; each archetype but the empty one is counted |
| Scoring.NamesAre | telemetry/internal/scorer/composite.go:90-92 | the team name is the first that is not empty |
| Scoring.BotsAre | telemetry/internal/scorer/composite.go:108-110 | the bot count is the largest reported, at least 0 |
| Scoring.LatenciesAre | telemetry/internal/scorer/composite.go:94-101 | each histogram gets every positive latency as often as it came |
| Scoring.KernelRecordLeaves | telemetry/internal/consumer/consumer.go:139-179 | a kernel record leaves an order, and its time if it is positive as a signed 64-bit number, and nothing else |
| ScoringEngine.SectionOnSession | telemetry/internal/scorer/composite.go:86-188 | what each locked section does, seen from one session |
| ScoringEngine.ExistsIff | telemetry/internal/scorer/composite.go:296-307 | a session exists exactly when some metric, kernel record or chaos event of it has come |
| ScoringEngine.BotPartIs | telemetry/internal/scorer/composite.go:88-117 | name, fills, largest bot count, archetype counts and app times are those of the metrics topic alone, in its order, whatever comes between |
| ScoringEngine.TrafficIs | telemetry/internal/consumer/consumer.go:139-179 | orders and kernel times count metrics and kernel records alike |
| ScoringEngine.HistoryIs | telemetry/internal/scorer/composite.go:149-159 | the score history is the last 30 of all scores the session was given, on any interleaving |
| ScoringEngine.ScoreJoins | telemetry/internal/scorer/composite.go:151-155 | the score just given comes last, up to 29 before it stay in order, older ones go |
| ScoringEngine.HistoryKeeps | telemetry/internal/scorer/composite.go:151-155 | over any run: of all scores given to a session the history is the last 30 |
| ScoringEngine.ChaosIs | telemetry/internal/scorer/composite.go:172-188 | the chaos fields are those of the last start and the last end |
| ScoringEngine.ChaosFieldsAre | telemetry/internal/scorer/composite.go:172-188 | the chaos fields hold time and percentile of the last start and end events, 0 while there was none |
| ScoringEngine.SessionOverAnyRun | telemetry/internal/consumer/consumer.go:90-99 | on every interleaving of the locked sections of the three readers: which sessions exist and what every field of a session holds |
| ScoringEngine.BatchingDoesNotMatter | telemetry/internal/scorer/composite.go:86-165 | two runs that bring a session the same metrics, batched in any way, agree on everything that comes from the metrics topic; on the order count exactly when as many kernel records came |
| ScoringEngine.HistoryCountsDeliveries | telemetry/internal/scorer/composite.go:141-163 | for every list of calls, publication failures included, the history has min(30, number of deliveries that reached the session) points |
| ScoringEngine.FinishedReaches | telemetry/internal/scorer/composite.go:141-163 | a delivery not cut short by a failed publication reaches exactly the sessions it has metrics of |
| ScoringEngine.TouchedInOrder | telemetry/internal/scorer/composite.go:141-147 | sessions are scored in the order of their first metrics in the delivery |
| ScoringEngine.HistoriesAgreeIff | telemetry/internal/scorer/composite.go:149-159 | two lists of calls leave histories of equal length if and only if those numbers agree or both are at least 30 |
| ScoringEngine.HistoryDependsOnBatching | telemetry/internal/scorer/composite.go:149-159 | two lists of calls with the same metrics, all published, that leave one point and two |
| ScoringEngine.Engine.constructor | telemetry/internal/scorer/composite.go:71-83 | a new engine has no session |
| ScoringEngine.Engine.Handle | telemetry/internal/scorer/composite.go:86-165 | one delivery by itself is the specified sections: all metrics recorded, then sessions scored in order of first appearance with the computed total of their recorded state, up to a failed publication |
| ScoringEngine.TotalIs | telemetry/internal/scorer/composite.go:205-235 | the total of a session: 30, 30, 25 and 15 percent of its components, correctness being the share of correct fills |
| ScoringEngine.Engine.HandleChaosEvent | telemetry/internal/scorer/composite.go:172-188 | only this session changes, and there only the two fields of the event's type; everything that comes from metrics stays |
| ScoringEngine.RunKeepsCounters | telemetry/internal/scorer/composite.go:102-117 | on every interleaving correctFills <= totalFills <= orderCount, and the archetype counts sum to at most orderCount |
| ScoringEngine.ScoresInRange | telemetry/internal/scorer/composite.go:191-263 | so a score computed on a state between two sections of any run has all four components and the total in [0, 100], for any count of violations |
| ScoringEngine.HistoryInRange | telemetry/internal/scorer/composite.go:141-159 | if each score given was computed on some earlier state of the run, however many sections came between, every point of every history lies in [0, 100] |
| ScoringEngine.TornReadIff | telemetry/internal/scorer/composite.go:206-213 | the fields are read without the lock: with the fills read at one state and the correct fills at a later one, correctness is in range if and only if there were no fills or the correct fills have not overtaken them |
| ScoringEngine.TornTotalUnbounded | telemetry/internal/scorer/composite.go:206-213 | after n deliveries of one correct fill each, with the fills read after the first, the total exceeds 25 n |
| CompositeScore.PartsAreWorth | telemetry/internal/scorer/composite.go:234-235 | with the other components equal, a point of throughput, tail latency, correctness, resilience is worth 0.30, 0.30, 0.25, 0.15 in the total; equal components give themselves |
| CompositeScore.ThroughputIs | telemetry/internal/scorer/composite.go:205-216 | 100 exactly from 50000 orders a second on, 0 exactly without orders or time, in proportion in between |
| CompositeScore.TailLatencyIs | telemetry/internal/scorer/composite.go:319-330 | 20 points for each power of ten below 100 ms from 1 µs on, 100 up to there, 0 beyond or when nothing was measured |
| CompositeScore.CorrectnessIs | telemetry/internal/scorer/composite.go:210-224 | for c correct ones of f fills and v violations, at most f of which count, 100 c (2f − v) / 2ff; 0 without fills; and the violations reported |
| CompositeScore.ResilienceIs | telemetry/internal/scorer/composite.go:226-232 | 85 without a measured chaos run or one of no time; else the mean of a recovery part, from 100 to 0 over 5 s, and a degradation part, from 100 at the baseline to 0 at three times it |
| CompositeScore.SumBumped | telemetry/internal/scorer/composite.go:115 | counting an archetype raises the sum of the counts by one |
| CompositeScore.ReportedViolations | telemetry/internal/scorer/composite.go:220-247 | the reported violations are min(violations, totalFills) exactly, and the rate lies in [0, 1] |
| CompositeScore.CorrectnessEnds | telemetry/internal/scorer/composite.go:209-224 | correctness is 100 exactly with at least one fill, all correct and no violation, and 0 exactly when no fill was correct |
| CompositeScore.TailLatencyEnds | telemetry/internal/scorer/composite.go:319-330 | for any increasing logarithm the score is 100 exactly for 0 < p99 <= 1 µs and 0 exactly for p99 >= 100 ms or none |
| CompositeScore.FullResilienceIff | telemetry/internal/scorer/composite.go:332-341 | 100 exactly for a negative recovery time and degradation at most 1; where the comment promises 100 the score is strictly between 86.5 and 100 |
| CompositeScore.DocumentedCorrectnessIff | telemetry/internal/scorer/composite.go:218-224 | the documented correctness agrees with the code if and only if violations do not exceed fills and c(2f − v) = 2f(f − v) for c correct ones of f fills and v violations |
| CompositeScore.DocumentedTailLatencyIff | telemetry/internal/scorer/composite.go:318-330 | the documented ramp is 0 from 1 ms on, where the code is positive up to 100 ms; where else they agree |
| CompositeScore.DocumentedResilienceIff | telemetry/internal/scorer/composite.go:332-341 | the exact points at which the documented resilience agrees with the code |
| Consumer.BatchesAndTail | telemetry/internal/consumer/consumer.go:116-136 | while the loop runs, the batches and the tail together are all messages decoded, in order, and deliveries hold 1 to 64 |
| Consumer.StopsAtFirst | telemetry/internal/consumer/consumer.go:116-131 | the loop stops at the first cancelled select or failed read and passes over what cannot be decoded |
| Consumer.MessagesAre | telemetry/internal/consumer/consumer.go:124-133 | what is decoded: of every turn with a message that message, in order |
| Consumer.TickDelivers | telemetry/internal/consumer/consumer.go:106-136 | a tick delivers all decoded so far; of what comes after it, whole 64s are delivered and the rest waits |
| Consumer.LosslessIff | telemetry/internal/consumer/consumer.go:118-127 | at the stop nothing decoded is lost if and only if the select saw the cancellation or a multiple of 64 messages came since the last tick; otherwise exactly the tail is |
| Consumer.FailedReadLoses | telemetry/internal/consumer/consumer.go:124-127 | one message and a failed read: the message is decoded and never delivered |
| Consumer.MetricsConsumer.constructor | telemetry/internal/consumer/consumer.go:101-104 | nothing delivered, nothing pending |
| Consumer.MetricsConsumer.Flush | telemetry/internal/consumer/consumer.go:106-114 | a flush moves the pending metrics into one non-empty delivery, or does nothing |
| Consumer.MetricsConsumer.ReadMetrics | telemetry/internal/consumer/consumer.go:116-136 | for every sequence of turns exactly the specified batches are delivered, and exactly the tail is left behind when a read fails |
| Consumer.DeliveredAsDecoded | telemetry/internal/consumer/consumer.go:90-179 | consumer and engine together, with kernel records and chaos events anywhere in between: the bots' fields of each session are those of the decoded metrics, less the tail after a failed read, and orders count kernel records besides |
| SandboxRegistry.StepKeepsSound | sandbox/internal/manager/manager.go:265-270 | a launch with a fresh id, a stop or a timeout keeps every registered address pointing to a live sandbox that has it |
| SandboxRegistry.RunIsSound | sandbox/internal/manager/manager.go:398-464 | so after any interleaving with fresh ids the registry is sound |
| SandboxRegistry.RegistryIsLastClaim | sandbox/internal/manager/manager.go:266-269 | after any run at all, an address is registered to a sandbox if and only if it was launched there and no sandbox at that address was launched or ended since |
| SandboxRegistry.LiveIsLastLaunch | sandbox/internal/manager/manager.go:266-267 | a sandbox is live, with its address, if and only if the last event about it is its launch there |
| SandboxRegistry.AlwaysCompleteIff | sandbox/internal/manager/manager.go:265-270 | every live addressed sandbox is registered throughout a run if and only if live sandboxes never share an address |
| SandboxRegistry.SharedAddressHides | sandbox/internal/manager/manager.go:231-236 | two sandboxes on the host network: ending the first leaves the second live and unregistered |
| SandboxRegistry.Manager.constructor | sandbox/internal/manager/manager.go:114-125 | both maps start empty |
| SandboxRegistry.Manager.Register | sandbox/internal/manager/manager.go:249-270 | the locked section of Run is one launch event; an empty address is not registered |
| SandboxRegistry.Manager.Stop | sandbox/internal/manager/manager.go:398-414 | the locked section of Stop is one end event; an unknown id changes no sandbox |
| SandboxRegistry.Manager.EnforceTimeout | sandbox/internal/manager/manager.go:447-464 | the same for a timeout, and the record its launcher holds says timed_out |
| SandboxRegistry.Manager.RefreshStatus | sandbox/internal/manager/manager.go:388-395 | only the status of this sandbox changes; one that has gone in between yields no record and no error |
| Leaderboard.Hub.constructor | leaderboard/server/main.go:74-80 | a new hub has no scores and no flags |
| Leaderboard.Hub.Upsert | leaderboard/server/main.go:82-87 | the score becomes the latest of its session |
| Leaderboard.Hub.SetChaos | leaderboard/server/main.go:89-94 | the flag becomes the latest of its session, known or not |
| Leaderboard.Hub.Collect | leaderboard/server/main.go:96-105 | walking the map in any order lists each scored session once, up to date |
| Leaderboard.SortByTotal | leaderboard/server/main.go:107-109 | an unstable sort by falling total |
| Leaderboard.Hub.Snapshot | leaderboard/server/main.go:96-114 | exactly one entry per scored session with its latest score and flag (off if never set), in falling order of totals, ranks 1 to n |
| Leaderboard.LatestScoreIff | leaderboard/server/main.go:82-87 | the latest score of a session is that of its last upsert, if it has one |
| Leaderboard.LatestChaosIff | leaderboard/server/main.go:89-94 | a session is flagged exactly when its flag was set and the last setting was on |
| Leaderboard.BoardShowsLastWrites | leaderboard/server/main.go:96-114 | a board shows exactly the last scores written, flagged exactly when the last flag set is on |
| Leaderboard.SessionsDoNotInterfere | leaderboard/server/main.go:82-94 | a session's entry depends only on its own events, in their own order |
| Leaderboard.BoardIsUnique | leaderboard/server/main.go:96-114 | map order and the unstable sort cannot change the total shown at any rank, and change nothing at all when totals differ |

## Left out

- Matching.RunConserves: quantities are unbounded integers, so 64-bit wrap-around of a fill total is not modelled.
- OrderBooks.OrderBook.Match: the two mirror-image branches share one code with a side flag; slices are sequence values, so aliasing of backing arrays is not modelled.
- OrderBooks.OrderBook.Match: NaN and infinite prices, and the lock, whose section is one atomic call.
- Venue.SymbolsAreIndependent: the map from symbols to books is modelled on values, not as book objects created on demand.
- EngineVerdicts.LimitOrdersAccepted: reporting the taker only, as the REST handler's response does, would leave consumed orders open in the shadow book; the theorems are about reporting both parties.
- EngineMeetsValidator.RunVerdicts: an id submitted twice, which the validator would attribute to the first order of that id.
- Validators.SwapIntoPlace: slices are sequence values; the swaps update a sequence.
- FixSession.AwaitReport: context cancellation, deadlines and write errors of SendNOS.
- Lexical.ScanDecimal: multi-byte Unicode blanks before a tag, which the scanner would also skip.
- FixSession.OrderTags: the formatting of prices and timestamps; they enter as texts without SOH or `10=`.
- FixSession.OrderTags: negative order quantities, which no bot sends.
- Publisher.MetricsPublisher.Flush: Kafka's own retries and losses; a batch handed to the writer counts as written.
- FleetRun.CanReturn: the run can always return; that it does, which needs fair scheduling and bots that come to finitely many sends, is not claimed.
- FlowTracker.Tracker.TcEgress: hook executions are atomic and packets already parsed; the capacity of the LRU map is the freedom to evict at any time.
- ScoringEngine.Engine.Handle: wall-clock rates (tps, peakTPS) and the asynchronous store. Between its locked sections other calls may come, which SessionOverAnyRun covers; of the totals given there nothing is assumed.
- ScoringEngine.HistoryInRange: a score whose fields were read at different states, as Compute without the lock allows, is not bounded by it; TornReadIff takes up the one pair of fields that can leave the range, at the grain of whole sections.
- ScoringEngine.HistoryCountsDeliveries: the calls come one after the other; for interleaved ones HistoryIs gives the history from the scores given.
- Scoring.FoldedIsSummary: 32-bit wrap-around of archetype counts, and HdrHistogram, of which the recorded values are kept.
- ScoringEngine.ScoresInRange: floating-point rounding and NaN; scores are over the reals.
- SandboxRegistry.Manager.Register: Docker, the prober, bridge lookup and the chaos goroutine; ids are taken to be fresh, which Docker's container ids give.
- SandboxRegistry.Manager.Stop: the cancel functions and the container's own stop and removal.
- Leaderboard.Hub.Snapshot: WebSocket clients, broadcasts and their order, and the snapshot time; of a score only four fields are kept.
- Bot pricing, random order choice, REST and WebSocket handlers, the chaos injector and its step order, the React client, protobuf, deployment files.
