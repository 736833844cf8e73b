# Verified models of the relay protocols, the option map language and the provider services

This project models the parts of the repository whose correctness rests on reasoning over whole runs,
and proves what they promise. It stands alone: `dafny verify dfyconfig.toml` checks everything.

- **Acknowledged relay** (`Relay*.dfy`). `RelayFrames` and `RelayAssembler` are the codec and the
  fragment assembler, `RelayBatchQueue` the replay queue with its released prefix and amortised
  compaction, `RelayEndpoint` one endpoint as a machine over its atomic steps, `RelayProtocol` the
  object that runs those steps with its flush loop, inbound queue and re-entrant callbacks.
  `RelayNetwork` joins two endpoints by a channel that may lose, repeat and reorder, and shows exactly-once,
  in-order delivery; `RelayLink` by a FIFO connection that is cut and resumed with a replay, and shows
  that nothing ever faults, everything arrives, and (`RelayLinkAcks`) everything is acknowledged and
  released. `RelayOvertaking` is the one order of processing in which the endpoint does fault.
  `RelayIntegrity` says what the assembler guarantees against frames of any origin.
- **Older relay** (`SequencedRelay*.dfy`): numbered frames, a bounded buffer, gap detection.
- **Option map language** (`Cel*.dfy`, `JsonValues.dfy`): tokenizer, parser, printer, evaluator and
  compiler. The central law is that printing with minimal parentheses and compiling gives the same
  expression, for exactly the expressions the value-only comparison of closing tokens does not mislead.
  `CelPrecedence` and `CelPhrases` say how operators group and what is accepted without the parser's own
  table, `CelMeaning` what expressions mean without the evaluator.
- **Merge patches** (`MergePatch*.dfy`): the loops, the merge of section 2 of RFC 7396, the conflict
  check and independence of order.
- **Provider services**: `ProviderEntitlement` (chains of entitlement sources), `AccountService` and
  `RegistryService` (refresh loops with waiters, `RefreshWaiters` shared; `AccountServiceContent` ties what is
  published to what was read and resolved), `OwnedOrder`,
  `OrderPositions` and `ModelMembership` (the order of built-in and personal models).
- **Built-in refresh across processes**: `BuiltinLease` (the control file), `BuiltinRelease` (the
  release files), `BuiltinRefresh` (any number of processes over both).

Where a program changes state step by step, a class has its fields and methods; each method is proved
against a function on a state value, and the theorems are about runs of those functions. Fields marked
as histories record what happened and never influence a step.

## What the code does that its documentation does not say

- A previous state's `current` survives when the connection has status unknown and leaves `current`
  open, although the comment beside it says that it always comes from this round;
  `ProviderEntitlement.PreviousCurrentSurvives` is such a round, `ProviderEntitlement.CurrentIsOwn` gives
  the exact condition.
- A first registry round whose sources rest on different built-in revisions leaves its requests waiting
  while the service is idle, until the next change of a source; see
  `RegistryServiceSafety.RoundLeavesWaiting`.
- The expression `["]"]` cannot be written: its printed form does not compile; see
  `CelCompiler.ClosingStringIsLost`.
- `-0 <= 0` and `-0 >= 0` hold while `-0 == 0` does not; see `CelEvaluator.CompareAgrees`.
- Renaming a model to an id that a stale stored order still mentions can move it
  (`ModelMembership.StaleMentionMoves`); `ModelMembership.RenameKeepsPosition` says exactly when it does not.
- `flushPendingFrames` can answer true although the endpoint stopped in the call:
  `RelayProtocol.DrainedThoughStopped` is such a call. It does so if and only if none of its own sendFrame
  calls was refused and the endpoint stopped while an inbound payload was being processed, in the drain
  inside the send loop or in the one after it, and not at one of its own deadline checks or during
  sendFrame; see the contract of `FlushPendingFrames`.
- A listener that hands a payload to `acceptPayload` while the inbound queue is being drained overtakes the
  queue. A frame beyond the expected number then degrades the endpoint although nothing was lost:
  `RelayOvertaking.OvertakingFaults` is such a run, `RelayOvertaking.TakenUnlessBeyond` the exact condition.
- A transport of the older relay that calls `send` while it takes a buffered frame can make that frame go
  out twice, or go out although it is reported lost; `SequencedRelaySafety.ReentryIsSafe` says exactly when
  it does not.

## Model

| member | source | states |
|---|---|---|
| `RelayNetwork.ExactlyOnceInOrder` | packages/client/src/webRemoteControlAcknowledgedRelayProtocol.ts:122-333 | over a channel that loses, repeats and reorders what either side sent, in every reachable state each listener has been handed a prefix of the other side's messages, each once and in order, and a message has left a live sender's replay buffer only if the receiver was handed it |
| `RelayNetwork.PlayInv` | packages/client/src/webRemoteControlAcknowledgedRelayProtocol.ts:122-333 | the invariant behind it, kept by every step of either endpoint: no message is delivered before it was sent, and every acknowledgement on the way is for a delivered message |
| `RelayNetwork.StepAgrees` | packages/client/src/webRemoteControlAcknowledgedRelayProtocol.ts:249-333 | one step of one endpoint keeps both directions of that invariant |
| `RelayLinkSafety.NoProtocolFault` | packages/client/src/webRemoteControlAcknowledgedRelayProtocol.ts:190-333 | over a FIFO connection cut at any points, each cut losing any suffix of data and acknowledgements and followed by a replay, with payloads processed in the order they arrive, no protocol action ever stops a live endpoint: no gap, no conflicting duplicate, no future acknowledgement |
| `RelayLinkSafety.QuietMeansDelivered` | packages/client/src/webRemoteControlAcknowledgedRelayProtocol.ts:190-248 | a connected sender with nothing left to send and no data in flight has had every reserved message delivered, whatever the cuts lost |
| `RelayLinkSafety.HistoryInv` | packages/client/src/webRemoteControlAcknowledgedRelayProtocol.ts:122-333 | in every history of sends, cuts and replays what is in flight starts no later than the number the receiver expects and continues without a gap up to the sender's cursor |
| `RelayLinkAcks.RestMeansAcknowledged` | packages/client/src/webRemoteControlAcknowledgedRelayProtocol.ts:190-333 | two live, connected ends with nothing unsent, no acknowledgement pending or owed and nothing in flight or queued: on both sides everything was delivered and acknowledged, the replay buffer is empty and the byte counter is zero, whatever was cut |
| `RelayLinkAcks.HistoryAcks` | packages/client/src/webRemoteControlAcknowledgedRelayProtocol.ts:190-333 | in every history, each message sent in full since the last replay is acknowledged, or its last frame, or an acknowledgement that covers it, is still on the way, pending or owed |
| `RelayLinkAcks.LastFrameOwes` | packages/client/src/webRemoteControlAcknowledgedRelayProtocol.ts:274-303 | the last frame of a message always calls for an acknowledgement that covers the message, whether it completes it or is a duplicate |
| `RelayOvertaking.TakenUnlessBeyond` | packages/client/src/webRemoteControlAcknowledgedRelayProtocol.ts:249-265 | a genuine frame processed ahead of the queue leaves the endpoint live if and only if its number is not beyond the expected one |
| `RelayOvertaking.OvertakingFaults` | packages/client/src/webRemoteControlAcknowledgedRelayProtocol.ts:249-303 | a run in which a listener hands in the third message while the second waits in the queue, and the endpoint degrades |
| `RelayEndpointSafety.RunInv` | packages/client/src/webRemoteControlAcknowledgedRelayProtocol.ts:122-379 | every run of an endpoint keeps the outbound, accounting, inbound and send-order invariants |
| `RelayEndpointSafety.StepInv` | packages/client/src/webRemoteControlAcknowledgedRelayProtocol.ts:122-379 | every single step keeps them |
| `RelayEndpointSafety.ReplayBufferExact` | packages/client/src/webRemoteControlAcknowledgedRelayProtocol.ts:141-178 | while live the unacknowledged batches carry exactly the messages after the last acknowledged one, lastAcked <= highestFullySent < nextMessageSeq, the byte counter is the sum of their sizes and below the cap, unsaturated means at most the high and saturated more than the low watermark, and saturated and drained events alternate |
| `RelayEndpointSafety.ReleasedAccounting` | packages/client/src/webRemoteControlAcknowledgedRelayProtocol.ts:325-332 | crediting acknowledged bytes keeps the accounting, and the subtraction never needs its clamp at zero |
| `RelayEndpointSafety.SendOrder` | packages/client/src/webRemoteControlAcknowledgedRelayProtocol.ts:190-243 | between two replays accepted data frames have strictly increasing numbers, every number passed over belongs to an acknowledged message, and no data frame is sent while an acknowledgement is pending |
| `RelayEndpointSafety.ReplayRestarts` | packages/client/src/webRemoteControlAcknowledgedRelayProtocol.ts:244-248 | a replay starts at frame 0 of the oldest unacknowledged batch, with the physical number it had before |
| `RelayAssembler.AcceptGenuine` | packages/shared/src/web-remote-control-rpc-transport.ts:602-765 | the assembler on any frame of the sender's numbered history: the expected frame extends or completes the message with exactly its bytes, an older one is a duplicate, a newer one a gap, and nothing else happens |
| `RelayAssembler.GenuineIsValid` | packages/shared/src/web-remote-control-rpc-transport.ts:615-640 | every frame the encoder makes is schema-valid, and passes the message size and fragment count checks exactly when its message keeps those limits |
| `RelayIntegrity.CompletedIsWhole` | packages/shared/src/web-remote-control-rpc-transport.ts:602-765 | whatever frames are fed, a completed message was made of frames that were all there, consecutive and of one message, as many as announced, whose contents have the announced length and checksum; exactly these are remembered |
| `RelayIntegrity.AcceptByNumber` | packages/shared/src/web-remote-control-rpc-transport.ts:602-700 | a remembered number changes nothing with the same frame and is a conflict with any other, a forgotten lower one changes nothing, a higher one is a gap; after a fault there are only faults |
| `RelayIntegrity.TakenExactly` | packages/shared/src/web-remote-control-rpc-transport.ts:660-765 | the expected frame is taken if and only if it is the next fragment, agrees with those held, and keeps the announced length and, at the end, the checksum |
| `RelayEndpointSafety.AcceptCounts` | packages/shared/src/web-remote-control-rpc-transport.ts:602-765 | whatever frame arrives, message k+1 is completed only after message k |
| `RelayFrames.SplitFlatten` | packages/shared/src/web-remote-control-rpc-transport.ts:348-430 | the fragments put together again give the message's bytes, and none exceeds the budget |
| `RelayFrames.Encode` | packages/shared/src/web-remote-control-rpc-transport.ts:348-430 | encoding fails exactly on empty, oversized or over-fragmented messages and otherwise gives a non-empty run of fragments with the message's bytes |
| `RelayFrames.EncodeCuts` | packages/shared/src/web-remote-control-rpc-transport.ts:348-430 | fragments of exactly the budget, the last one shorter; fails exactly on messages that are empty, above the limit, or too long for the greatest number of fragments |
| `RelayFrames.EncodeFrames` | packages/shared/src/web-remote-control-rpc-transport.ts:348-430 | frames carry consecutive physical numbers from the first one on, and their fragment's index |
| `RelayFrames.SeqIdentifiesFrame` | packages/shared/src/web-remote-control-rpc-transport.ts:348-430 | a physical number belongs to one frame of one message |
| `RelayProtocol.ObjectIsRun` | packages/client/src/webRemoteControlAcknowledgedRelayProtocol.ts:122-379 | the state an object is in is the state of a run of the endpoint machine, so everything proved of runs holds of the object |
| `RelayProtocol.AcknowledgedRelayProtocol.ReserveMessage` | packages/client/src/webRemoteControlAcknowledgedRelayProtocol.ts:122-172 | on a live endpoint whose deadline check does not expire, the first step is the reservation of the encoded message and its measured size if and only if it can be encoded, each frame can be measured and all of them fit below the cap beside what is unacknowledged; any other message degrades the endpoint; in a quiet environment the endpoint lives on exactly for admitted messages, outside a flush the next payload goes out at once, and a stop after the reservation has a cause of its own |
| `RelayProtocol.AcknowledgedRelayProtocol.Prepare` | packages/client/src/webRemoteControlAcknowledgedRelayProtocol.ts:124-147 | succeeds if and only if the message can be encoded and every frame measured, with the sum of the sizes |
| `RelayProtocol.AcknowledgedRelayProtocol.AppendMessage` | packages/client/src/webRemoteControlAcknowledgedRelayProtocol.ts:157-178 | the reserved batch, the counters and the watermark crossing are those of the reserve step |
| `RelayProtocol.AcknowledgedRelayProtocol.InvokeSend` | packages/client/src/webRemoteControlAcknowledgedRelayProtocol.ts:179-189 | whatever sendFrame re-enters, the call under way stays the one sent and nothing is counted as sent meanwhile; the payload counts as taken exactly when the transport takes it without throwing; a throwing transport degrades the endpoint, and nothing else does but what it calls back |
| `RelayProtocol.AcknowledgedRelayProtocol.FlushPendingFrames` | packages/client/src/webRemoteControlAcknowledgedRelayProtocol.ts:190-243 | re-entrant or stopped calls do nothing; otherwise what can be sent is handed over at once, a live endpoint ends with an empty inbound queue, and it stops only for a faulty payload, an expired deadline, a throwing or stopping callback; the answer is true if and only if none of the call's own sendFrame calls was refused, no acknowledgement waits, and the endpoint, if it stopped, did so while an inbound payload was being processed; with an empty inbound queue a live "drained" means nothing is left to send |
| `RelayProtocol.DrainedThoughStopped` | packages/client/src/webRemoteControlAcknowledgedRelayProtocol.ts:190-243 | a call, from construction on, that answers true on a degraded endpoint |
| `RelayProtocol.AcknowledgedRelayProtocol.FlushLoop` | packages/client/src/webRemoteControlAcknowledgedRelayProtocol.ts:196-237 | the send loop ends drained if and only if it was neither refused nor stopped at its own level, and drains the inbound queue after each accepted payload |
| `RelayProtocol.AcknowledgedRelayProtocol.FlushTurn` | packages/client/src/webRemoteControlAcknowledgedRelayProtocol.ts:197-236 | one turn hands sendFrame the pending acknowledgement if there is one, else the next data frame; idle only when nothing can be sent |
| `RelayProtocol.AcknowledgedRelayProtocol.SendPendingAck` | packages/client/src/webRemoteControlAcknowledgedRelayProtocol.ts:201-219 | the pending acknowledgement is handed over; it counts as sent exactly when the transport takes it and the endpoint lives; it is cleared when it was accepted and still pending when it was refused |
| `RelayProtocol.AcknowledgedRelayProtocol.SendNextFrame` | packages/client/src/webRemoteControlAcknowledgedRelayProtocol.ts:220-236 | the frame at the cursor is handed over and counts as sent exactly when the transport takes it and the endpoint lives; then the cursor moves to the next number, the frame joins the accepted ones and the fully-sent mark follows its message's last frame; a refused one changes nothing of this |
| `RelayProtocol.AcknowledgedRelayProtocol.ReplayUnacknowledged` | packages/client/src/webRemoteControlAcknowledgedRelayProtocol.ts:244-248 | does nothing when stopped; unless the deadline expires, rewinds first of all and hands over what can then be sent; drained with nothing inbound means nothing is left to send |
| `RelayProtocol.AcknowledgedRelayProtocol.AcceptPayload` | packages/client/src/webRemoteControlAcknowledgedRelayProtocol.ts:249-259 | foreign payloads and stopped endpoints handle nothing; unless the deadline expires the payload is taken first of all, during sendFrame into the queue; in a quiet environment the endpoint lives on exactly if the payload is not at fault |
| `RelayProtocol.InboundStops` | packages/client/src/webRemoteControlAcknowledgedRelayProtocol.ts:267-303 | exactly the payloads that stop an endpoint: malformed ones, acknowledgements of 0 or of what was never sent in full, invalid frames and frames at which the assembler finds a fault |
| `RelayProtocol.AcknowledgedRelayProtocol.DrainQueuedInbound` | packages/client/src/webRemoteControlAcknowledgedRelayProtocol.ts:260-265 | outside sendFrame a live endpoint ends with an empty inbound queue |
| `RelayProtocol.AcknowledgedRelayProtocol.ProcessFrame` | packages/client/src/webRemoteControlAcknowledgedRelayProtocol.ts:277-303 | a fault degrades, and in a quiet environment nothing else does; unless the endpoint stops, a completed message is followed by queueing its acknowledgement and a duplicate by queueing that of the last completed message, and no acknowledgement stays owed |
| `RelayProtocol.AcknowledgedRelayProtocol.Deliver` | packages/client/src/webRemoteControlAcknowledgedRelayProtocol.ts:290-303 | the acknowledgement of a message is queued after its delivery and, outside a flush, handed over at once; a throwing listener stops the endpoint, and otherwise only a faulty payload, an expired deadline or what the listener calls back |
| `RelayProtocol.AcknowledgedRelayProtocol.QueueAck` | packages/client/src/webRemoteControlAcknowledgedRelayProtocol.ts:304-314 | acknowledgements only grow and only cover delivered messages; outside a flush the acknowledgement is handed over at once |
| `RelayProtocol.AcknowledgedRelayProtocol.ProcessAck` | packages/client/src/webRemoteControlAcknowledgedRelayProtocol.ts:315-333 | an old acknowledgement is ignored, a future one degrades, any other releases the prefix it covers and tells the listener when the low watermark is reached; in a quiet environment only a future one stops the endpoint |
| `RelayProtocol.AcknowledgedRelayProtocol.EnterDegraded` | packages/client/src/webRemoteControlAcknowledgedRelayProtocol.ts:350-363 | degrading happens once and is absorbing |
| `RelayProtocol.AcknowledgedRelayProtocol.Dispose` | packages/client/src/webRemoteControlAcknowledgedRelayProtocol.ts:364-379 | disposing stops a live endpoint and repeats harmlessly |
| `RelayLimits.ResolveLimits` | packages/client/src/webRemoteControlAcknowledgedRelayProtocolTypes.ts:109-152 | limits are accepted exactly when all five are positive and safe, the low watermark may be zero, and it is not above the high one; cap, grace and assembly timeout only ever lower their defaults |
| `RelayLimits.MeasureBatch` | packages/client/src/webRemoteControlAcknowledgedRelayProtocolTypes.ts:82-99 | the loop sums the frame sizes and fails exactly when one is not a positive size within the frame limit |
| `RelayBatchQueue.BatchQueue.Append` | packages/client/src/webRemoteControlAcknowledgedRelayBatchQueue.ts:39-41 | appends to the contents and leaves the unsent cursor |
| `RelayBatchQueue.BatchQueue.AdvanceUnsent` | packages/client/src/webRemoteControlAcknowledgedRelayBatchQueue.ts:43-45 | moves the cursor by one, never past the end |
| `RelayBatchQueue.BatchQueue.ResetReplay` | packages/client/src/webRemoteControlAcknowledgedRelayBatchQueue.ts:47-53 | same batches, all from frame 0, cursor at the oldest |
| `RelayBatchQueue.BatchQueue.ReleaseThrough` | packages/client/src/webRemoteControlAcknowledgedRelayBatchQueue.ts:55-70 | drops exactly the covered prefix, returns its count and bytes, and keeps the cursor at its batch or at the new oldest |
| `RelayBatchQueue.BatchQueue.CompactReleasedPrefix` | packages/client/src/webRemoteControlAcknowledgedRelayBatchQueue.ts:78-91 | compaction changes neither contents nor cursor, and over the queue's life copies no more slots than batches were released |
| `RelayBatchQueue.BatchQueue.RetainedStorageSlots` | packages/client/src/webRemoteControlAcknowledgedRelayBatchQueue.ts:23-25 | the stored length stays below activeCount + max(1024, activeCount) |
| `RelayBatchQueue.BatchQueue.RetainedBatchReferenceCount` | packages/client/src/webRemoteControlAcknowledgedRelayBatchQueue.ts:27-31 | the loop counts exactly the active batches: released ones are not retained |
| `RelayBatchQueue.BatchQueue.RetainedPayloadBytes` | packages/client/src/webRemoteControlAcknowledgedRelayBatchQueue.ts:33-37 | the loop sums exactly the active batches' bytes |
| `RelayBatchQueue.BatchQueue.Clear` | packages/client/src/webRemoteControlAcknowledgedRelayBatchQueue.ts:72-76 | empties contents and cursor |
| `SequencedRelaySafety.DeliveredIsPrefix` | packages/client/src/webRemoteControlRelayProtocol.ts:149-212 | over a channel that drops, repeats or reorders, in every reachable state of two relays each has been handed a prefix of what the other sent |
| `SequencedRelaySafety.RunInv` | packages/client/src/webRemoteControlRelayProtocol.ts:62-218 | through buffering, overflow and timeouts accepted numbers strictly increase, the buffer holds the latest messages without a gap and within its bound, the timer runs exactly while something waits, and every message is accepted, waiting, reported lost or discarded on request |
| `SequencedRelaySafety.FlushedInv` | packages/client/src/webRemoteControlRelayProtocol.ts:112-130 | the flush loop keeps this, however the transport answers |
| `SequencedRelaySafety.SentInv` | packages/client/src/webRemoteControlRelayProtocol.ts:151-177 | send keeps this |
| `SequencedRelaySafety.FlushTakes` | packages/client/src/webRemoteControlRelayProtocol.ts:112-130 | a flush hands over exactly the frames before the first refusal, oldest first, keeps the others, and leaves the timer running only if some are left |
| `SequencedRelaySafety.SendAtOnce` | packages/client/src/webRemoteControlRelayProtocol.ts:151-177 | with nothing waiting a message goes out at once if the transport takes it, else waits, or without any room is dropped and reported |
| `SequencedRelaySafety.SendBehind` | packages/client/src/webRemoteControlRelayProtocol.ts:151-177 | with frames waiting a message joins them and all are flushed as far as the transport takes them, or all are dropped and their number reported |
| `SequencedRelaySafety.StepEffect` | packages/client/src/webRemoteControlRelayProtocol.ts:188-212 | the next number is delivered, anything else delivers nothing |
| `SequencedRelaySafety.GapStops` | packages/client/src/webRemoteControlRelayProtocol.ts:201-209 | after a number beyond the next one the relay, in every later run, delivers, accepts and sends nothing |
| `SequencedRelaySafety.ReentryIsSafe` | packages/client/src/webRemoteControlRelayProtocol.ts:105-177 | a flush whose sendFrame calls send goes on correctly if and only if the inner send found room in the buffer and was refused the frame being sent |
| `SequencedRelay.RelayProtocol.Send` | packages/client/src/webRemoteControlRelayProtocol.ts:151-177 | numbers the message, then queues behind waiting frames and flushes, or tries the transport and buffers a refusal |
| `SequencedRelay.RelayProtocol.BufferFrame` | packages/client/src/webRemoteControlRelayProtocol.ts:93-103 | a full buffer is dropped with the frame and reported, else the frame waits |
| `SequencedRelay.RelayProtocol.FlushPendingFrames` | packages/client/src/webRemoteControlRelayProtocol.ts:112-130 | sends waiting frames in order up to the first refusal; true exactly when something waited and nothing does any more |
| `SequencedRelay.RelayProtocol.AcceptPayload` | packages/client/src/webRemoteControlRelayProtocol.ts:188-212 | delivers the next number, ignores old ones, degrades and reports on a gap |
| `SequencedRelay.RelayProtocol.TimerFires` | packages/client/src/webRemoteControlRelayProtocol.ts:85-90 | the waiting frames are dropped and their number reported |
| `CelLexing.TokenSpans` | packages/model-option-map/src/tokenizer.ts:22-73 | tokens have ordered, disjoint spans, only white space lies outside them, and one eof stands at the source length |
| `CelLexing.NumberIsLongest` | packages/model-option-map/src/tokenizer.ts:75-81 | a number token is a decimal numeral and no longer one starts there |
| `CelLexing.ReadSpelled` | packages/model-option-map/src/tokenizer.ts:83-124 | any spelling of a unit sequence is read back as exactly that sequence up to just after the closing quote: raw units, the eight simple escapes one by one, and four hexadecimal digits, most significant first |
| `CelLexing.ReadIsSpelled` | packages/model-option-map/src/tokenizer.ts:83-124 | conversely a literal that is read is a spelling of its value |
| `CelLexing.ReadQuoted` | packages/model-option-map/src/tokenizer.ts:83-124 | reading the escaped literal of any sequence of UTF-16 units, in either quote, gives that sequence and stops just after the quote |
| `CelLexing.TrimIs` | packages/model-option-map/src/compiler.ts:59-65 | trimming takes away white space only and leaves none at either end |
| `CelLexing.RoundTripLexemes` | packages/model-option-map/src/tokenizer.ts:22-73 | tokenizing rendered tokens gives the tokens back, then eof |
| `CelTokenizer.Tokenize` | packages/model-option-map/src/tokenizer.ts:22-73 | the loop computes the specified tokens or the first error |
| `CelTokenizer.ReadString` | packages/model-option-map/src/tokenizer.ts:83-124 | the string loop computes the specified literal or error |
| `CelTokenizer.TokenAt` | packages/model-option-map/src/tokenizer.ts:26-69 | a token starts where it is read, is non-empty and never eof |
| `CelCompiler.SourceRoundTrip` | packages/model-option-map/src/parser.ts:61-239 | printing a parser-shaped expression with minimal parentheses, then trimming, tokenizing and parsing the text gives the same tree if and only if no array starts with the string "]" and no object with the key "}" |
| `CelMisread.ParsePrinted` | packages/model-option-map/src/parser.ts:61-239 | the same law on tokens |
| `CelRoundTrip.ReadPrinted` | packages/model-option-map/src/parser.ts:79-180 | a plain expression printed where an operand of any of the nine levels stands is read back there, and reading stops right after it |
| `CelRoundTrip.ReadChain` | packages/model-option-map/src/parser.ts:112-128 | left-associative chains: the left operand is read by the loop of its own level |
| `CelMisread.Misread` | packages/model-option-map/src/parser.ts:182-220 | for every other expression fewer string literals come back than were printed |
| `CelParsed.ConditionalParsed` | packages/model-option-map/src/parser.ts:61-239 | whatever is parsed is well formed (known operators, distinct keys, safe numbers), and its string literals each use up a string token |
| `CelCompiler.ClosingStringIsLost` | packages/model-option-map/src/parser.ts:182-190 | the array holding the string "]" printed and parsed ends in an unexpected token |
| `CelCompiler.RecompilePrinted` | packages/model-option-map/src/parser.ts:61-239 | the same if-and-only-if for whatever any source compiles to |
| `CelPrecedence.Grouping` | packages/model-option-map/src/parser.ts:88-128 | for any operands a, b, c and any two of the thirteen operators, a p b q c is read as a p (b q c) if q binds tighter than p, and as (a p b) q c otherwise; which binds tighter is written out by operator |
| `CelPrecedence.PrefixOperand` | packages/model-option-map/src/parser.ts:130-145 | a prefix operator binds tighter than every operator between operands |
| `CelPrecedence.ParenthesisedOperand` | packages/model-option-map/src/parser.ts:172-176 | any complete expression in parentheses is an operand |
| `CelPrecedence.TokenOperand` | packages/model-option-map/src/parser.ts:147-171 | a safe number, a string, the variable and the three constants are operands with their own values |
| `CelPrecedence.ChoiceComplete` | packages/model-option-map/src/parser.ts:79-86 | conditionals bind loosest and nest to the right |
| `CelPhrases.ProgramIsPhrase` | packages/model-option-map/src/parser.ts:61-220 | whatever the parser accepts is a phrase of the language up to eof: one rule per construct, with known names, safe numbers, separators, brackets and distinct keys |
| `CelPhrases.TrailingRefused` | packages/model-option-map/src/parser.ts:61-77 | a dot after a complete expression is refused as a member access, anything else that cannot go on as unexpected |
| `CelParser.ConditionalFrom` | packages/model-option-map/src/parser.ts:79-86 | a successful parse consumes at least one token |
| `CelParser.Parser.Parse` | packages/model-option-map/src/parser.ts:61-77 | the cursor object computes the specified expression or error |
| `CelParser.Parser.ParseConditional` | packages/model-option-map/src/parser.ts:79-86 | consumes at least one token when it succeeds and never moves past eof |
| `CelParser.Parser.ParseLevel` | packages/model-option-map/src/parser.ts:88-128 | consumes at least one token when it succeeds and never moves past eof; the level and its loop read what the specification of that level reads, whose operators are pinned by `CelPrecedence.Grouping` |
| `CelParser.Parser.ParseUnary` | packages/model-option-map/src/parser.ts:130-145 | likewise |
| `CelParser.Parser.ParsePrimary` | packages/model-option-map/src/parser.ts:147-180 | likewise |
| `CelParser.Parser.ParseArray` | packages/model-option-map/src/parser.ts:182-190 | likewise, with its element loop |
| `CelParser.Parser.ParseObject` | packages/model-option-map/src/parser.ts:192-214 | likewise, with its entry loop and the set of keys |
| `CelParser.Parser.Consume` | packages/model-option-map/src/parser.ts:216-220 | compares the token's value only |
| `CelParser.Parser.Advance` | packages/model-option-map/src/parser.ts:231-235 | moves on except at eof |
| `CelCompiler.OptionMapIsSound` | packages/model-option-map/src/compiler.ts:35-57 | a compiled option map is the compiled expression, and run on a string or JSON-safe number gives the outcome of the rules: an object with JSON-safe numbers throughout, or an operand or number error; the runtime guard and the unknown-operator branch are unreachable |
| `CelCompiler.ObjectResultHolds` | packages/model-option-map/src/compiler.ts:80-88 | the static check guarantees an object result |
| `CelCompiler.OptionMapsAre` | packages/model-option-map/src/compiler.ts:35-57 | a source is an option map if and only if it compiles and every branch that ends, whatever the conditions, is an object literal |
| `CelCompiler.ObjectKeys` | packages/model-option-map/src/evaluator.ts:25-36 | an object literal gives exactly its keys, each once |
| `CelCompiler.OthersAreNoObjects` | packages/model-option-map/src/compiler.ts:80-88 | what is neither an object literal nor a conditional never gives an object |
| `CelCompiler.CompiledIsFormed` | packages/model-option-map/src/compiler.ts:17-33 | compiled expressions are well formed and their numbers have numerals |
| `CelCompiler.CompileSource` | packages/model-option-map/src/compiler.ts:17-33 | trim, tokenizer and parser object run one after the other compute the compilation |
| `CelEvaluator.Eval` | packages/model-option-map/src/evaluator.ts:17-105 | evaluation of a well-formed expression stays within JSON-safe values and raises operand and number errors only; what it computes is `CelMeaning.EvaluationIsMeaning` |
| `CelMeaning.EvaluationIsMeaning` | packages/model-option-map/src/evaluator.ts:17-105 | evaluation gives an outcome, value or error, if and only if the rules of the language do: one rule per construct, with equality of values, orders of numbers and texts, exact results rounded, zeros signed, remainders by their law, operands from left to right and only the branch the condition picks |
| `CelMeaning.ProgramMeaning` | packages/model-option-map/src/evaluator.ts:9-15 | a program takes strings and JSON-safe numbers only, and on these gives what the rules give |
| `CelMeaning.ExactIntegers` | packages/model-option-map/src/evaluator.ts:75-93 | `+`, `-`, `*` and `/` give the exact integer whenever it is safe and rounding keeps it |
| `CelMeaning.TextLessIs` | packages/model-option-map/src/evaluator.ts:136-140 | a string is less than another if it is a proper prefix or smaller at the first unit in which they differ |
| `CelEvaluator.EvaluateObject` | packages/model-option-map/src/evaluator.ts:25-36 | the loop defining one key after the other builds the specified object |
| `CelEvaluator.EqualsIsEquality` | packages/model-option-map/src/evaluator.ts:180-199 | jsonEquals is equality of JSON values with objects as unordered maps, although it checks key counts and one-sided inclusion |
| `CelEvaluator.EqualsIsEquivalence` | packages/model-option-map/src/evaluator.ts:180-199 | it is reflexive, symmetric and transitive |
| `CelEvaluator.CompareAgrees` | packages/model-option-map/src/evaluator.ts:122-145 | the four comparisons agree with each other, and with equality for everything but the two zeros, which compare as equal and are different values |
| `CelEvaluator.TextTransitive` | packages/model-option-map/src/evaluator.ts:136-140 | string comparison by units is transitive |
| `CelEvaluator.TextOrder` | packages/model-option-map/src/evaluator.ts:136-140 | string comparison is asymmetric and total |
| `CelNumbers.RemainderLaw` | packages/model-option-map/src/evaluator.ts:92-93 | the remainder differs from the dividend by a whole multiple of the divisor, is smaller than it, and has the dividend's sign even at zero |
| `MergePatchLoops.ApplyOrderedPatches` | packages/model-option-map/src/merge-patch.ts:13-33 | succeeds exactly when no two patches write overlapping paths and then merges them one after the other; a conflict names two patches that do clash |
| `MergePatchLoops.OrderIndependent` | packages/model-option-map/src/merge-patch.ts:13-33 | neither the result nor whether there is a conflict depends on the order of the patches |
| `MergePatchLaws.OrderDoesNotMatter` | packages/model-option-map/src/merge-patch.ts:13-33 | compatible patches give the same object in every permutation |
| `MergePatchLaws.MergeCommutes` | packages/model-option-map/src/merge-patch.ts:63-78 | two patches that do not clash commute |
| `MergePatchLaws.NoSelfConflict` | packages/model-option-map/src/merge-patch.ts:35-57 | a single patch never conflicts with itself |
| `MergePatchLaws.UnwrittenUnchanged` | packages/model-option-map/src/merge-patch.ts:63-78 | every path overlapping no written path reads the same before and after |
| `MergePatchLaws.WrittenRead` | packages/model-option-map/src/merge-patch.ts:63-78 | what each written path reads after the merge; an object at its end is the empty one |
| `MergePatchLaws.WrittenSurvives` | packages/model-option-map/src/merge-patch.ts:13-33 | every leaf written by an accepted patch survives all later patches |
| `MergePatchLaws.MergeIdempotent` | packages/model-option-map/src/merge-patch.ts:63-78 | merging the same patch again changes nothing |
| `MergePatchLoops.MergeObject` | packages/model-option-map/src/merge-patch.ts:63-78 | the loop equals MergePatch of section 2 of RFC 7396 on objects, in whatever order the members come |
| `MergePatchLoops.CollectWrittenPaths` | packages/model-option-map/src/merge-patch.ts:35-49 | exactly the written paths, each once |
| `MergePatchLoops.PathsOverlap` | packages/model-option-map/src/merge-patch.ts:51-57 | one path is a prefix of the other |
| `MergePatchLoops.FindConflict` | packages/model-option-map/src/merge-patch.ts:22-22 | an overlapping owned path if and only if there is one |
| `MergePatchLoops.CloneJson` | packages/model-option-map/src/merge-patch.ts:80-93 | a copy equal to the value |
| `ProviderEntitlement.ResolveAccountProviderConfigs` | packages/provider/src/account-provider-resolution.ts:111-167 | fails exactly when the connections are improper or some chain of sources is a cycle; otherwise a provider is entitled if and only if the root of its chain is an account provider whose connection is available, or unknown (or missing) without a reset while it was entitled before; a provider without a source has the overlay its own connection gives it, on the start plan with exactly the trimmed models that are not blank, in order, and when nothing is known and nothing was reset the previous one whole |
| `ProviderEntitlement.Resolver.ResolveProvider` | packages/provider/src/account-provider-resolution.ts:117-158 | the memoised recursion agrees with the chain specification and reports a cycle exactly when the chain has no root |
| `ProviderEntitlement.CycleHasNoRoot` | packages/provider/src/account-provider-resolution.ts:122-124 | a chain that runs into a cycle has no root |
| `ProviderEntitlement.RootUnique` | packages/provider/src/account-provider-resolution.ts:117-158 | the root is determined, so the result does not depend on the order of resolution |
| `ProviderEntitlement.DerivedCorrect` | packages/provider/src/account-provider-resolution.ts:131-137 | a derived provider is granted what its source turned out to have |
| `ProviderEntitlement.IndexConnections` | packages/provider/src/account-provider-resolution.ts:173-199 | succeeds exactly when every connection is proper and no provider has two |
| `ProviderEntitlement.FaultIs` | packages/provider/src/account-provider-resolution.ts:173-199 | a fault is found in exactly the connections that are repeated, of no configured account provider, their own source, or of an unconfigured source |
| `ProviderEntitlement.StateResolver.ResolveState` | packages/provider/src/account-provider-resolution.ts:65-104 | terminates without a guard against cycles, because every chain has a root, and memoises the specified state |
| `ProviderEntitlement.Resolve` | packages/provider/src/account-provider-resolution.ts:49-108 | one round gives overlays and a state for every connection, or an error exactly when the overlays fail |
| `ProviderEntitlement.StateAgreesWithOverlay` | packages/provider/src/account-provider-resolution.ts:71-96 | state and overlay of the same round agree with the root's grant |
| `ProviderEntitlement.RootState` | packages/provider/src/account-provider-resolution.ts:66-101 | without a connected source a known status is published as it is, an unknown one as the last state says, never after a reset; what the connection says of current and effectiveAt comes first |
| `ProviderEntitlement.DerivedStateConsistent` | packages/provider/src/account-provider-resolution.ts:72-92 | a derived provider whose source is connected is available exactly when it is entitled |
| `ProviderEntitlement.ReasonFromRoot` | packages/provider/src/account-provider-resolution.ts:77-85 | along a connected chain the unavailable reason is the root's |
| `ProviderEntitlement.CurrentIsOwn` | packages/provider/src/account-provider-resolution.ts:93-98 | the published current is this round's choice exactly unless the connection leaves it open and an unknown status keeps the previous one |
| `ProviderEntitlement.PreviousCurrentSurvives` | packages/provider/src/account-provider-resolution.ts:93-98 | a round that publishes the previous current again although the connection says nothing of it |
| `AccountServiceSafety.NoRequestLost` | packages/provider/src/account-provider-service.ts:112-146 | with no loop in flight a live service has nothing pending and nobody waiting, and request k was the k-th to be settled |
| `AccountServiceSafety.SettledByLaterRound` | packages/provider/src/account-provider-service.ts:148-235 | every request is settled at most once, by a round begun after it, with the snapshot published last at that moment, or refused |
| `AccountServiceSafety.LoopAnswers` | packages/provider/src/account-provider-service.ts:150-217 | whoever joined a loop gets the snapshot published last, or an error exactly if its last round failed; the error for a loop without a snapshot is unreachable |
| `AccountServiceSafety.ObjectIsRun` | packages/provider/src/account-provider-service.ts:64-235 | the state a service object is in is the state of a run, so all of this holds of it |
| `AccountServiceSafety.PublishedIsCurrent` | packages/provider/src/account-provider-service.ts:170-194 | what is published from a resolution rests on the revision current at that moment, and nothing was requested since its round began |
| `AccountServiceSafety.OvertakenPublishesNothing` | packages/provider/src/account-provider-service.ts:173-179 | a round overtaken by a request or a new built-in revision publishes and settles nothing and is repeated |
| `AccountServiceSafety.RunInv` | packages/provider/src/account-provider-service.ts:112-235 | every run keeps the invariant |
| `AccountServiceContent.PublicationContent` | packages/provider/src/account-provider-service.ts:156-213 | over runs: a publication from a resolution has exactly the providers and states the resolver answered in its own round, on the revision read before and after; one from a failure is the first of all and covers exactly the account providers of the configuration read, none entitled |
| `AccountServiceContent.AnswerContent` | packages/provider/src/account-provider-service.ts:188-207 | likewise whatever a request is answered with, also when it is the snapshot already held |
| `AccountServiceContent.FailureAnswers` | packages/provider/src/account-provider-service.ts:199-213 | the first failure with a configuration publishes that nobody is entitled and answers with it; every other keeps the snapshot, refuses the requests of its round and ends the loop |
| `AccountServiceContent.RoundAnswers` | packages/provider/src/account-provider-service.ts:171-198 | a round that nothing overtook answers everyone with what was resolved, publishes it unless it was held, and ends the loop |
| `AccountServiceContent.QuietRefresh` | packages/provider/src/account-provider-service.ts:112-198 | a request to an idle service and an undisturbed round: the request is answered with what the resolver gives in that round |
| `AccountService.AccountProviderService.Read` | packages/provider/src/account-provider-service.ts:64-71 | the snapshot if there is one; a first read during a loop joins it; only otherwise a new request |
| `AccountService.AccountProviderService.RequestRefresh` | packages/provider/src/account-provider-service.ts:112-124 | queues the request and starts a loop if none is in flight |
| `AccountService.AccountProviderService.OnConfigRead` | packages/provider/src/account-provider-service.ts:155-165 | the stretch after the first read |
| `AccountService.AccountProviderService.OnResolved` | packages/provider/src/account-provider-service.ts:159-171 | the stretch after resolving |
| `AccountService.AccountProviderService.OnCurrentConfigRead` | packages/provider/src/account-provider-service.ts:171-198 | the stretch after the second read: discard, confirm or publish; what is published is `AccountServiceContent.PublicationContent` |
| `AccountService.AccountProviderService.ContinueLoop` | packages/provider/src/account-provider-service.ts:150-154 | another round exactly when something is pending |
| `AccountService.AccountProviderService.Fail` | packages/provider/src/account-provider-service.ts:199-213 | the first failure with a configuration fails closed, any other keeps the last snapshot and refuses the round's requests |
| `AccountService.AccountProviderService.FinishRefresh` | packages/provider/src/account-provider-service.ts:136-146 | gives those who joined the loop its answer; what arrived during a failing round starts a new loop |
| `AccountService.AccountProviderService.DisposeService` | packages/provider/src/account-provider-service.ts:91-100 | refuses everyone waiting, once |
| `RefreshWaiters.Partition` | packages/provider/src/account-provider-service.ts:219-235 | the loop settles exactly the waiters up to a generation and keeps the others in order |
| `RegistryServiceSafety.PublishedIsConsistent` | packages/provider/src/registry-service.ts:202-242 | every snapshot ever published pairs a configuration with an account overlay based on the same built-in revision |
| `RegistryServiceSafety.AnsweredByLaterRound` | packages/provider/src/registry-service.ts:150-255 | a request is settled once, by a round begun after it; with a snapshot of exactly the revisions read if these fitted together, with the last complete one only if they did not; either way with the one published last at that moment |
| `RegistryServiceSafety.KnownIsNow` | packages/provider/src/registry-service.ts:187-253 | what is settled after reading the sources is recorded with that read and with all that was published by then |
| `RegistryServiceSafety.ObjectIsRun` | packages/provider/src/registry-service.ts:150-273 | the state a service object is in is the state of a run, so all of this holds of it |
| `RegistryServiceSafety.IdleIsSettled` | packages/provider/src/registry-service.ts:174-178 | an idle live service has completed every request, and someone still waits only if nothing was ever published |
| `RegistryServiceSafety.RoundLeavesWaiting` | packages/provider/src/registry-service.ts:205-212 | a round leaves its requests waiting if and only if its sources do not fit together and there is no complete snapshot yet |
| `RegistryServiceSafety.RoundDecides` | packages/provider/src/registry-service.ts:187-253 | a live round refuses if and only if a read failed or what it read fits together, is new and cannot be resolved; it publishes if and only if that can be resolved; it answers with what it publishes or the snapshot held, and only a refusal ends the loop |
| `RegistryServiceSafety.OvertakenDoesNothing` | packages/provider/src/registry-service.ts:188-201 | a round that a later request overtook settles and publishes nothing |
| `RegistryServiceSafety.QuietRefresh` | packages/provider/src/registry-service.ts:150-242 | a request to a service at rest and an undisturbed round over sources that fit: answered with the revisions read |
| `RegistryServiceSafety.FirstMismatchLeavesWaiting` | packages/provider/src/registry-service.ts:205-212 | such a run: one request, a mismatch, and the service idle with the request unanswered |
| `RegistryServiceSafety.RunInv` | packages/provider/src/registry-service.ts:150-273 | every run keeps the invariant |
| `RegistryService.ProviderRegistryService.OnSourcesRead` | packages/provider/src/registry-service.ts:187-253 | the stretch after both reads: repeat, refuse, mismatch, same revisions, resolve error or publish |
| `RegistryService.ProviderRegistryService.ContinueLoop` | packages/provider/src/registry-service.ts:182-186 | another round exactly when a request is not completed |
| `RegistryService.ProviderRegistryService.RequestRefresh` | packages/provider/src/registry-service.ts:150-159 | queues the request and makes sure a loop runs |
| `RegistryService.ProviderRegistryService.FinishRefresh` | packages/provider/src/registry-service.ts:174-178 | requests that came too late start a new loop |
| `OwnedOrder.OrderedMembers` | packages/provider/src/owned-order.ts:7-23 | built-in and personal members are listed exactly once |
| `OwnedOrder.OrderedAsRequested` | packages/provider/src/owned-order.ts:7-23 | requested members keep their requested relative order |
| `OwnedOrder.OrderedIdempotent` | packages/provider/src/owned-order.ts:7-23 | ordering by an order just computed changes nothing |
| `OwnedOrder.OrderedWithoutOne` | packages/provider/src/owned-order.ts:7-23 | taking a personal member away leaves the order of the others |
| `OwnedOrder.OrderedRenamed` | packages/provider/src/owned-order.ts:7-23 | renaming a member everywhere renames it where it stands |
| `OrderPositions.RenamedStays` | packages/provider/src/owned-order.ts:7-23 | renaming a personal member to a free id leaves it in place if and only if no mention of that id comes too early |
| `OrderPositions.AheadOfMentioned` | packages/provider/src/owned-order.ts:7-23 | ahead of a mentioned personal member are exactly the unmentioned built-ins and the members mentioned before it |
| `OwnedOrder.ResolveOwnedOrder` | packages/provider/src/owned-order.ts:7-23 | the program's sets and filters compute the specified order |
| `OwnedOrder.UniqueInOrder` | packages/provider/src/owned-order.ts:25-34 | the loop keeps first occurrences |
| `ModelMembership.AddKeepsOrder` | packages/provider/src/config-service.ts:322-366 | adding a personal model leaves the order of all other models unchanged |
| `ModelMembership.DeleteKeepsOrder` | packages/provider/src/config-service.ts:521-559 | deleting one leaves the order of all others unchanged |
| `ModelMembership.RenameKeepsPosition` | packages/provider/src/config-service.ts:368-414 | renaming keeps the position if and only if the id stays the same, the stored order does not mention the new id, or all that is listed ahead of the old id is mentioned before the new one or is an unmentioned inherited model |
| `ModelMembership.RenameKeepsOthers` | packages/provider/src/config-service.ts:368-414 | renaming never changes the order of the other models, wherever the renamed one goes |
| `ModelMembership.StaleMentionMoves` | packages/provider/src/config-service.ts:400-409 | a stale mention of the new id moves the renamed model |
| `ModelMembership.ReorderAsRequested` | packages/provider/src/config-service.ts:296-320 | reordering lists the same models, the mentioned ones as asked |
| `ModelMembership.EditsSucceed` | packages/provider/src/config-service.ts:296-559 | exactly when adding, renaming, deleting and reordering succeed, by what is listed, personal and inherited |
| `BuiltinRefresh.OneHolder` | packages/provider-node/src/zcode-builtin-remote-synchronizer.ts:81-100 | at any moment of any run at most one process holds an unexpired lease |
| `BuiltinRefresh.TakenOverForGood` | packages/provider-node/src/zcode-builtin-remote-synchronizer.ts:81-168 | a lease once taken over stays so for as long as its process works on it |
| `BuiltinRefresh.TakenOverWritesNothing` | packages/provider-node/src/zcode-builtin-remote-synchronizer.ts:141-168 | a process whose lease was taken over never changes the control record |
| `BuiltinRefresh.AcquireRespectsLease` | packages/provider-node/src/zcode-builtin-remote-synchronizer.ts:86-101 | nobody takes an unexpired lease, and without force nobody starts before it is due |
| `BuiltinRefresh.AcquireSucceeds` | packages/provider-node/src/zcode-builtin-remote-synchronizer.ts:86-101 | whoever is due, or forces it, gets a lease that has run out |
| `BuiltinRefresh.EndingsAre` | packages/provider-node/src/zcode-builtin-remote-synchronizer.ts:107-133 | a refresh ends as a success exactly when the release was applied or there was none, cancelled exactly when it was not and the process is disposed, else as a failure after an error |
| `BuiltinRefresh.QuietRefresh` | packages/provider-node/src/zcode-builtin-remote-synchronizer.ts:81-168 | an undisturbed refresh with a newer release makes it the active one, frees the lease, waits the ordinary interval and forgets all failures |
| `BuiltinRefresh.ActiveNeverDecreases` | packages/provider-node/src/zcode-builtin-provider-config-source.ts:64-84 | under any interleaving of live and expired holders the active revision never decreases and every "updated" strictly raises it |
| `BuiltinRefresh.StepInv` | packages/provider-node/src/zcode-builtin-remote-synchronizer.ts:81-168 | every step of any process, an abort between download and application included, keeps the lease invariant |
| `BuiltinRelease.ApplyRaises` | packages/provider-node/src/zcode-builtin-provider-config-source.ts:64-84 | "updated" is answered exactly for a release above everything there was, "stale" exactly below something, an error without any release, and at the highest revision the content decides; any other answer leaves what reading alone leaves |
| `BuiltinRelease.SelectReleaseCandidate` | packages/provider-node/src/zcode-builtin-provider-config-source.ts:180-206 | the newer valid candidate, the bundled one at equal revisions and so on a conflict, an error only when there is none |
| `BuiltinRelease.ConfigSource.ApplyRemoteRelease` | packages/provider-node/src/zcode-builtin-provider-config-source.ts:64-84 | stale, unchanged, conflict or updated, with the active file as specified |
| `BuiltinRelease.ConfigSource.ReadAndMaterialize` | packages/provider-node/src/zcode-builtin-provider-config-source.ts:100-113 | the selected release, written back if the active file differs |
| `BuiltinRelease.ConfigSource.Read` | packages/provider-node/src/zcode-builtin-provider-config-source.ts:49-62 | with a valid bundled release reading never fails, whatever happens to the active file |
| `BuiltinLease.BackoffGrows` | packages/provider-node/src/zcode-builtin-remote-synchronizer.ts:149-159 | more failures in a row never wait less, each waiting twice as long as the one before, or the cap |
| `BuiltinLease.BackoffSinceSuccess` | packages/provider-node/src/zcode-builtin-remote-synchronizer.ts:141-168 | whatever went before, a success ends the backoff: failures are counted since the last success, the nth waits the nth backoff, a success the ordinary interval, a cancelled refresh not at all, and in between the lease is free |
| `BuiltinLease.Synchronizer.TryAcquire` | packages/provider-node/src/zcode-builtin-remote-synchronizer.ts:86-101 | taken if and only if the record is of another endpoint, or its lease has run out and it is due or forced; held exactly by an unexpired lease of the same endpoint; taken with a fresh lease of the given length |
| `BuiltinLease.Synchronizer.FinishLease` | packages/provider-node/src/zcode-builtin-remote-synchronizer.ts:141-168 | releases only its own lease, with the delay its ending calls for |

## Left out

- Time: deadlines, grace periods, the assembly timeout and the buffered-frame timer are steps the
  environment may take, enabled as the code has them; `queuedAt` and the timers themselves are not modelled.
- Wire form: base64, JSON schemas, envelope measuring and checksums; a frame is a record, the measure a
  parameter, the checksum any function.
- Sequence numbers are unbounded: the exhaustion of safe integers is not modelled.
- Batches in the replay queue are values; the program's batch object shared between queue and flush loop
  becomes an update of the queue's slot.
- Identity checks: a payload of another bridge is `Foreign` and changes nothing.
- Relay callbacks: listeners of the degraded event, throwing saturation listeners, and a replay called
  from inside sendFrame are not modelled; sendFrame of the older relay re-enters only as
  `SequencedRelaySafety.ReentryIsSafe` describes.
- The FIFO theorems assume that a transport takes frames after a cut only once the replay has begun, that
  a refused frame is not on the wire, and that a payload arriving outside sendFrame finds the inbound
  queue empty, without which an endpoint can fault (`RelayOvertaking`); the channel theorem needs none of
  this.
- Error offsets and messages of the tokenizer, parser and evaluator, and the offsets kept in expressions.
- The numbers of the option map language are reals with signed zero, infinities and not-a-number; which
  reals are doubles and how results are rounded is a parameter.
- Compile caches, freezing and the insertion order of object keys.
- The order of members within one merge patch: the loops are proved for every order.
- Refresh reasons passed to resolvers and listeners; listeners do not throw.
- AccountService.AccountProviderService.Read: says that a first read joins the loop under way; what the loop
  then gives it is `AccountServiceSafety.LoopAnswers`, since joined readers are not waiters of the model.
- A configuration endpoint that changes during a download: all processes use one endpoint.
- The registry's own resolution of a consistent pair of sources: it succeeds or fails as the environment says.
- Model rules, provider names, groups and templates, and the membership revision check: an edit here
  changes only model membership and order.
- File system, locks, hashing, watching and fetching: a stretch under a file lock is one step, lease ids
  are unique, all processes use one endpoint and separate bundled and active files, the clock never goes back.
- The published-change events of the release source, and the finite decision table and user interfaces of
  the formal-proof package.
