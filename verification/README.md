# A verified model of the SIP stack

This project models the parts of a SIP stack (RFC 3261) that decide what is sent, what is delivered and what is
read off the wire, and proves what they promise for every run, every interleaving, every chunking and every string.

**Protocol machines.** Each is a datatype for the shared state with one step per atomic section of the code (what
happens under one hold of a lock, or one send, channel operation or unlocked read), and theorems over every run.

- `ForkGroup`: a fork group of the proxy: the fork loop, one runner per branch, Timer C, and the upstream server
  transaction as far as finals go. `ForkRecords` traces every answer to its cause and shows that nothing stays in the
  tables. `BestResponse` is the choice between branch finals; `Proxies` holds the mutable tables, whose methods are proved
  to perform the machine's steps.
- `ClientTransaction` and `ServerTransaction`: sections 17.1 and 17.2 of RFC 3261 as implemented, with the objects
  `ClientTx` and `ServerTx`. `ClientAccounts` and `ServerAccounts` count what they send, report and schedule over whole
  runs. `Exchange` joins one client transaction with every server transaction that its request
  opens, over a network that loses, duplicates and reorders. `Retransmission` is the timing of the client's loop.
- `SingleFlight`: concurrent callers of the stream-connection dialler.

**Wire format.** Text is a sequence of ASCII characters. Printers, parsers and splitters are functions; where the code
is a loop or edits in place there is a method or class proved equal to the function.

- `Text`: the strings and strconv operations that the rest is built on.
- `HeaderNames`, `Headers`, `HeaderValues`: canonical names, the in-place header list, typed header values.
- `Params`, `ParamsExactness`, `Uris`, `UriExactness`: parameter lists and URIs, and exactly which survive a round trip;
  `ParserLeniency`: texts that the printers do not write.
- `Framing`, `FramingEdges`, `Messages`, `MessageParser`: the stream splitter, rendering, parsing; `HeaderFolding`: header
  blocks with blanks and continuation lines, and the lines that are refused.
- `Routing`, `RoutingHeaders`: transaction keys and the header edits of Respond, ACK and CANCEL.

**Smaller algorithms.** `SrvOrder` (RFC 2782 ordering of SRV records) and `Sdp` (the GB28181 session description).

## What the code does not meet

Where a promise fails, the code is modelled as it is, a lemma gives the input or run, and another says exactly when it holds.

- `fork` registers branches one at a time while their runners already run. Packets are dispatched by the goroutine that
  runs `fork`, so no response reaches a branch before the loop has ended; but a branch whose client transaction times out,
  or whose deadline passes, while the loop is held up by a later target is aggregated alone, and a later 2xx is then not
  forwarded (`EarlyAggregateHidesSuccess`). That can happen exactly when there are two targets or more and hops are left
  (`AggregateHidesExactlyWhen`), and never in a run in which no branch gives up during the loop: there every aggregate is
  the answer of the whole group (`PatientAggregateIsWhole`).
- Timer C looks at the branches and answers later, so its 504 can go before a 200 that arrived in between
  (`TimerHidesSuccess`), exactly when a branch can be started at all (`TimerHidesExactlyWhen`). There is no third way to
  hide a 2xx (`SuccessWins`).
- If no branch could be started and hops remain, nothing is ever answered upstream (`NothingIsAnswered`, `ExactlyOneFinal`).
- `Request` writes Calling after sending, so a final that arrives in between is delivered and then forgotten
  (`EarlyFinalDeliveredTwice`); `timeout` checks the state and reports in two steps, so a final in between comes with a
  timeout (`LateFinalAndTimeout`). `TerminalEventsBounded` counts the terminal events exactly in terms of these two windows.
- A provisional that arrives before that write is forgotten too, and the INVITE may be resent any number of times after it
  (`EarlyAnswerStopsNothing`). A response between a retransmit check and its send does not stop that one send
  (`AnswerCaughtByResend`). `NoResendAfterAnswer` says exactly when a copy follows a response.
- `Respond` sends after releasing its lock, so a provisional decided before the final can reach the wire after it
  (`ProvisionalAfterFinal`). This is possible exactly when a provisional waits to be sent at the moment the final is
  recorded (`OrderBreaksExactlyWhen`), and never for a caller that responds one call after the other
  (`SequentialKeepsOrder`).
- INVITE backoff is capped at 2*T1, unlike Timer A of section 17.1.1.2 of RFC 3261, which keeps doubling: the waits
  agree exactly for the first two (`DoublesExactlyWhen`, `UnansweredInvite`).
- The client sends an ACK for a final of a request other than INVITE (`NonInviteIsAcked`), exactly for those it accepts
  that are not a 2xx (`NonInviteAcks`).
- `finish` deletes from the table by key; after that a late copy of the request is handled again
  (`HandledAgainAfterRemoval`, `HandledAtMostOnce`).
- Transaction keys are ambiguous when a method contains '|' (`KeyShift`): two methods can share a key exactly when one
  ends in '|' and the other (`CollideExactlyWhen`).
- The parameter printer escapes quotes but not backslashes, so a value with a quote after a backslash can be split apart
  (`BackslashQuoteBreaks`). `ParamsExactness.RoundTripExactly` gives the exact condition on the values of a list.
- The parameter printer quotes a '?', but the URI parser cuts at it regardless of quotes (`QuestionMarkBreaks`). A user
  with ';' or '?', which section 19.1.1 of RFC 3261 allows, is the result of no text at all (`UserDelimiterBreaks`).
  Printing also drops a password without a user, a negative port and an empty list, and puts a host with a colon in
  brackets. `UriExactness.RoundTripExactly` gives the exact condition over all of these.
- A continuation line after a header that was read as a typed one is dropped (`FoldOfTypedIsLost`). Breaking a value at a
  space changes nothing exactly as long as its first part alone is not read as a typed value, and so never under a name
  without a type (`FoldingKeepsMeaning`, `FoldThenParse`).
- An SSRC printed in decimal is read as hexadecimal first; it comes back exactly when it has one digit or more than eight
  (`DecimalSsrcExactly`).
- The splitter accepts a negative Content-Length, which cuts the message inside its own header block, makes Feed take an
  empty message for ever, or panics (`NegativeLengthCuts`). `ShortExactlyWhen` and `MessagesAreLongEnough` say which
  lengths do what. The model's `Stalled` stands for the last two, where the code never returns.
- The connection limit is tested when a dial starts and not when its connection is pooled, so callers of different keys
  can together fill the pool to any size (`LimitBreaks`). It holds when every dial starts with room for all dials under way
  (`LimitHoldsWhenReserved`).
- A session description with an end time alone is read back with that as its start time (`EndAloneBecomesStart`).
  `EveryFieldRecovered` says exactly when all fields come back.
- A framing error sticks only until the buffer overflows its limit, which clears it (`ErrorIsForgotten`, `ErrorsAreSticky`).

## Model

| member | source | states |
|---|---|---|
| `ForkGroup.StepKeeps` | proxy.go:202-356 | every atomic section of the fork loop, the runners and Timer C keeps the group invariant, and never undoes a recorded final, a branch final or the end of the fork loop |
| `ForkGroup.RunKeeps` | proxy.go:202-356 | the same over every interleaving of any length |
| `ForkGroup.ExactlyOneFinal` | proxy.go:202-356 | once the fork loop and all runners have ended, exactly one final has been recorded and sent upstream if a branch was started or hops ran out, and none otherwise, whatever Timer C does and however many 2xx arrived |
| `ForkGroup.FinalIsStable` | transaction.go:718-747 | at any point of any run at most one final has gone upstream, and the recorded one never changes, calls after cleanup included |
| `ForkGroup.AggregateIsBest` | proxy.go:334-356 | an aggregated answer comes from a branch, every branch in its snapshot was final with no higher rank, it is a 2xx exactly when one of them succeeded, and the snapshot is the whole group with a single target, once the fork loop had ended, and in every run in which no branch gives up during that loop |
| `ForkGroup.PatientAggregateIsWhole` | proxy.go:253-356 | in every run in which no branch times out or passes its deadline during the fork loop, an aggregate is recorded only when every branch of the group is final, has the highest rank of all, and hides no 2xx |
| `ForkGroup.SuccessWins` | proxy.go:286-356 | a branch's 2xx is not the answer upstream exactly when Timer C answered or the aggregate saw no success; the latter needs two targets, a branch that gave up during the fork loop, and a snapshot without the successful branch |
| `ForkGroup.EarlyAggregateHidesSuccess` | proxy.go:202-284 | for any two targets or more, a run in which the first branch times out during the fork loop and a 504 goes upstream although the second branch answers 200 after it |
| `ForkGroup.AggregateHidesExactlyWhen` | proxy.go:202-356 | some run hides a 2xx behind an aggregate if and only if there are two targets or more and hops are left |
| `ForkGroup.TimerHidesSuccess` | proxy.go:229-249 | for any number of targets, a run in which the 504 of Timer C goes upstream although the branch answers 200 |
| `ForkGroup.TimerHidesExactlyWhen` | proxy.go:229-249 | some run hides a 2xx behind Timer C if and only if a branch can be started |
| `ForkGroup.NothingIsAnswered` | proxy.go:208-222 | for any number of targets, a run in which all fail to start and the group ends without an answer |
| `ForkRecords.MarksAreExplained` | proxy.go:253-284 | every final of a branch was given by a step of the run: the branch's own response, or a 504 for an error or a passed deadline |
| `ForkRecords.AnswerIsExplained` | proxy.go:202-356 | the answer upstream is a 483 exactly when hops ran out, a 504 of Timer C, a winner's 2xx, or the final of a branch |
| `ForkRecords.NothingIsLeftBehind` | proxy.go:385-390 | in every interleaving, once the fork loop and all runners have ended, the tables hold nothing of the group, although groups are dropped and branches registered in any order |
| `ForkRecords.ClaimedIsLeftAlone` | proxy.go:286-345 | once a winner holds the group, no other runner and no Timer C begins to answer it |
| `BestResponse.BestIsEarliestMaximum` | proxy.go:358-383 | the chosen response is the earliest one of maximal rank |
| `BestResponse.BestFollowsTheList` | proxy.go:358-383 | without a 2xx the chosen status is the first of 491, 600, 603, 486, 404, 403, 401, 407, 415, 503, 500, 502, 504 that a branch ended with, and the greatest status when none did |
| `BestResponse.FirstSuccessIsBest` | proxy.go:358-383 | with a 2xx among the finals the earliest one is chosen |
| `BestResponse.BestOrderFree` | proxy.go:358-383 | the result is a 2xx exactly when some branch got one; otherwise its status does not depend on branch order |
| `BestResponse.RankInjective` | proxy.go:358-383 | among valid non-2xx finals the rank identifies the status code |
| `BestResponse.SuccessOutranks` | proxy.go:358-383 | a 2xx outranks every other valid final |
| `Proxies.Proxy.OpenGroup` | proxy.go:203-207 | the tables at the key are the initial machine state and no other key changes |
| `Proxies.Proxy.Register` | proxy.go:223-227 | appending the branch is the machine's start step |
| `Proxies.Proxy.MarkBranch` | proxy.go:253-284 | marking the branch final is the machine's mark, whatever the runner does next |
| `Proxies.Proxy.Snapshot` | proxy.go:334-338 | the copied list and flag are those of the machine |
| `Proxies.Proxy.Claim` | proxy.go:286-294 | the first runner to enter wins, and the tables follow the machine's claim step |
| `Proxies.Proxy.CleanupGroup` | proxy.go:385-390 | exactly this key is dropped, as in the cleanup step of a runner and of Timer C |
| `Proxies.PickBestResponse` | proxy.go:358-383 | the loop finds the best of the finals that the branches hold, and nothing exactly when none holds one |
| `Proxies.SnapshotFinals` | proxy.go:334-356 | the finals read from a snapshot of objects are the ones the machine aggregates |
| `ClientTransaction.StepKeeps` | transaction.go:477-577 | every step of an INVITE client keeps the invariant that accounts for each delivered final, each timeout and each resend |
| `ClientTransaction.RunKeeps` | transaction.go:477-577 | the same over every run, and Completed is kept after the start |
| `ClientTransaction.TerminalEventsBounded` | transaction.go:526-577 | the exact number of terminal events after any run; at most one unless a final came before the start write or after the timeout had committed |
| `ClientTransaction.CompletedIsKept` | transaction.go:407-414 | a reached Completed is left by the start write and by no other step, and so never once that write is done |
| `ClientTransaction.NoResendAfterAnswer` | transaction.go:477-523 | after the first response accepted after the start the INVITE goes out at most once more, and once exactly if the response fell between check and send; with no earlier response this counts every copy after any response |
| `ClientTransaction.AnswerCaughtByResend` | transaction.go:497-507 | a run in which a 180 falls between check and send and one more copy goes out |
| `ClientTransaction.EarlyAnswerStopsNothing` | transaction.go:403-413 | for every n, a run in which a 180 is delivered before the start write and n more copies go out |
| `ClientTransaction.NonInviteAcks` | transaction.go:566-576 | over every run of another request, a response is acknowledged exactly when it was accepted and is 300 or above |
| `ClientTransaction.NonInviteIsAcked` | transaction.go:566-576 | a run in which a 404 to such a request is acknowledged |
| `ClientAccounts.InviteAccounts` | transaction.go:540-577 | over every run of an INVITE: each 2xx is acknowledged once for every time it came in, each other final once for every time it was reported; exactly the accepted responses are reported; each reported final schedules one finish |
| `ClientAccounts.EventsAreKept` | transaction.go:579-587 | over every run: what is queued is the end of what was delivered, at most 64 events; nothing is dropped while at most 64 were offered; a timeout, a finish, and a 2xx outside INVITE take the transaction out of the table |
| `ClientAccounts.OthersKeepResending` | transaction.go:497-507 | for every n, a run in which a request other than INVITE is resent n times after a 100 |
| `ClientAccounts.StoppedLoopIsSilent` | transaction.go:490-496 | a loop that sees the stop sends no copy of the request any more, whatever happens later |
| `ClientTransaction.SleepingLoopIsSilent` | transaction.go:477-523 | once answered after the start with the loop asleep, no run resends the INVITE |
| `ClientTransaction.EarlyFinalDeliveredTwice` | transaction.go:403-413 | a run that delivers the same 200 twice |
| `ClientTransaction.LateFinalAndTimeout` | transaction.go:526-538 | a run that delivers a 200 and a timeout |
| `ClientTransaction.ClientTx.Push` | transaction.go:579-587 | an event enters the channel if one of its 64 slots is free and is dropped otherwise |
| `ClientTransaction.ClientTx.Close` | transaction.go:640-650 | the transaction is stopped and leaves the table, its state unchanged |
| `ClientTransaction.ClientTx.Accept` | transaction.go:540-577 | receive on the object is the machine's receive |
| `ClientTransaction.ClientTx.CheckTick` | transaction.go:497-506 | the loop goes on exactly when the machine does |
| `ClientTransaction.ClientTx.CheckTimeout` | transaction.go:526-532 | the timeout commits exactly when the machine's does |
| `ClientTransaction.ClientTx.FireTimeout` | transaction.go:533-538 | the rest of timeout is the machine's fire step |
| `ServerTransaction.StepKeeps` | transaction.go:661-786 | every step keeps the invariant and moves the state forward only; Confirmed is entered only from Completed, by an ACK, for an INVITE |
| `ServerTransaction.RunKeeps` | transaction.go:661-786 | the same over every run |
| `ServerTransaction.FinalIsWrittenOnce` | transaction.go:693-748 | the final is written at most once, is set exactly in Completed or Confirmed, and only an acknowledged INVITE is Confirmed |
| `ServerTransaction.OnlyTheFinalIsRepeated` | transaction.go:661-776 | what is decided to be sent is provisionals followed by copies of one final, and every final on the wire is the recorded one |
| `ServerTransaction.OrderBreaksExactlyWhen` | transaction.go:718-747 | when a final is recorded, some continuation puts a provisional behind a final on the wire if and only if a provisional decided before is still to be sent |
| `ServerTransaction.SequentialKeepsOrder` | transaction.go:718-747 | for a caller whose every Respond follows the send of the one before, no provisional follows a final on the wire |
| `ServerTransaction.ProvisionalAfterFinal` | transaction.go:725-736 | a run whose wire carries 200 and then 180 |
| `ServerTransaction.ServerTx.Reply` | transaction.go:718-735 | the lock section of Respond on the object is the machine's; it refuses exactly codes out of range and provisionals after the final |
| `ServerTransaction.ServerTx.ReceiveAck` | transaction.go:675-691 | ACK on the object is the machine's step |
| `ServerTransaction.ServerTx.ReceiveRetransmission` | transaction.go:661-669 | a repeated request is answered with the recorded final exactly when there is one |
| `ServerAccounts.ServerAccount` | transaction.go:661-786 | over every run: the final is decided once, and once more for every repeated request and every tick of the loop before the ACK; each provisional in order once; what is decided is pending or was sent; finishes are scheduled by the final's own send and by the ACK, which alone confirms |
| `ServerAccounts.RepeatedUntilAcked` | transaction.go:750-776 | once an INVITE's final has been sent, and until an ACK or a stop, the loop can always tick, and each tick puts one more copy on its way |
| `ServerAccounts.EndedLoopIsSilent` | transaction.go:750-776 | a loop that is stopped, or ticks after the ACK, never ticks again |
| `Exchange.RunKeeps` | transaction.go:242-323 | over every run of the pair and the network, every response the client holds was sent by a server transaction of this request |
| `Exchange.HandledAtMostOnce` | transaction.go:242-303 | the handler has run once more often than the key was removed while the table holds it, so at most once as long as it was not removed |
| `Exchange.ClientDeliversServersFinal` | transaction.go:305-323 | every final the client delivers is the recorded final of a server transaction of this request, and of the only one if the key was never removed |
| `Exchange.HandledAgainAfterRemoval` | transaction.go:778-786 | a run in which the request is handled twice |
| `Exchange.RepeatIsAnswered` | transaction.go:278-303 | over every run: a repeated request is answered with one more copy of the recorded final and not handled; one that finds no transaction is |
| `Exchange.LostAnswerIsRepaired` | transaction.go:540-776 | for every 2xx, a run in which its first copy is lost, the next is delivered and acknowledged, and the server is confirmed |
| `Retransmission.Unanswered` | transaction.go:477-524 | the loop ends, with TimerF not reached before and elapsed in [TimerF, TimerF + the longest wait), or equal to T1 when TimerF is zero |
| `Retransmission.WaitIsCappedDoubling` | transaction.go:518-521 | the k-th wait is min(2^k*T1, cap), except that the first is T1 even above the cap |
| `Retransmission.TimesOutExactlyWhen` | transaction.go:477-524 | a timeout is ever reached exactly when both intervals are positive or the first wait already reaches TimerF |
| `Retransmission.UnansweredInvite` | transaction.go:480-482 | an INVITE is resent exactly 1 + ceil((TimerF - T1) / (2*T1)) times when TimerF > T1, and once otherwise |
| `Retransmission.DoublesExactlyWhen` | transaction.go:480-482 | the k-th wait of an INVITE is 2^k*T1 if and only if k is at most 1 or T1 is zero |
| `Routing.KeyInjective` | transaction.go:204-228 | keys determine side, branch and method when methods contain no bar |
| `Routing.KeyShift` | transaction.go:204-228 | moving a bar from method to branch leaves the key the same |
| `Routing.KeysEqualExactlyWhen` | transaction.go:204-228 | two keys are equal if and only if they name one transaction, or one method ends in a bar and the other and the branches make up for it |
| `Routing.CollideExactlyWhen` | transaction.go:204-228 | two different methods can share a key if and only if one ends in a bar and the other |
| `Routing.RespondRoutesBack` | transaction.go:697-717 | whatever headers the response held, after Respond its client key is the key of the request |
| `Routing.FollowKeepsBranch` | transaction.go:589-637 | what the client builds after its request carries the request's branch under the new method |
| `Routing.AckAndCancelReachTheInvite` | transaction.go:248-268 | ACK and CANCEL are looked up under exactly the INVITE's server key, and the CANCEL's own transaction has another |
| `RoutingHeaders.StampedHeaders` | transaction.go:697-717 | whatever the response held: the request's Via in front of its own, exactly the request's CSeq, its own From, To, Call-ID and Record-Route or else the request's, and all other headers as they were |
| `RoutingHeaders.FollowHeaders` | transaction.go:589-637 | what follows a request carries exactly its Via, the given routes, its From, the given To, its Call-ID, its CSeq number under the new method and 70 hops |
| `RoutingHeaders.AckAndCancelHeaders` | transaction.go:589-637 | an ACK has the To of the response and the route set of the request, a CANCEL the To of the request and no route |
| `Framing.SplitHead` | parser.go:221-249 | the length loop of splitOne: message and rest are the two halves at the declared end, nothing is consumed on error or short data, and the panic on a length beyond the start is told apart |
| `Framing.LastLengthWins` | parser.go:227-240 | any malformed length in a block fails; otherwise the last length counts |
| `Framing.StreamSplitter.Feed` | parser.go:200-219 | one call emits exactly the messages of old buffer plus data and keeps their residue, clears the buffer above the limit, or never returns |
| `Framing.SplitExtend` | parser.go:221-249 | more data never revises a decision about the head of the buffer |
| `Framing.StreamExtend` | parser.go:200-219 | framing a longer stream is framing the first part and then its residue with the rest |
| `Framing.ChunkingIndependent` | parser.go:200-219 | for every partition of a stream the emitted messages, the residue and the error are those of the whole |
| `Framing.FeedChunks` | parser.go:200-219 | the same on the splitter object for streams of any length, as long as each chunk fits the limit together with the residue before it |
| `Framing.ShortStreamFits` | parser.go:200-204 | every partition of a stream within the limit fits |
| `Framing.StreamConserved` | parser.go:200-249 | messages and residue concatenated are the stream |
| `Framing.MessagesAreLongEnough` | parser.go:221-249 | every message has at least 4 bytes, which bounds their number, if and only if no head declares a length that reaches back before its empty line |
| `Framing.ShortExactlyWhen` | parser.go:242-248 | exactly which declared lengths panic, give an empty message, or one below 4 bytes |
| `Framing.ErrorsAreSticky` | parser.go:200-211 | after an error all later calls fail, emit nothing and keep the faulty head if and only if the buffer with all their chunks stays within the limit |
| `Framing.OverflowForgetsError` | parser.go:201-204 | after any overflowing chunk the next whole message is framed again |
| `Framing.FeedEach` | parser.go:200-219 | a list of calls on the object leaves, call by call, what these results speak about |
| `FramingEdges.NegativeLengthCuts` | parser.go:233-248 | inputs with lengths from -1 to -9 in an eight-byte block: shortened messages, one below 4 bytes, an endless empty message, a panic |
| `FramingEdges.ErrorIsForgotten` | parser.go:201-211 | a concrete faulty buffer, overflowing chunk and message that is framed after them |
| `Framing.WholeMessagesInSequence` | parser.go:200-249 | messages that are framed whole alone are framed whole in sequence |
| `Messages.RenderMessage` | message.go:208-230 | the buffer loop writes start line, headers, a missing Content-Length and the body |
| `Messages.SetBodyAgrees` | message.go:164-188 | whatever the headers were, exactly one Content-Length with the body's length remains and the given Content-Type replaces any other; a nil body leaves neither |
| `Messages.SetBodyKeepsOthers` | message.go:164-188 | SetBody touches no other header |
| `Messages.RenderAddsLengthExactlyWhen` | message.go:208-230 | a Content-Length is added, at the end, if and only if there is a body and none |
| `Messages.TwoWordsAreNoLength` | parser.go:228-241 | a start line is never taken for a Content-Length line |
| `Messages.RenderedIsWhole` | message.go:208-230 | a rendered message is framed as exactly itself, blank lines in the body included |
| `Messages.PrintThenFrame` | message.go:208-230 | the concatenation of any list of rendered messages is split back into exactly those |
| `MessageParser.ParseHeaderBlock` | parser.go:86-142 | the loop with its limits, folding and error exits computes the header-block function |
| `MessageParser.BlockWithinLimits` | parser.go:86-142 | whatever the text, at most one header per line and 128 lines are taken, and the body is text that follows the block, within the limit |
| `MessageParser.AcceptedIsValid` | parser.go:20-84 | only messages with a valid start line, the five mandatory headers and sizes within every limit are accepted |
| `HeaderFolding.FieldIsOneHeader` | parser.go:86-148 | the lines of one header, blanks and continuations included, are read as one header: its whole value for a generic one, the first line for a typed one |
| `HeaderFolding.FoldedBlockIsRead` | parser.go:86-142 | any block of at most 128 lines, however spaced and folded, is read header by header, with a body of the last Content-Length, and refused exactly when that is over the limit or the text too short |
| `HeaderFolding.FoldingKeepsMeaning` | parser.go:109-115 | moving the end of a value to a line of its own keeps the header whenever its first part is not read as a typed value |
| `HeaderFolding.FoldThenParse` | parser.go:86-148 | for every well-formed message and every header without a type, breaking the line at a space in its value parses to the same message |
| `HeaderFolding.FoldOfTypedIsLost` | parser.go:144-148 | a folded CSeq whose second line is dropped |
| `HeaderFolding.GenericKeepsText` | parser.go:150-181 | a header whose name has no type, or whose value does not parse, keeps its text |
| `HeaderFolding.RefusedLines` | parser.go:96-120 | a block is refused at a line with a bare CR, a line too long, a line too many, a continuation of nothing, and a line without a colon |
| `HeaderFolding.MethodIgnoresCase` | parser.go:42-60 | the method of a request line is read in upper case |
| `HeaderFolding.MissingReasonIsDefault` | parser.go:62-84 | a status line without a reason gets the default of its code |
| `HeaderFolding.CSeqIgnoresCase` | headers.go:293-303 | the method of a CSeq is read in upper case |
| `MessageParser.TypedHeadersPrintBack` | parser.go:150-181 | CSeq, Content-Length and Max-Forwards are read back from their own text |
| `MessageParser.PrintThenParse` | parser.go:20-142 | a well-formed message parses back to the same start line, the same ordered names and values and the same body |
| `MessageParser.WellFormedIsFrameable` | message.go:208-230 | a message that parses back is also framed whole |
| `MessageParser.StreamRoundTrip` | parser.go:20-84 | a stream of rendered well-formed messages is split and each part parses back to its message |
| `HeaderValues.CSeqRoundTrip` | headers.go:293-307 | every CSeq with a 32-bit number and an upper-case method is read back |
| `HeaderValues.ContentLengthRoundTrip` | headers.go:309-325 | every 32-bit length is read back |
| `HeaderValues.MaxForwardsRoundTrip` | headers.go:327-331 | every 64-bit hop count is read back |
| `HeaderNames.CanonicalName` | headers.go:77-89 | the loop over dash-separated parts computes the position-wise capitalisation of names outside the table |
| `HeaderNames.TitleByParts` | headers.go:77-89 | capitalising the parts and joining them is capitalising after every dash |
| `HeaderNames.CanonicalIgnoresCase` | headers.go:77-89 | names equal up to case have one canonical form |
| `HeaderNames.TableIsFixed` | headers.go:28-75 | every long name in the table is its own canonical form |
| `HeaderNames.CanonicalIsIdempotent` | headers.go:77-89 | canonicalising twice changes nothing |
| `HeaderNames.ContentLengthNames` | headers.go:28-89 | exactly two spellings, up to case and surrounding space, name the body length |
| `HeaderNames.CompactNames` | headers.go:28-49 | the long form of each of the 21 compact names |
| `Headers.ReplaceRefinesMultimap` | headers_map.go:20-35 | after Set the new header is the only one of its name and all others keep their order |
| `Headers.ReplaceAt` | headers_map.go:20-35 | it stands at the first old position, or at the end |
| `Headers.OthersHasNone` | headers_map.go:58-67 | after Del no header of the name is left |
| `Headers.OthersKeepsNames` | headers_map.go:58-67 | Del leaves the headers of every other name as they were |
| `Headers.GetIsFirst` | headers_map.go:37-56 | Get is the first element of All |
| `Headers.GetAfterReplace` | headers_map.go:20-45 | Get finds what Set stored |
| `Headers.GetOtherAfterReplace` | headers_map.go:20-56 | Set changes no other name |
| `Headers.GetAfterAdd` | headers_map.go:11-45 | an added header is found exactly when none of its name was there |
| `Headers.DropAfter` | headers_map.go:20-35 | the inner removal loop of Set drops exactly the later headers of the name |
| `Headers.HeaderList.Find` | headers_map.go:37-45 | the scan is Get |
| `Headers.HeaderList.Collect` | headers_map.go:47-56 | the scan is All |
| `Headers.HeaderList.Set` | headers_map.go:20-35 | the in-place edit is the multimap replacement |
| `Headers.HeaderList.Del` | headers_map.go:58-67 | the in-place compaction removes exactly the name |
| `Params.PutKeepsUnique` | params.go:29-47 | set keeps keys unique ignoring case and stores the parameter |
| `Params.RemoveIsComplete` | params.go:73-83 | on such a list Del's single removal leaves no such key and drops nothing else |
| `Params.ParamList.Store` | params.go:29-47 | the loop of set |
| `Params.ParamList.Find` | params.go:49-59 | value and flag of the first matching key |
| `Params.ParamList.Delete` | params.go:73-83 | the loop of Del, after which the key is absent |
| `Params.Render` | params.go:120-134 | the builder loop writes each escaped key and value |
| `Params.SplitParamList` | params.go:136-156 | the scan cuts exactly at the semicolons outside quotes |
| `Params.ParsedIsUnique` | params.go:166-191 | whatever the text, a parsed list has keys unique ignoring case |
| `Params.NoBackslashIsBalanced` | params.go:112-156 | every value without a backslash is safe to quote |
| `Params.ValueRoundTrip` | params.go:112-164 | a clean value that is trimmed or quoted survives escaping and unquoting |
| `Params.SplitPrinted` | params.go:120-156 | the splitter undoes the printer, semicolons, commas and quotes in values included |
| `Params.RoundTrip` | params.go:120-191 | a well-formed list parses back to itself |
| `Params.BackslashQuoteBreaks` | params.go:112-156 | a value that makes the printed list unparsable |
| `ParserLeniency.BlanksAreIgnored` | params.go:166-191 | blanks around key and value do not matter, and a key with a delimiter is refused |
| `ParserLeniency.FlagIsRead` | params.go:166-191 | a part without an equals sign is a flag |
| `ParserLeniency.EmptyPartsAreSkipped` | params.go:172-175 | empty parts, as doubled semicolons leave them, are skipped |
| `ParserLeniency.ParsedKeysAreTokens` | params.go:166-191 | whatever the text, every parsed key is a non-empty, trimmed, lower-case text without delimiters |
| `ParserLeniency.QuotedExactlyWhen` | params.go:112-118 | a value is printed in quotes if and only if it holds a quote, a semicolon, a question mark or a comma |
| `ParamsExactness.ValueExactly` | params.go:112-164 | a value is read back exactly when it has no CR, LF or NUL and is trimmed or quoted |
| `ParamsExactness.ParsingGrows` | params.go:166-191 | parsing adds at most one item per part and creates no semicolon |
| `ParamsExactness.JoinInjective` | params.go:136-156 | a text joined by semicolons falls apart in one way once the semicolons of each part are known |
| `ParamsExactness.SeparableByValues` | params.go:112-156 | whether the scanner keeps the printed pieces apart can be read off the values |
| `ParamsExactness.RoundTripExactly` | params.go:112-191 | for every list of distinct token keys with any values: it parses back to itself if and only if its values are faithful, no quoted value lets a semicolon stand outside the quotes, and each but the last ends inside them |
| `Uris.ParseHeaders` | uri.go:25-135 | the loop over the header part keeps the last value of each key |
| `Uris.RenderHeaders` | uri.go:219-258 | the builder loop joins the headers |
| `Uris.ParseUri` | uri.go:25-135 | the assignments and error exits of ParseUri compute the parsing function |
| `Uris.RoundTrip` | uri.go:25-135 | every well-formed URI, with optional user, password, port, parameters and headers, parses back to itself |
| `Uris.ParsePrinted` | uri.go:25-135 | a URI whose text falls apart into its parts parses back with the parameters that are read from their own text |
| `UriExactness.ParsedHasNoQuestion` | uri.go:45-62 | whatever the text, no parameter value of a parsed URI holds a question mark |
| `UriExactness.ParsedAuthority` | uri.go:45-120 | whatever the text, a parsed user and password hold no ';' or '?', a user no colon, and a host one only in brackets |
| `UriExactness.RoundTripExactly` | uri.go:25-135 | a URI of printable, white-space-free parts parses back to itself if and only if user and password hold no delimiter, a password comes with a user, a host's colon stands in brackets, the port is not negative, no list is empty, and parameter values are safe to quote and hold no '?' |
| `UriExactness.UserDelimiterBreaks` | uri.go:49-76 | a URI with a semicolon in its user that no text parses to |
| `UriExactness.BackslashQuoteBreaks` | uri.go:219-258 | a URI with a backslash and a quote in a parameter value that does not survive |
| `UriExactness.QuestionMarkBreaks` | uri.go:219-258 | a URI whose parameters survive alone and which does not |
| `ParserLeniency.SchemeIgnoresCase` | uri.go:25-44 | the case of the scheme and white space around the text do not matter |
| `ParserLeniency.ParsedUriIsValid` | uri.go:25-44 | whatever the text, a parsed URI has one of the three schemes, in lower case, and a host |
| `ParserLeniency.BareHostIsBracketed` | uri.go:219-258 | a host with a bare colon is printed in brackets and read back with them |
| `SrvOrder.SortIsStable` | resolver.go:111-112 | the sort is an ordered permutation that keeps the order within each priority |
| `SrvOrder.PickedInterval` | resolver.go:128-138 | a random value picks the record whose weight interval it falls in |
| `SrvOrder.PickedByItsWeight` | resolver.go:128-138 | of the total possible values exactly Weight pick a record |
| `SrvOrder.DrawsPickByWeight` | resolver.go:121-138 | of the draws below the total weight exactly Weight pick a record, and with all weights zero exactly one draw picks each |
| `SrvOrder.PickRecord` | resolver.go:121-138 | the accumulating loop |
| `SrvOrder.ShuffleIsOrderedPermutation` | resolver.go:110-146 | for every choice sequence the result is a permutation in non-decreasing priority with zero weights last in their priority |
| `SrvOrder.RemoveAt` | resolver.go:141 | the in-place removal changes nothing outside the group's window |
| `SrvOrder.ConsumeGroup` | resolver.go:120-142 | one group is consumed in place and later groups stay as they are |
| `SrvOrder.PickGroups` | resolver.go:114-144 | the outer loop over the sorted slice takes the groups of equal priority in order |
| `SrvOrder.ShuffleSrv` | resolver.go:110-146 | the whole in-place algorithm computes the ordered permutation |
| `SingleFlight.RunKeeps` | transport.go:380-426 | every lock section of every caller keeps the invariant tying calls, owners and waiters |
| `SingleFlight.OneDialPerKey` | transport.go:380-426 | at most one dial per key is in progress, and inflight holds a key exactly while its owner dials |
| `SingleFlight.AnswersAreExplained` | transport.go:380-426 | every caller got a connection pooled for its key, its own dial's outcome, the outcome of another's dial of its key that it waited on, or the refusal at the limit |
| `SingleFlight.PoolAnswersAreCurrent` | transport.go:380-397 | a connection returned from the pool was in the pool under the caller's key at the very step of the return |
| `SingleFlight.AnswersAreGivenFor` | transport.go:380-426 | every answer is explained by the tables at the very step of the return: a refusal by a full pool with the key neither pooled nor being dialled, a shared outcome by a wake-up without a pooled connection |
| `SingleFlight.EntersInOrder` | transport.go:380-405 | a caller meets the pooled connection, the dial under way, the limit, or its own dial, in this order |
| `SingleFlight.WakesInOrder` | transport.go:387-397 | a caller that waited gets the pooled connection if there is one, and the dial's outcome otherwise |
| `SingleFlight.SecondCallerShares` | transport.go:380-426 | for every key and outcome, a run in which a second caller waits and shares the one dial |
| `SingleFlight.WaitersAreServed` | transport.go:387-397 | a waiter's dial is published or its owner can take the next step towards it |
| `SingleFlight.LimitBreaks` | transport.go:398-412 | with any positive limit, some run of dials alone fills the pool to any given size |
| `SingleFlight.LimitHoldsWhenReserved` | transport.go:398-412 | the pool stays within the limit in every run in which each dial starts with room for all dials under way |
| `SingleFlight.ConnTable.Decide` | transport.go:380-405 | the first lock section is the machine's entry step |
| `SingleFlight.ConnTable.Settle` | transport.go:409-417 | the second lock section is the machine's end-of-dial step |
| `SingleFlight.ConnTable.AfterWait` | transport.go:387-397 | the waiter's section is the machine's wake step |
| `Sdp.SsrcRoundTrip` | gb28181/xml.go:154-163 | every 32-bit SSRC printed with eight hex digits is read back, the decimal fallback notwithstanding |
| `Sdp.DecimalSsrcExactly` | gb28181/xml.go:154-163 | an SSRC in decimal is read back if and only if it has one digit or more than eight |
| `Sdp.StreamSdp.Render` | gb28181/sdp.go:28-55 | Build writes the lines and gives an unnamed session its default name |
| `Sdp.ParseSdp` | gb28181/sdp.go:71-131 | the loop over the lines with its error exits |
| `Sdp.BuildThenParse` | gb28181/sdp.go:71-131 | parsing a built description recovers exactly what its text carries |
| `Sdp.EveryFieldRecovered` | gb28181/sdp.go:28-131 | every field comes back if and only if the session has a name, a start time and no negative port, and a positive port unless SSRC and direction have their zero values |
| `Sdp.EndAloneBecomesStart` | gb28181/sdp.go:41-45 | a session with an end time alone, read back with it as start time |
| `Sdp.ConnectionAddressWins` | gb28181/sdp.go:71-131 | the address of the connection line replaces that of the origin exactly when it is an IP address |
| `Sdp.NamelessIsRefused` | gb28181/sdp.go:71-131 | a description without a session name is refused |

## Left out

- Sockets, TLS, listeners, the idle-connection janitor and packet dispatch: I/O. Of transport.go only the single-flight state is modelled.
- Proxy method dispatch, CANCEL from upstream, REGISTER, ACK and in-dialog forwarding; group results are about one call of fork without an upstream CANCEL.
- User agent, back-to-back user agent, dialogs and the GB28181 device and platform loops: callbacks and waits whose own claims are easy.
- Digest authentication, random tags, branches and Call-IDs, and DNS: branches are taken as fresh, SRV draws as arbitrary numbers.
- XML marshalling, logging, metrics and the command-line programs.
- Real time: timers are steps that may happen at any moment; only `Retransmission` counts time, in whole ticks and without the overflow of a 64-bit duration.
- The handler registration, source-address comparison and error callback of handleRequest and handleResponse.
- Structured headers (Via, address lists, credentials): their parsers are a parameter of `MessageParser`, and the round trip there is for headers that print their own text back. The default reason phrase of a status code is a parameter too.
- Upper and lower case and white space outside ASCII.
- Texts of error messages.
- TerminalEventsBounded: speaks of INVITE only, because the 2xx path of other requests writes no state.
- Accept: the sends and deliveries that follow a lock section of the client are part of the same step; the windows of the start write, the retransmit check and the timeout are steps of their own.
- ReceiveRetransmission: the send that follows is a separate step of the machine.
- RoundTripExactly: in `UriExactness`, a user, password or host with white space and a host with a delimiter are not considered.
- RespondRoutesBack: assumes a request with a readable Via and CSeq, without which the code has no key to compare.
- BuildThenParse: the sessions have white-space-free user, address and times, and a trimmed name on one line.
