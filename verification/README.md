# go-coap: a verified model of its block-wise engine, codecs and concurrent tables

go-coap implements the Constrained Application Protocol. This project models, in Dafny, the parts
of it whose correctness does not show from reading one function, and proves what they are
for. `dafny verify dfyconfig.toml` checks everything.

**The Q-Block engine (RFC 9177)** moves large bodies over a network that loses, repeats and
reorders datagrams.

- `Transfer` holds the sparse receiver, its reader and the replayable sender, each a class whose
  methods are proved against a layout that says where the blocks of a body lie. `Delivery`
  proves that no behaviour of the network can change a body on its way, `QCodec` and
  `Recovery` that the missing-block reports cross the wire unchanged and that recovery ends.
- `BodyReceiver` is the client's receiver of a response body, with representations replaced midway;
  `Schedule`, `Continues` and `Generations` are the server's side of it. Together they give the end-to-end
  theorem `Generations.ServedBodyIsReceived`, and `Fetch` the exchange that nothing disturbs.
- `UploadSender` is the client's side of an upload, `Uploads` the server's: concurrent requests, each
  passing several critical sections, with timers, expiry and closing in between. `Replays`
  shows what later duplicates get; `UploadCompletes` that an upload nothing interferes with
  reaches the application; `EndToEnd` that the handler gets what the client's sender was given.
- `Engine` and `EngineBudget` are the retained state of the engine and the byte and slot budget that
  four kinds of owner share and give back on many paths; `Counters` looks at the same
  reservations one atomic operation at a time. `Config` and `Timers` show that the derived timers
  and the backoff of the two receivers fit in 64 bits.

**Options and wire forms (RFC 7252, RFC 8323).** `Options` is the sorted array edited in place,
refined to filters on a list; `OptionCodec`, `Coder`, `Udp` and `Tcp` are the codecs with
their buffers; `Session` is the TCP read loop, proved independent of how the stream is cut.

**Block1 transfer (RFC 7959)** is `Block1`: both ends, with the server shrinking the blocks.

**Three small concurrent protocols**: `Limiter` (requests per endpoint), `Routes` with `Exchanges`
(tokens of exchanges) and `Pool` (recycled messages).

`Base` and `Sums` are shared vocabulary.

## How it is modelled

Objects the source updates in place are classes with `modifies` clauses; loops are loops. Where the
source runs concurrently, the model is a state machine whose steps are the stretches between taking
and releasing a lock (`Engine`, `Uploads`, `Generations`, `Limiter`) or single atomic operations
(`Counters`, `Pool`), and theorems are about every finite run of any number of actors. Time, the
network, cancellation, jitter and the outcome of a racing reservation are arguments that the
theorems quantify over. A request to the server goes by the number the connection gives every
message it receives (udp/client/conn.go:1446). Integers are unbounded; where the width matters (timers, the TCP length
cast, message types and codes, seek offsets) it is written out.

## Where the code does not do what it promises

The model follows the code. Each line names the lemma that says exactly when the promise holds.

- A completed upload whose answer is too large for one message stores the answer and then loads its
  first block. If the answer is gone by then (closed, cancelled, expired), the application is called
  a second time, without a body: `Uploads.HandlerCanRunTwice` is such a run,
  `Uploads.OncePerRecordIff` says exactly when each record's handler runs once, and
  `Uploads.OncePerRecordWhen` which events have to stay out.
- The endpoint limiter can run more requests than its limit after a waiter that is not first in the
  queue is cancelled: `Limiter.LimitCanBePassed` is such a run, and `Limiter.LimitIsKeptIff` says
  that the limit is kept all along if and only if no such cancellation happens.
- The message pool never counts down what the garbage collector takes from it, so collections use
  up its maximum: `Pool.PoolCanBeUsedUp` is such a run, and `Pool.ReleasePoolsIff` says exactly when
  a release still pools its message. `Pool.CollectionsUseUpThePool` and `Pool.PoolCanHoldTheRest`
  say how much the pool can still hold.
- A payload is built under the lock and sent after it, without another look. It can leave after its
  body was replaced: `Generations.SendsCanBeLate` is such a run, `Generations.NoneIsLateIff` has the
  condition, and `Generations.SentIsGenuine` what holds all the same.
- A Continue that comes while the jobs behind an earlier request still run makes both send the same
  blocks: `Continues.BlocksCanBeSentTwice` is such a run, `Continues.SentOnceIff` has the condition.
- The TCP session compares the buffer length after a cast to 32 bits. `Session.CastCanMislead` has a
  stream on which it waits although the message is whole, and `Session.CastIsHarmlessIff` the
  configured message sizes for which there is none.
- The UDP encoder accepts message types above 3 and codes above 255, which do not come back:
  `Udp.RoundTrips` has the condition and what arrives instead.
- TCP bodies from 0x7fff0000 bytes on have no length encoding: `Tcp.RoundTrips`.
- The limit on Block1 numbers is commented as 20 bits but is eight short of it:
  `Block1.BlockOptionRoundTrips`.
- The upload sender does not bound its retry counter on the recovery branch, and shifts its wait by
  it. `UploadSender.Worst` is a run with the largest counter, and `UploadSender.BackoffFitsIff` says
  exactly when the wait fits in 64 bits in every run; with the defaults that is for bodies of at
  most nine blocks (`UploadSender.DefaultsFitIff`). By
  `UploadSender.NextWaitIsEarned` such a wait comes only after the rest of the largest duration has
  been waited, which with the defaults is more than 290 years.

## Model

| member | source | states |
|---|---|---|
| `Transfer.Layout.Extent` | net/blockwise/qblock/transfer.go:146-168 | Where the blocks of a body lie: every block but the last is full and strictly inside the body, the last one ends exactly at its end |
| `Transfer.Layout.ChecksAreExact` | net/blockwise/qblock/transfer.go:146-168 | The receiver's chain of size comparisons holds if and only if the more bit and the payload length are the one combination the layout allows for that NUM |
| `Transfer.CountForms` | net/blockwise/qblock/transfer.go:222-245 | The three ways the code computes the number of blocks agree for every size, the empty body included |
| `Transfer.Assembly.New` | net/blockwise/qblock/transfer.go:75-101 | Accepts exactly the bodies within the caller's limits and the 20-bit NUM; which error otherwise |
| `Transfer.Assembly.Add` | net/blockwise/qblock/transfer.go:105-135 | Stores exactly the first payload of the right shape per NUM, whatever else arrives; duplicate, error and complete flags in both directions; the counters stay functions of the stored blocks, so the final-block conflict guards can never fire |
| `Transfer.Assembly.ValidatePayload` | net/blockwise/qblock/transfer.go:146-168 | Accepts if and only if the payload is the one shape the layout allows; the limit on tracked blocks never decides |
| `Transfer.Assembly.HasBlockAfter` | net/blockwise/qblock/transfer.go:137-144 | Finds a stored block with a larger NUM if and only if there is one |
| `Transfer.Assembly.CompleteLocked` | net/blockwise/qblock/transfer.go:182-190 | The counting test is true if and only if every NUM of the body is stored |
| `Transfer.Assembly.CountingIsExact` | net/blockwise/qblock/transfer.go:182-190 | As many blocks as the body has NUMs means all of them, and then the received size is the body size |
| `Transfer.Assembly.AdvanceCursor` | net/blockwise/qblock/transfer.go:128-133 | The cursor ends at the least NUM not stored |
| `Transfer.Assembly.Missing` | net/blockwise/qblock/transfer.go:201-218 | Returns the gaps of the whole body |
| `Transfer.Assembly.MissingSet` | net/blockwise/qblock/transfer.go:234-245 | Returns the gaps of the earliest incomplete payload set |
| `Transfer.Assembly.FirstMissing` | net/blockwise/qblock/transfer.go:222-227 | Returns the least gap, and reports one if and only if the body is incomplete |
| `Transfer.GapsAreExact` | net/blockwise/qblock/transfer.go:234-245 | The gap list holds exactly the missing NUMs of its range, strictly increasing |
| `Transfer.BlockAt` | net/blockwise/qblock/transfer.go:249-256 | In the reassembled body, block NUM sits at NUM times the block size and nothing is left over |
| `Transfer.SparseReader.Read` | net/blockwise/qblock/transfer.go:263-277 | Fills the buffer with exactly the bytes of the reassembled body from the current offset, as many as fit; end of file exactly at the end; the rest of the buffer is untouched |
| `Transfer.SparseReader.Seek` | net/blockwise/qblock/transfer.go:279-295 | Succeeds exactly for positions between zero and the largest 64-bit offset, past the end included, and otherwise changes nothing |
| `Transfer.Sender.New` | net/blockwise/qblock/transfer.go:306-321 | Accepts exactly the sizes whose NUMs fit 20 bits |
| `Transfer.Sender.Block` | net/blockwise/qblock/transfer.go:325-358 | Yields block NUM of the body for exactly the NUMs it has; a body shorter than declared fails on exactly the blocks it cannot fill |
| `Delivery.EveryDeliveryIsExact` | net/blockwise/qblock/transfer.go:105-135 | For every body and every sequence of the sender's blocks, lost, repeated or reordered: none is refused, completion means that every NUM has arrived, and the complete body is the sender's byte for byte |
| `Delivery.FirstPayloadWins` | net/blockwise/qblock/transfer.go:105-135 | For every run, hostile ones included, what is held for a NUM is exactly the first payload of the right shape |
| `Delivery.ChunkingIsInvisible` | net/blockwise/qblock/transfer.go:263-295 | Reads of any sizes from any position, past the end included, return together exactly what one read of their total size would: none skips or repeats a byte |
| `Delivery.Deliver` | net/blockwise/qblock/transfer.go:105-135 | The assembly run over any delivery of a sender's blocks reports complete exactly when all have arrived, and its reader then yields the sender's body |
| `Delivery.ReadAnywhere` | net/blockwise/qblock/transfer.go:258-295 | The reader of a complete assembly driven through any sequence of reads and seeks: every read returns exactly the bytes of the body at its position |
| `Delivery.DeliverAndRead` | net/blockwise/qblock/transfer.go:105-295 | Sender, assembly and reader together: for every body, order of arrival and sequence of reads and seeks, the reader exists if and only if every NUM has arrived, and every read returns the sender's bytes at its position |
| `QCodec.OptionDecodesBack` | net/blockwise/qblock/codec.go:16-41 | Every 20-bit NUM with a block size up to 1024 encodes, nothing else does, and it decodes back |
| `QCodec.OptionEncodesBack` | net/blockwise/qblock/codec.go:32-41 | Exactly BERT and values above 24 bits are refused, and every accepted value is the encoding of what it decodes to |
| `QCodec.IntRoundTrips` | net/blockwise/qblock/codec.go:114-143 | A NUM's CBOR integer decodes to it with the rest of the input untouched |
| `QCodec.EncodeMissingBlocks` | net/blockwise/qblock/codec.go:46-70 | Appends the encoding of exactly the strictly increasing 20-bit lists and refuses all others |
| `QCodec.WalkMissingBlocks` | net/blockwise/qblock/codec.go:90-112 | The loop emits exactly what the specification of a report says, or its error |
| `QCodec.DecodeMissingBlocks` | net/blockwise/qblock/codec.go:76-88 | Appends the decoded report, or leaves the destination alone on an error |
| `QCodec.ReportRoundTrips` | net/blockwise/qblock/codec.go:46-143 | Decoding an encoded report gives back the list, for every strictly increasing 20-bit list |
| `QCodec.WalkedAscends` | net/blockwise/qblock/codec.go:90-112 | Every accepted report decodes to a strictly increasing 20-bit list |
| `QCodec.AcceptedReportsNormalize` | net/blockwise/qblock/codec.go:46-143 | Every accepted report, however it was encoded, means the same as the encoder's own form of what it decodes to |
| `Recovery.MissingSetOf` | net/blockwise/qblock/client_receive.go:389-402 | Cuts a report to the NUMs that share a payload set with its first |
| `Recovery.SameSetStaysInOneSet` | net/blockwise/qblock/client_receive.go:389-402 | The cut is a non-empty prefix of the report within one payload set |
| `Recovery.RequestSurvivesTheWire` | net/blockwise/qblock/transfer.go:234-245 | What a receiver reports as missing is all gaps of one payload set, a valid report, and unchanged by encoding, decoding and the sender's own cut |
| `Recovery.RoundIsExact` | net/blockwise/qblock/client_receive.go:101-124 | One round adds exactly the requested blocks that were not lost |
| `Recovery.LossyRoundProgresses` | net/blockwise/qblock/client_receive.go:101-124 | A round in which one requested block gets through adds it and forgets nothing |
| `Recovery.RoundClosesASet` | net/blockwise/qblock/transfer.go:234-245 | A round without loss closes the earliest open payload set |
| `Recovery.RecoveryConverges` | net/blockwise/qblock/transfer.go:234-245 | One round per payload set still open completes the body, and it is the sender's |
| `Config.ResolveIsExact` | net/blockwise/qblock/config.go:35-54 | Exactly which configurations are accepted; the receive timeout is, if and only if the longest backoff with its second of slack fits in 64 bits; resolving twice changes nothing |
| `Config.TimersFit` | net/blockwise/qblock/config.go:56-71 | For every accepted configuration and every jittered delay, both derived timers and all intermediate products fit in 64 bits |
| `Config.PartialOutlastsRetries` | net/blockwise/qblock/config.go:56-66 | The partial lifetime outlasts every schedule of doubled, jittered retransmissions plus the way there and back and one timeout, and the longest such schedule reaches it exactly |
| `Config.BackoffFits` | net/blockwise/qblock/config.go:49-50 | Every backoff shift up to the configured number of retries fits in 64 bits |
| `Timers.StepStaysPatient` | net/blockwise/qblock/receive.go:445-461 | No step of the engine lets an upload count more retries than configured |
| `Timers.UploadBackoffFits` | net/blockwise/qblock/receive.go:424-448 | In every state of every run of the engine, every upload's receive backoff fits in 64 bits |
| `Counters.StepKeepsInv` | net/blockwise/qblock/budget.go:25-70 | Any number of attempts interleaved at single atomic operations: every step keeps each counter at the sum of what its attempts hold or are about to give back, within the limit |
| `Counters.RunKeepsInv` | net/blockwise/qblock/budget.go:25-70 | The same for every run from empty counters |
| `Counters.AloneIsExact` | net/blockwise/qblock/budget.go:25-60 | Left alone, a reservation ends with both counters raised exactly when both have room, and otherwise with both as they were |
| `Counters.NeverBelowZero` | net/blockwise/qblock/budget.go:25-70 | No counter ever falls below zero |
| `Counters.AllEndedIsExact` | net/blockwise/qblock/budget.go:25-70 | Once all attempts have ended, each counter is the total still held, and zero when nothing is |
| `EngineBudget.AdmitKeeps` | net/blockwise/qblock/receive.go:158-196 | Finding, replacing or creating an upload keeps the budget balanced |
| `EngineBudget.AddKeeps` | net/blockwise/qblock/receive.go:253-282 | Storing, repeating or refusing a payload keeps the budget balanced |
| `EngineBudget.ClaimKeeps` | net/blockwise/qblock/receive.go:352-375 | Claiming a complete upload keeps the budget balanced |
| `EngineBudget.StoreResponseKeeps` | net/blockwise/qblock/receive.go:400-421 | Keeping the response gives the blocks back exactly once |
| `EngineBudget.StoreFinalErrorKeeps` | net/blockwise/qblock/receive.go:502-526 | So does keeping an error answer |
| `EngineBudget.TimerKeeps` | net/blockwise/qblock/receive.go:435-461 | A timer that reports again or gives up keeps the budget balanced |
| `EngineBudget.SnapshotKeeps` | net/blockwise/qblock/send.go:480-505 | Reserving a body copy takes both reservations or neither |
| `EngineBudget.StoreKeeps` | net/blockwise/qblock/send.go:419-478 | Storing a copied body passes its reservation on, replaces an older body, and gives it back when the body may not be stored |
| `EngineBudget.RegisterKeeps` | net/blockwise/qblock/observe.go:72-100 | Registering or renewing an observation keeps the budget balanced |
| `EngineBudget.CancelKeeps` | net/blockwise/qblock/observe.go:33-54 | Cancelling an observation gives back its slot and its body |
| `EngineBudget.CloseUploadsKeeps` | net/blockwise/qblock/budget.go:74-103 | Closing gives back every upload |
| `EngineBudget.CloseOutgoingKeeps` | net/blockwise/qblock/budget.go:74-103 | Closing gives back every observation and stored body |
| `EngineBudget.FeedKeeps` | net/blockwise/qblock/client_receive.go:211-226 | A client receiver is charged for exactly the payloads it keeps |
| `EngineBudget.ResetKeeps` | net/blockwise/qblock/client_receive.go:163-171 | Giving up a representation returns its bytes |
| `EngineBudget.ReturnKeeps` | net/blockwise/qblock/client_receive.go:312-323 | A returning receiver gives everything back |
| `EngineBudget.StepConserves` | net/blockwise/qblock/budget.go:40-103 | Every step of the engine keeps the counters equal to the totals over uploads, stored bodies, receivers, copies and observations, within 32 MiB and 128, and moves engine and process counters by the same amounts |
| `EngineBudget.RunConserves` | net/blockwise/qblock/budget.go:40-103 | In every run of any number of engines the same holds for each, and the process counters are the sums over the engines, within 256 MiB and 8192 |
| `EngineBudget.CountersNonNegative` | net/blockwise/qblock/budget.go:62-70 | No counter of a balanced engine is negative |
| `EngineBudget.ClosedReturnsEverything` | net/blockwise/qblock/budget.go:74-103 | After closing, once receivers and copies have returned, all counters of the engine are zero |
| `EngineBudget.ProcessReturnsEverything` | net/blockwise/qblock/budget.go:74-103 | When all engines have got there, the process counters are zero |
| `Uploads.ArrivingKeeps` | net/blockwise/qblock/receive.go:158-196 | A request's first critical section keeps the invariant of all concurrent requests |
| `Uploads.ReadingKeeps` | net/blockwise/qblock/receive.go:211-282 | Its second one does: a record holds exactly what the payloads offered to it make up, and the request goes on only with a complete record |
| `Uploads.ClaimingKeeps` | net/blockwise/qblock/receive.go:352-375 | The claim lets one request through, with the assembled blocks, and no other ever again |
| `Uploads.RunningKeeps` | net/blockwise/qblock/receive.go:375-385 | The call to the application is the first for its record and has the whole body |
| `Uploads.LoadingKeeps` | net/blockwise/qblock/receive.go:385-400 | Loading the first block of a large answer: a further call, without a body, comes at most once per record |
| `Uploads.FinishingKeeps` | net/blockwise/qblock/receive.go:401-421 | Keeping the response reopens nothing |
| `Uploads.FailingKeeps` | net/blockwise/qblock/receive.go:502-526 | Nor does keeping an error answer |
| `Uploads.RunKeepsInv` | net/blockwise/qblock/receive.go:198-251 | All of this in every run, with timers, expiry and closing at any point |
| `Uploads.AtMostOnce` | net/blockwise/qblock/receive.go:198-422 | Under every interleaving each upload record hands a body to the application at most once, and only its fully assembled body; a further call without a body comes at most once and only behind that one |
| `Uploads.OncePerRecordIff` | net/blockwise/qblock/send.go:200-210 | In every run the application is called only once per record if and only if no request finds its stored large answer gone when it comes to load it |
| `Uploads.OncePerRecordWhen` | net/blockwise/qblock/send.go:200-210 | The same in terms of events: the application is called once per record whenever, between storing and loading an answer, no event closes or cancels or invalidates it, replaces it by a shorter-lived one or lets it expire |
| `Uploads.HandlerCanRunTwice` | net/blockwise/qblock/receive.go:385-400 | A run in which closing the engine between storing and loading a large answer makes the request call the application again |
| `Uploads.UploadedBodyIsTheClients` | net/blockwise/qblock/receive.go:352-400 | If a record was only offered blocks of one body, in any order and number, the application gets that body |
| `Replays.ClaimKeeps` | net/blockwise/qblock/receive.go:356-370 | The claim marks the record with the number of the one request that will answer it, and no answer is kept before |
| `Replays.SettleKeeps` | net/blockwise/qblock/receive.go:401-421 | Keeping an answer or an error is the first time for its record; no other request still holds it |
| `Replays.FinishingReplays` | net/blockwise/qblock/receive.go:401-421 | The answer is stored without looking whether there is one, yet it never overwrites one |
| `Replays.FailingReplays` | net/blockwise/qblock/receive.go:502-526 | A failed request keeps its error exactly for the record it claimed itself and nothing is kept for |
| `Replays.StepReplays` | net/blockwise/qblock/receive.go:198-251 | Every step of every request, timer, expiry and closing keeps all of this |
| `Replays.DuplicatesGetTheOneAnswer` | net/blockwise/qblock/receive.go:211-241 | In every run from a fresh server, for each record an answer is kept at most once and never changes, and every replayed message has the content of the one answer kept for its record under the token of the request it answers |
| `UploadCompletes.PayloadIsStored` | net/blockwise/qblock/receive.go:231-282 | A payload of an upload under way is stored and charged, or known already; the request goes on exactly when the body is complete |
| `UploadCompletes.CompleteIsHandedOver` | net/blockwise/qblock/receive.go:352-385 | The request that completes the body claims it and calls the application with it |
| `UploadCompletes.LargeAnswerIsKept` | net/blockwise/qblock/receive.go:385-400 | An answer too large for one message finds room for its copy, is kept, and is found again when its first block is loaded |
| `UploadCompletes.AnswerIsKept` | net/blockwise/qblock/receive.go:385-421 | The application's answer, small or large, is kept for the record |
| `UploadCompletes.LaterOnesReplay` | net/blockwise/qblock/receive.go:528-540 | A request behind the completing one gets the kept answer under its own token and changes nothing else |
| `UploadCompletes.UploadCompletes` | net/blockwise/qblock/receive.go:198-422 | Completion: for every body within the limits and every delivery of its blocks, in any order and number, handled one after the other with clocks within the lifetime and any limit on entries, the application is called exactly when every NUM has arrived, once, with the client's body; its answer, large ones included, is kept, and every later request is answered with it under its own token |
| `BodyReceiver.Receiver.Send` | net/blockwise/qblock/client_receive.go:67-91 | A request goes out unless the exchange fails; NUMs within 20 bits always encode |
| `BodyReceiver.Receiver.Deadline` | net/blockwise/qblock/client_receive.go:93-99 | The wait never passes the partial body's expiry, and its backoff fits in 64 bits |
| `BodyReceiver.Receiver.Recover` | net/blockwise/qblock/client_receive.go:101-124 | A failed receive spends one of the limited retries and asks for all gaps of the first incomplete set and nothing else, or ends for one of the stated reasons |
| `BodyReceiver.Receiver.NewRepresentation` | net/blockwise/qblock/client_receive.go:126-148 | Starts an empty body under the response's identity, for exactly the admissible sizes |
| `BodyReceiver.Receiver.Representation` | net/blockwise/qblock/client_receive.go:152-186 | On going on, the body being assembled has the response's own identity; one under assembly is given up only for a newer notification or the final answer of the registration; a well-formed block of the current identity is never turned away |
| `BodyReceiver.Receiver.Add` | net/blockwise/qblock/client_receive.go:211-226 | Keeps a block of the current identity if the budget grants it; the retained bytes are exactly those stored |
| `BodyReceiver.Receiver.Advance` | net/blockwise/qblock/client_receive.go:228-246 | Whatever it sends asks only for what is missing: everything from a completed set on, or the gaps of the first incomplete one |
| `BodyReceiver.Receiver.AcceptBodyType` | net/blockwise/qblock/client_receive.go:248-260 | All payloads of a body share one type, an acknowledgement counting as confirmable |
| `BodyReceiver.Receiver.Accept` | net/blockwise/qblock/client_receive.go:268-292 | Completion means that every NUM is stored under the identity of the response that completed it |
| `BodyReceiver.ReceiveBody` | net/blockwise/qblock/client_receive.go:310-354 | For every sequence of responses and failures: a finished body is whole and every block of it came in a response of one ETag, size, code and block size; no more failures in a row than configured are survived; and without mishaps it finishes unless a NUM never came, for plain requests, registrations and ends of observations alike, unless notifications come where the receiver passes over them |
| `BodyReceiver.OneRepresentation` | net/blockwise/qblock/client_receive.go:126-226 | No torn body: blocks gathered under an identity that names one body are that body |
| `Schedule.AppendRange` | net/blockwise/qblock/send.go:342-350 | Appends the range behind what is there, without repeating it |
| `Schedule.RequestedBlocks` | net/blockwise/qblock/send.go:313-340 | Accepts exactly the ascending options of one block size within the body; the result is the exact union of what they ask for, ascending, each NUM once; whole-body mode in both directions |
| `Schedule.SetEnd` | net/blockwise/qblock/schedule.go:197-204 | The longest leading stretch within one payload set |
| `Schedule.Following` | net/blockwise/qblock/schedule.go:142-163 | What was sent and what the next job is to send are together what the job had to send |
| `Schedule.RunJob` | net/blockwise/qblock/schedule.go:165-195 | Whatever a job finds before each payload, it sends a stretch of its NUMs within one set, and unless it stops for good nothing is dropped or repeated between it and the next job |
| `Schedule.Continuation` | net/blockwise/qblock/send.go:269-311 | The first payload and the job behind it are together everything requested |
| `Schedule.Respond` | net/blockwise/qblock/schedule.go:142-195 | Coverage: under any disturbance the payloads go out in order, each once, in batches that never cross a payload set; a chain that ends has sent everything; left alone it ends |
| `Continues.SentOnceIff` | net/blockwise/qblock/send.go:228-241 | For a body asked for once from its beginning and continued in any way, no block is sent twice outside recovery if and only if no chain of jobs runs on to where a later request has taken over |
| `Continues.ContinueIsNew` | net/blockwise/qblock/send.go:233-238 | A Continue that is taken up is for blocks beyond everything sent so far |
| `Continues.BlocksCanBeSentTwice` | net/blockwise/qblock/schedule.go:82-100 | For every body of more than one payload set there is a run in which the jobs behind the first request and a Continue both send a block |
| `Generations.PayloadIsGenuine` | net/blockwise/qblock/send.go:382-411 | A built payload is the block of the stored body that its option, size, tag and code say |
| `Generations.PayloadIsThere` | net/blockwise/qblock/send.go:382-402 | Exactly the blocks of the stored body can be built |
| `Generations.BuildKeeps` | net/blockwise/qblock/send.go:367-411 | A payload is built only from the generation stored at that moment, and from the expected one if one is expected; an expired body is dropped instead |
| `Generations.OutKeeps` | net/blockwise/qblock/schedule.go:102-109 | Sending, which takes no lock and may come at any later time, adds nothing that was not built and nothing twice |
| `Generations.StepKeepsInv` | net/blockwise/qblock/schedule.go:43-109 | Every critical section and every send keep this for all generations, and a job builds only payloads of the generation it was scheduled for |
| `Generations.RunKeepsInv` | net/blockwise/qblock/schedule.go:43-109 | In every run every payload is built from a generation that is still stored, and every payload sent is one that was built before |
| `Generations.SentIsGenuine` | udp/client/qblock.go:523-538 | In every run everything sent is a block of the body of the generation its builder wanted; nothing is built once that generation was replaced, removed or expired, and what is sent after that was built before it; nothing built is sent twice |
| `Generations.NoneIsLateIff` | net/blockwise/qblock/schedule.go:102-109 | No payload leaves after its generation was replaced, removed or expired if and only if each is still current at the moment it is sent |
| `Generations.SendsCanBeLate` | udp/client/qblock.go:618-640 | For every body and whatever replaces it there is a run in which a block of the old one leaves after the replacement |
| `Generations.ServedBodyIsReceived` | net/blockwise/qblock/client_receive.go:310-354 | End to end: over every run of the server, late payloads included, and every behaviour of the network, a body the receiver finishes is byte for byte one the server stored, under the tag and code the client sees |
| `Fetch.PayloadIsWellFormed` | net/blockwise/qblock/send.go:382-411 | What the sender builds is what the receiver calls well-formed |
| `Fetch.FetchBody` | net/blockwise/qblock/client_receive.go:310-354 | Completion: a whole-body request that nothing disturbs gets the stored body, for every body within the limits, block size, payload-set size and type |
| `UploadSender.Uploader.SendBlock` | net/blockwise/qblock/client.go:79-110 | Sends block NUM of the body if and only if it is one, has attempts left, and gets a token and a passage; the request counts as sent only then |
| `UploadSender.Uploader.SendAll` | net/blockwise/qblock/client.go:112-119 | The loop refines the list form: everything up to the first NUM that cannot be sent, and why it cannot |
| `UploadSender.Uploader.SendSet` | net/blockwise/qblock/client.go:121-129 | Refines the protocol's next set, which `SetKeeps` is about |
| `UploadSender.Uploader.Timeout` | net/blockwise/qblock/client.go:131-147 | Refines the protocol's timeout, which `TimeoutKeeps` is about |
| `UploadSender.Uploader.Continuation` | net/blockwise/qblock/client.go:149-168 | Refines the protocol's continuation, which `ContinueKeeps` is about; reports an advance exactly when a set is sent |
| `UploadSender.Uploader.Missing` | net/blockwise/qblock/client.go:179-192 | Refines the protocol's recovery, which `ReportKeeps` is about |
| `UploadSender.Uploader.Go` | net/blockwise/qblock/client.go:217-256 | The whole loop refines the protocol run on the same events, as far as the exchange lets requests through |
| `UploadSender.SetKeeps` | net/blockwise/qblock/client.go:121-129 | Sending a set whole spends attempts, moves on, and keeps every retry covered by attempts |
| `UploadSender.TimeoutKeeps` | net/blockwise/qblock/client.go:131-147 | Every way of going on after a timeout spends an attempt; giving up on the final response comes only after the whole body was sent |
| `UploadSender.ContinueKeeps` | net/blockwise/qblock/client.go:149-168 | A new set is sent only for a Continue that names the last NUM sent so far; a recovery ends only for one at or past its last NUM |
| `UploadSender.ReportKeeps` | net/blockwise/qblock/client.go:179-192 | Exactly the first reported payload set is sent again and becomes the pending recovery |
| `UploadSender.EveryRun` | net/blockwise/qblock/client.go:217-256 | In every run against any server only blocks of the body are sent, each at most NonMaxRetransmit + 1 times; a run still waiting has seen at most count * (NonMaxRetransmit + 1) timeouts, so finitely many responses mean it ends; the sender gives up on the final response only after every NUM was sent; the retry counter never passes its bound |
| `UploadSender.Reach` | net/blockwise/qblock/client.go:131-147 | Any retry counter up to that bound is reached or passed by some run, with at most two requests per retry |
| `UploadSender.Worst` | net/blockwise/qblock/client.go:131-147 | The bound is sharp: some run reaches it |
| `UploadSender.BackoffFitsIff` | net/blockwise/qblock/client.go:248-254 | In every run that an exchange has tokens for, the wait, shifted by the retry counter, fits in 64 bits if and only if it does at the largest counter, count * (NonMaxRetransmit - 1) + 1 for one payload set and count * NonMaxRetransmit - MaxPayloads beyond |
| `UploadSender.DefaultsFitIff` | net/blockwise/qblock/client.go:248-254 | With the default parameters that is for bodies of at most nine blocks |
| `UploadSender.WaitsAreEarned` | net/blockwise/qblock/client.go:248-254 | With r retries behind it, the sender has already waited at least 2^r - 1 times its first wait |
| `UploadSender.NextWaitIsEarned` | net/blockwise/qblock/client.go:248-254 | In every run the next wait is at most the first one plus the time already waited, and after a retry at most twice that time; one that does not fit in 64 bits comes only after waiting all but the first wait of the largest duration there is |
| `EndToEnd.RunSourced` | net/blockwise/qblock/receive.go:198-282 | In every run of the server, with any other traffic, a record of an upload's key has the body's shape and was offered only payloads sent for it |
| `EndToEnd.HandlerGetsTheBody` | net/blockwise/qblock/receive.go:352-385 | Whatever the network does to the payloads of an upload and whatever else reaches the server, what the handler gets for a record of that upload's key is the client's body |
| `EndToEnd.UploadAndServe` | net/blockwise/qblock/client.go:217-256 | Sender and server together: if under the upload's key only arrives what this run of the sender sent, every call of the handler for that key has the client's body |
| `UploadSender.Upload` | net/blockwise/qblock/client.go:34-77 | A whole upload on any connection: it runs as the protocol does; everything sent is a block of the body, each NUM at most NonMaxRetransmit + 1 times; only the first request carries the caller's token, all tokens are distinct, and each was routed nowhere when it was drawn |
| `UploadSender.AffordableIsSent` | net/blockwise/qblock/client.go:112-119 | Distinct NUMs of the body with attempts left all get through, in order, as far as the exchange lets them |
| `Options.OptionSlice.FindPosition` | message/options.go:391-419 | The binary search terminates and returns the last smaller and the first larger index |
| `Options.OptionSlice.Find` | message/options.go:372-388 | Returns the stretch of options with the number, or an error exactly when there is none |
| `Options.OptionSlice.Set` | message/options.go:424-478 | In place: the list becomes the smaller options, the new one, the larger ones; the array stays sorted and nothing behind it changes meaning |
| `Options.OptionSlice.Add` | message/options.go:481-496 | In place: stable insertion behind all options of the same number |
| `Options.OptionSlice.Remove` | message/options.go:499-513 | In place: exactly the options of the number go |
| `Options.FiltersAreStretches` | message/options.go:372-419 | On a sorted list the search result cuts it into the filters by smaller, equal and larger number |
| `Options.EditsAreLocal` | message/options.go:424-513 | After Set one option carries the number, after Add the new one is the last of them, after Remove none is left; all others stay, in order |
| `OptionCodec.ExtRoundTrips` | message/option.go:272-463 | Every delta or length up to 65804 comes back from its nibble and extension bytes |
| `OptionCodec.ExtIsCanonical` | message/option.go:446-463 | Numbers have only one wire form |
| `OptionCodec.MarshalHeader` | message/option.go:313-360 | Writes header and extensions if they fit and reports their length either way |
| `OptionCodec.MarshalOption` | message/option.go:380-444 | Writes one option if it fits, touches nothing before it, and reports its length either way |
| `OptionCodec.Marshal` | message/options.go:518-551 | The length from the pass without a buffer is the number of bytes written with one; too small exactly when they do not fit |
| `OptionCodec.OneRoundTrips` | message/option.go:380-484 | One option comes back from its wire form |
| `OptionCodec.OneIsCanonical` | message/option.go:446-484 | What is accepted for one option is exactly its encoding |
| `OptionCodec.ListRoundTrips` | message/options.go:518-618 | Encoding then parsing gives the list back and stops right before the payload |
| `OptionCodec.ListIsCanonical` | message/options.go:554-618 | Everything the parser accepts is the encoding of what it returns |
| `OptionCodec.UnmarshalIsParseAndFilter` | message/options.go:554-618 | Unmarshalling is parsing followed by dropping number 0 and known elective options of illegal length |
| `OptionCodec.CapacityOnlyRefuses` | message/options.go:554-618 | A list of limited capacity reports that it is too small or behaves like an unlimited one |
| `OptionCodec.UnmarshalRetrying` | message/options.go:554-618 | Doubling the capacity until it suffices ends, with the unlimited result |
| `OptionCodec.FilterKeepsOrder` | message/options.go:583-618 | Everything accepted is sorted |
| `OptionCodec.FilterIsIdentity` | message/option.go:465-484 | Nothing is dropped if and only if every option is one to keep |
| `OptionCodec.SortedIsCarriable` | message/options.go:518-551 | A sorted list of numbers up to 65535 and values up to 65804 bytes is what the wire can carry |
| `Coder.BodyRoundTrips` | message/options.go:518-618 | Options and payload come back minus exactly the options the receiver drops |
| `Coder.BodyIsSound` | message/options.go:554-618 | Whatever is accepted is an encoding of a sorted list that filters to what is returned, followed by the payload |
| `Udp.Size` | udp/coder/coder.go:17-33 | The size is the length of the wire form, for exactly the admissible tokens |
| `Udp.Encode` | udp/coder/coder.go:35-95 | Writes exactly the wire form when it fits; which error otherwise |
| `Udp.RoundTrips` | udp/coder/coder.go:35-145 | Decoding the encoding gives back the datagram minus the dropped options if and only if the type is one of the four and the code fits a byte; what happens otherwise |
| `Udp.AcceptedIsStable` | udp/coder/coder.go:97-145 | Every accepted datagram has sorted, kept options, and sent on it is accepted again and means the same |
| `Tcp.LengthRoundTrips` | tcp/coder/coder.go:38-60 | Every announced length below 0x7fff0000 is read back |
| `Tcp.Encode` | tcp/coder/coder.go:62-151 | Writes exactly the wire form when it fits; which error otherwise |
| `Tcp.HeadDecodes` | tcp/coder/coder.go:153-223 | The header decoder recovers code, token and frame length |
| `Tcp.RoundTrips` | tcp/coder/coder.go:62-269 | With anything behind it, the frame comes back and exactly its bytes are consumed, if and only if its body can be announced and the 32-bit length of the input still covers it |
| `Tcp.HeaderIsPrefixStable` | tcp/coder/coder.go:153-223 | A header once read is not changed by more bytes |
| `Session.StreamSession.SeekToNextMessage` | tcp/client/session.go:146-164 | Drops exactly the bytes of the message |
| `Session.StreamSession.DecodeMessageFromBuffer` | tcp/client/session.go:166-192 | Takes exactly the frame at the front of the buffer, waits, or fails |
| `Session.StreamSession.ProcessBuffer` | tcp/client/session.go:230-250 | Takes frames off the front until none is whole, one is bad or the monitor refuses; hands on exactly those the monitor lets pass, in order |
| `Session.StreamSession.Run` | tcp/client/session.go:299-329 | The read loop delivers what the specification of a series of reads says, less what the monitor drops |
| `Session.IdealIsStable` | tcp/client/session.go:166-192 | More bytes never change an answer, they only turn waiting into one |
| `Session.DrainGoesOn` | tcp/client/session.go:230-250 | Draining a longer buffer goes on where draining the shorter one stopped |
| `Session.ChunkingIndependence` | tcp/client/session.go:310-328 | However a byte stream is cut into reads, the result is that of the whole stream, as long as the 32-bit cast loses nothing |
| `Session.WaitingIsShort` | tcp/client/session.go:175-180 | A waiting buffer holds less than the configured limit, or part of a header |
| `Session.ModestLimitsAreSafe` | tcp/client/session.go:175-180 | Any stream at all is safe from the cast under a limit of at most 2^32 - 65535 |
| `Session.CastCanMislead` | tcp/client/session.go:178-180 | For every higher limit there is a stream in legal reads, one frame of exactly the limit, that the session keeps waiting on although the frame is whole |
| `Session.CastIsHarmlessIff` | tcp/client/session.go:178-180 | Every stream in every legal sequence of reads is handled as if there were no cast if and only if the limit is at most 2^32 - 65535 |
| `Session.EveryCutDelivers` | tcp/client/session.go:230-250 | For every list of messages within the limit and every way of cutting their frames into reads, exactly those messages are delivered in order and exactly their bytes consumed |
| `Block1.BlockOptionRoundTrips` | net/blockwise/blockwise.go:80-116 | The option round trips both ways, and exactly which NUMs encode |
| `Block1.PrepareSendingRequest` | net/blockwise/blockwise.go:493-542 | The first message is the whole body if it fits one block, and otherwise its first full block |
| `Block1.CreateSendingMessage` | net/blockwise/blockwise.go:790-868 | The next block in the size asked for, for exactly the answers that leave one |
| `Block1.Receiver.ProcessReceivedBlock` | net/blockwise/blockwise.go:1226-1270 | Exactly which blocks are taken, refused or answered, and what is then held and delivered |
| `Block1.Receiver.ProcessCachedBlock` | net/blockwise/blockwise.go:1272-1359 | The same for a transfer under way |
| `Block1.TakesKeepsPrefix` | net/blockwise/blockwise.go:1298-1325 | A block of the body keeps what is held a prefix of it, and what it completes is the body |
| `Block1.Serve` | net/blockwise/blockwise.go:1226-1325 | Under loss, repetition, reordering and expiry the server holds a prefix of the client's body and delivers nothing but that body |
| `Block1.SizesDivide` | net/blockwise/blockwise.go:816-820 | The smaller blocks of a renegotiated size meet the end of the larger ones already held |
| `Block1.BlockIsTaken` | net/blockwise/blockwise.go:1287-1301 | On the walk over offsets already held nothing but the size limit stops a block, and the walk ends where the server's payload ends |
| `Block1.Exchange` | net/blockwise/blockwise.go:493-542 | With nothing lost the exchange delivers the body if and only if the server's limit and the range of NUM allow it, for every pair of block sizes |
| `Limiter.Drive` | net/client/limitParallelRequests/limitParallelRequests.go:40-108 | The limiter object driven by any sequence of arrivals, cancellations and completions keeps the queues, closes the channels and closes them in the order of the run that the other lemmas are about |
| `Limiter.RunKeepsInv` | net/client/limitParallelRequests/limitParallelRequests.go:66-108 | Every run over any number of requests keeps queue, counter and order exact for every endpoint |
| `Limiter.LimiterIsExact` | net/client/limitParallelRequests/limitParallelRequests.go:66-108 | Counter and queue count what is acquired and not released; the requests holding a place are the counter's plus one per cancelled request still queued, so the limit is kept if and only if there is none; a queue forms only at the limit; places go in order of arrival |
| `Limiter.LimitIsKeptIff` | net/client/limitParallelRequests/limitParallelRequests.go:82-108 | The limit holds at an endpoint in every state of a run if and only if no request queued there is cancelled while another is queued before it |
| `Limiter.QueueMoves` | net/client/limitParallelRequests/limitParallelRequests.go:91-108 | One event moves a queued channel one place forward or leaves it where it is, and closes it only from the front |
| `Limiter.WaitingEnds` | net/client/limitParallelRequests/limitParallelRequests.go:66-108 | A channel with k others before it is closed by exactly the (k+1)-th release at its endpoint, whatever else happens |
| `Limiter.NobodyIsStranded` | net/client/limitParallelRequests/limitParallelRequests.go:66-108 | A request that waits without a place is queued, and as many requests as the limit allows hold a place, each of which can give it back by its own next steps |
| `Limiter.LimitCanBePassed` | net/client/limitParallelRequests/limitParallelRequests.go:82-85 | A run with limit one in which cancelling the second waiter leaves two requests running |
| `Routes.Process.Reserve` | udp/client/qblock.go:135-145 | Reserves exactly below the limit of the process |
| `Routes.Connection.Open` | udp/client/qblock.go:261-291 | Opens an exchange under exactly the admissible tokens and counts |
| `Routes.Connection.NewToken` | udp/client/qblock.go:147-177 | Adds an alias that was not routed before, for exactly the open routes with room |
| `Routes.Connection.RouteOf` | udp/client/qblock.go:293-302 | A token leads to a route if and only if that open route owns it, so to at most one |
| `Routes.Connection.CloseRoute` | udp/client/qblock.go:217-244 | Removes exactly the route's tokens, its count and its charge |
| `Routes.Connection.RetireAliases` | udp/client/qblock.go:246-258 | Removes exactly the aliases |
| `Routes.Connection.Purge` | udp/client/qblock.go:760-772 | Forgets exactly the message IDs that meet the condition, and their charge |
| `Routes.Connection.Remember` | udp/client/qblock.go:724-758 | A reused ID replaces what it meant, only expired ones make room, and exactly notifications are remembered |
| `Routes.Connection.Acknowledge` | udp/client/qblock.go:783-798 | Uses up the ID; a timely reset forgets exactly the observation's other IDs |
| `Routes.Connection.CloseAll` | udp/client/qblock.go:699-717 | After closing, nothing is routed, remembered or counted |
| `Routes.Run` | udp/client/qblock.go:135-291 | In every run of any number of connections open routes own disjoint tokens that partition the routing table, the counters are the true counts within 128 and 262144, and a closed connection holds nothing |
| `Exchanges.Exchange.Request` | udp/client/qblock.go:147-188 | One request while other exchanges come and go: the exchange's own token at first, then one that nobody had, and let through only if it led to this exchange when it was looked up |
| `Exchanges.Converse` | udp/client/qblock.go:147-188 | Any requests of any exchange: every token after the first was routed nowhere when drawn, while all earlier ones still were, so no two are the same |
| `Pool.ReleasePools` | message/pool/pool.go:54-87 | Left alone, a release puts the message into a pool that has room |
| `Pool.ReleaseDrops` | message/pool/pool.go:73-87 | Left alone, a release at the maximum leaves pool and counter as they are |
| `Pool.AcquireRevives` | message/pool/pool.go:32-48 | An acquisition brings a pooled message back as its next generation |
| `Pool.StaleReleaseIsHarmless` | message/pool/pool.go:62-71 | A release that names another generation than the current one changes nothing |
| `Pool.StepKeepsInv` | message/pool/pool.go:32-87 | Every single atomic operation keeps one owner per released message, the counter exact and generations ended once |
| `Pool.RunKeepsInv` | message/pool/pool.go:32-87 | The same in every run of any number of threads |
| `Pool.PoolIsSafe` | message/pool/pool.go:32-87 | No message is in the pool twice, while in use or while a thread works on it, and no two threads work on one; the pool keeps its maximum; no acquisition is released twice; a release that names a generation ends that one and no later one |
| `Pool.CollectionsUseUpThePool` | message/pool/pool.go:32-87 | What the garbage collector takes lowers what the pool can hold for good: at any later moment it holds at most the maximum less that, and nothing once it is all used up |
| `Pool.ReleasePoolsIff` | message/pool/pool.go:54-87 | In every state of every run a release left alone pools its message if and only if the pool, what is on its way in or out, and everything the collector ever took are together fewer than the maximum |
| `Pool.PoolCanHoldTheRest` | message/pool/pool.go:32-87 | Every run can go on, without another collection, to where the pool holds exactly what collections have left of its maximum |
| `Pool.PoolCanBeUsedUp` | message/pool/pool.go:54-87 | For every maximum there is a run after which the counter stands at it and the pool is empty |

## Left out

- Sockets, listeners, DTLS, multicast, option setters, the multiplexer and the server loop: plumbing without closed properties.
- Hashes, random tokens and cache keys: keys are given values, tokens come from the caller, entity tags are labels that `Generations.Labelled` takes to be faithful.
- Contexts, goroutine start-up, logging and error texts: cancellation is one more possible event, errors are a few constructors.
- Legacy Block2 transfer, its matching of changed tokens, and Q-Block capability probing: heuristics with few closed properties.
- The received-message reader: its behaviour hangs on the random choice of a `select`.
- BERT block sizes in Block1 transfer: for them the first-block builder sets the more bit even when the buffer holds the whole body.
- Parsing of Q-Block1 and Q-Block2 requests into parameters, apart from the requested blocks: only comparisons.
- Deadlines of the Q-Block2 jobs and the pacing delay between sets: only the order and number of what is sent is modelled.
- The interim answers of an incomplete upload (Continue and missing-block reports) and when they are sent: what a report says is in `Recovery`.
- Remembered cancellations of observations, and the choice among stored answers of one identity: bookkeeping that no theorem here needs.
- Probing rate control of a connection and its deadline worker: how long they delay; that a payload may be held between building and sending for any time is in `Generations`.
- The write behind `Exchanges.Exchange.Request`: it follows the look-up without a lock, so a route may close in between.
- BodyReceiver.Receiver.Send: does not draw the token of a recovery request; that the tokens of any requests on an exchange are distinct and routed nowhere when drawn is `Exchanges.Converse`.
- Routes.Process.Reserve: takes the load and the compare-and-swap of the process counter as one step; loops of this shape are looked at one atomic operation at a time in `Counters`.
- Wrap-around of the pool's 64-bit generation counter, which would take 2^63 acquisitions of one message.
- Interleaving inside the closing of a connection: `Routes.Connection.CloseAll` runs its critical sections in sequence; other steps can only remove more, because a closed connection admits nothing.
- Interleaving inside reservations is looked at in `Counters` only; the engine's steps take a reservation as one step that may be refused.
