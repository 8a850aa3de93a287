# A verified model of the cpp_redis pipeline

cpp_redis is an asynchronous Redis client. This project models its hard core in Dafny and proves what that
core is for: bytes cut anywhere still become the right replies, and each reply still reaches the callback
of its own command, through pipelining, drops, failed writes and reconnections.

`dafny verify dfyconfig.toml` checks the whole project.

## What is modelled

**The reply parser and the command printer.** `Resp` holds the reply value, its RESP2 encoding and a
one-shot recursive-descent parser, the independent reference. `Suspended` is the incremental parser as a
state machine on values: what a builder tree that is waiting for bytes has stored, and what one
`operator<<` does to it. `Streams` is the driver loop, `RoundTrip` joins encoding and parsing, `Decimal`
is the number syntax, `Commands` the printer. `WireFormat` says on bytes, in literals, what becomes of each
kind of reply, well-formed or not, and how a command is spelled. `Builders`, `ArrayBuilders` and `ReplyBuilders` are the
source's own objects, with their fields, the buffer they erase in place and the tree they own; each
`Feed` is proved to do what `Suspended` says.

**The pipeline.** `Pipeline` is what a client keeps (queue, send buffer, saved password and database
index, callback counter, failure threads) and what each operation does to it. `Connections`, `Clients`
and `Subscribers` are the objects. `Reconnection` is the grammar of the connect callback.

**The protocol.** `Protocol` puts client, network and server into one machine over atomic steps: sends,
commits, chunks of any size, the two halves of the receive handler, failure threads, drops,
reconnections, giving up, closing. Both directions of the wire carry bytes, and the server reads commands
out of them with the same grammar; it may also write bytes that answer nothing. A reply that has been
parsed can be handed out at any later time, also after its connection was torn down. `Conservation`
proves exactly-once callbacks over every run. `Ordering` proves, over every run in which the server
answers what it is asked, where in the stream of replies each queued request stands; `Alignment` derives
exactly which steps and runs give each reply to its own command, and `Mispairing` reaches a state for
each way that fails.

## How the code's edges are modelled

- No input is excluded. Signed overflow in the digit loop, in `m_str_size + 1` and in `m_str_size + 2`,
  and the index before the buffer that a bulk size of -2 leads to, are a fault of their own, `Undefined`,
  beside the three exceptions the parser throws. All theorems hold for all byte strings.
- A bulk size is narrowed to `int` as the code does. -1 is null; a size below -2 waits for
  ever, because the comparison is made in `size_t`.
- A leading `+` is refused, an empty digit string is 0, both null spellings become the null reply, and
  -2^63 does not survive printing and reading (`Decimal.PrintThenRead` says exactly what does).
- Bytes are `char`; every statement holds in particular for the 256 characters that are bytes.
- The callback counter is an `unsigned int`, so it is counted modulo 2^32.
- What the environment decides (whether a write throws, a socket comes up, a sentinel finds the master,
  the user cancels) is a parameter of the operation or a choice of step.

## What the proofs say that the documentation does not

- **Replies and commands stay aligned exactly on the clean runs** (`Alignment.AlignedExactlyOnCleanRuns`).
  Each step from an aligned state keeps it aligned if and only if a guard holds before it
  (`Alignment.StepKeepsAlignedIff`). Three kinds of step can fail theirs, with no fault of the server:
  - *A reconnection with a saved password or a positive database index.* `reconnect` prints AUTH and
    SELECT and queues them, and `resend_failed_commands` prints the whole queue again: with pending queue
    P and re-issued commands A, the buffer holds A P A and the queue P A.
  - *A reconnection after a send between the drop and the handler's lock.* The send buffer is cleared
    before the handler, so what the "dropped" callback or another thread sends then (W) is printed twice
    and queued once: the buffer holds W A P A.
  - *A `disconnect`, a failed commit or a give-up while a parsed reply is not handed out*, for example
    from the callback of the reply before it. `reply_builder::reset` does not clear the queue of built
    replies, so the next command sent is handed that reply (`Alignment.StaleReplyWaits`,
    `Alignment.TakePairsIff`). Giving up moreover leaves W in the send buffer with an empty queue.

  Each of the three has a reachable state in which a callback was given another command's reply (the
  three `...ReachesWrongCommand` lemmas of `Mispairing`).
- **What happens off the clean runs is a lag.** Unless a reconnection is under way, the queue is the
  end of the commands whose replies are outstanding (`Alignment.OrderAlways`). The i-th queued request is handed the reply to the i-th
  outstanding command (`Ordering.QueueIsServedInOrder`). A request sent now stands at its own command if
  and only if nothing lags or the same command happens to stand there (`Alignment.SentStandsIff`). The lag
  never grows while a connection lasts, and shrinks only when a reply finds the queue empty
  (`Alignment.LagOnOneConnection`).
- **A malformed chunk swallows replies completed in the same chunk.** The parser queues them, but the
  handler leaves before its drain loop. What is handed out is independent of the chunking exactly when
  the stream is well-formed or malformed before its first complete reply
  (`Receiving.HandedOutIndependentIff`); what is queued always is.
- **A commit that failed with the connection up** would break the alignment unless nothing is on its way
  (`Alignment.FailedCommitKeepsAlignedIff`); the protocol lets a write fail only without a connection.
- **A subscriber that gives up clears its maps but not its send buffer.** The server is then asked, on
  the next connection, for channels that are no longer registered, exactly when a subscription was
  buffered since the drop (`Subscribers.Subscriber.ConnectionDisconnectionHandler`,
  `Subscribers.GivingUpIsSafeIff`, `Subscribers.GiveUpAfterSubscribe`).
- **The trace of the connect callback** has one form more than "start ok ok" for an attempt that works:
  "start ok", when `connect` throws although the socket is up (`Reconnection.SucceedingTrace`).

## Model

| member | source | states |
|---|---|---|
| Decimal.ReadIntegerExact | sources/builders/integer_builder.cpp:47-64 | the integer parser yields n if and only if the line is an optional '-' and digits of magnitude at most 2^63-1 whose value with that sign is n; leading zeros and the empty string included |
| Decimal.AccumulateIsValue | sources/builders/integer_builder.cpp:59-60 | on digits, no intermediate product or sum overflows before the value itself does, and the result is the mathematical value |
| Decimal.AccumulateNeedsDigits | sources/builders/integer_builder.cpp:54-57 | a line with any other character is never accepted |
| Decimal.PrintThenRead | sources/network/redis_connection.cpp:102-105 | reading inverts `std::to_string` for magnitudes up to 2^63-1 and for no other number |
| Decimal.PrintedHasNoCr | sources/network/redis_connection.cpp:102-105 | a printed count never contains a CR, so it cannot hide the end of its header |
| Decimal.ValueOfDigits | sources/network/redis_connection.cpp:102-105 | the printed digits of n stand for n |
| Resp.FindCrlf | sources/builders/simple_string_builder.cpp:39-41 | the position of the first CRLF, with no CRLF before it |
| Resp.FindCrlfExtend | sources/builders/integer_builder.cpp:43-45 | later bytes never move the first CRLF of a buffer |
| Resp.ReadLineExtend | sources/builders/simple_string_builder.cpp:39-46 | a line that was complete is the same line after more bytes arrive, and those bytes come after it |
| Resp.ReadHeaderExtend | sources/builders/integer_builder.cpp:43-67 | the same for a header, including a bad one |
| Resp.ReadPrinted | sources/builders/integer_builder.cpp:38-68 | a printed count in front of a CRLF reads back as that count, and leaves what follows |
| Resp.Narrow | sources/builders/bulk_string_builder.cpp:56 | the conversion to `int` is the identity on the range of `int` and always lands in it |
| Resp.FetchBodyExtend | sources/builders/bulk_string_builder.cpp:66-78 | a body that was complete, or wrongly ended, is the same after more bytes arrive |
| Suspended.Resume | sources/builders/array_builder.cpp:60-93 | the resumable recursion terminates: the measure is the buffer length, then the tree; a builder that becomes ready has erased at least one byte |
| Suspended.ResumeKeepsWellFormed | sources/builders/array_builder.cpp:46-78 | suspended-array invariant: over interrupted calls the header stays, rows are only appended and stay fewer than announced, and an array that becomes ready has exactly that many |
| Suspended.AdvanceKeepsWellFormed | sources/builders/array_builder.cpp:61-69 | a row builder that is kept is not ready, and neither is any builder it owns |
| Suspended.ResumeOnNothing | sources/builders/array_builder.cpp:88-90 | a retained builder is not finished, changed or faulted by an empty buffer |
| Suspended.ResumeSplit | sources/builders/array_builder.cpp:80-93 | interrupting any builder tree anywhere and resuming it later is the same as giving it all the bytes at once |
| Suspended.LeafSplit | sources/builders/bulk_string_builder.cpp:80-92 | the same for the builders that own no row: strings, errors, integers and bulk strings |
| Suspended.RowsSplit | sources/builders/array_builder.cpp:60-78 | the same for an array interrupted in the middle of a row |
| Suspended.AdvanceSplit | sources/builders/reply_builder.cpp:50-70 | the same for one step of the driver, with or without a builder in progress |
| Suspended.ResumeErases | sources/builders/array_builder.cpp:80-93 | a builder erases a prefix of the buffer, and what it becomes depends on that prefix alone |
| Suspended.AdvanceErases | sources/builders/reply_builder.cpp:55-60 | the same for one step of the driver, the type byte included |
| Suspended.LeafErases | sources/builders/bulk_string_builder.cpp:47-78 | the same for the builders that own no row |
| Streams.RunSplit | sources/builders/reply_builder.cpp:34-42 | handing over bytes in two pieces, cut anywhere, gives the same replies, tree, buffer or fault |
| Streams.RunKeepsSound | sources/builders/reply_builder.cpp:50-70 | the tree the driver retains is well-formed after any input |
| Streams.FeedIsRun | sources/builders/reply_builder.cpp:34-42 | successive `operator<<` calls are one run over the concatenation |
| Streams.ChunkingIndependence | sources/builders/reply_builder.cpp:34-70 | any two ways of cutting the same bytes give the same replies, suspended tree and buffer, or the same fault with the same replies queued |
| Streams.AdvanceRefinesParse | sources/builders/builders_factory.cpp:36-53 | the incremental parser and the one-shot parser agree on every first reply: done, incomplete or failed |
| Streams.RowsRefineParse | sources/builders/array_builder.cpp:60-93 | an array that holds some rows goes on exactly like the reference parser that still has to read the others |
| Streams.RunRefinesParse | sources/builders/reply_builder.cpp:34-70 | on every byte string the driver queues the replies of the reference parser, faults where it does, and accounts for an unfinished reply to the byte |
| Streams.ResumedRefinesParse | sources/builders/reply_builder.cpp:50-70 | from any reachable suspended state, further bytes do what the reference parser does on the absorbed bytes and them |
| Streams.SuspendedRowsAreParsedRows | sources/builders/array_builder.cpp:71-78 | the rows of an interrupted array are the replies of the row bytes in order, and the row in progress has absorbed the bytes after those |
| Streams.SuspendedArrayMeaning | sources/builders/array_builder.cpp:37-78 | from the absorbed bytes of a suspended array follow its header, its rows and its row in progress, and no others |
| WireFormat.UnknownTypeIsRefused | sources/builders/builders_factory.cpp:49-51 | any first byte but the five type bytes is the exception "invalid data", whatever follows |
| WireFormat.CrlfFreeExactly | sources/builders/simple_string_builder.cpp:39 | a text is free of CRLF if and only if it is not two texts with a CR and an LF between them; a CR alone or an LF alone is part of a text |
| WireFormat.TextLines | sources/builders/simple_string_builder.cpp:39-46 | after '+' or '-', a text without CRLF and a CRLF are the simple string or the error with that text, and leave what follows |
| WireFormat.UnendedLines | sources/builders/simple_string_builder.cpp:39-41 | without a CRLF every kind of reply is waited for |
| WireFormat.HeaderExactly | sources/builders/integer_builder.cpp:47-67 | a header line is a number if and only if it is an optional '-' and digits that fit, refused for a character if and only if one that is no digit comes before any overflow, and overflows otherwise |
| WireFormat.BadHeaderIsRefused | sources/builders/integer_builder.cpp:54-57 | such a character throws in an integer, a bulk string and an array alike, and the driver stops there |
| WireFormat.WrongCharacterIsRefused | sources/builders/integer_builder.cpp:48-57 | on bytes: behind digits that fit, with or without a minus sign, any character but the ten digits throws, and in front of all digits any but a minus sign; whatever follows, in all three kinds of header |
| WireFormat.IntegerLine | sources/builders/integer_builder.cpp:47-65 | after ':', digits are the integer they stand for if it fits, and overflow otherwise |
| WireFormat.NegativeLine | sources/builders/integer_builder.cpp:49-65 | with a minus sign they are the negative of it |
| WireFormat.PrintedInteger | sources/builders/integer_builder.cpp:59-64 | a printed integer reads back if and only if its magnitude is at most 2^63-1, and overflows otherwise |
| WireFormat.NumeralsAreDecimal | sources/network/redis_connection.cpp:102-105 | printed numbers are decimal numerals: the ten digits, most significant first, and a minus sign |
| WireFormat.BulkEnding | sources/builders/bulk_string_builder.cpp:66-77 | after a printed count n up to 2^31-3 and n bytes, two further bytes give the string if they are CRLF, and the wrong-ending exception if they are any other two |
| WireFormat.WrongEndingStopsTheDriver | sources/builders/bulk_string_builder.cpp:70-73 | after any replies, a bulk string with a wrong ending stops the driver with those replies queued: it is never waited for |
| WireFormat.ShortBulkWaits | sources/builders/bulk_string_builder.cpp:67-68 | fewer bytes than the count and the ending are waited for |
| WireFormat.NegativeBulk | sources/builders/bulk_string_builder.cpp:56-68 | -1 is null, -2 reaches before the buffer, any other negative `int` size waits for ever |
| WireFormat.WideBulkWraps | sources/builders/bulk_string_builder.cpp:56 | a size outside `int` is treated as the size with the same low 32 bits |
| WireFormat.EmptyArrays | sources/builders/array_builder.cpp:46-53 | a printed count of 0 is the empty array, a negative one is null |
| WireFormat.NextRowDecides | sources/builders/array_builder.cpp:60-78 | an array that has read some rows fails or waits as its next row does, and is ready with them and that row, in order, if it was the last |
| WireFormat.FaultStopsTheDriver | sources/builders/reply_builder.cpp:38-60 | after any replies, bytes that fail stop the driver with the same fault and those replies queued |
| RoundTrip.ParseInvertsEncode | sources/builders/reply_builder.cpp:50-70 | decoding inverts encoding for every finitely nested encodable reply, and leaves what follows untouched |
| RoundTrip.ParseRowsInvertsEncode | sources/builders/array_builder.cpp:60-78 | the same for the rows of an array |
| RoundTrip.OnlyEncodableSurvives | sources/builders/bulk_string_builder.cpp:56-78 | nothing outside the encodable replies is read back by accident, at any depth |
| RoundTrip.RoundTripExactly | sources/builders/reply_builder.cpp:34-70 | the round trip holds for every continuation if and only if texts are CRLF-free, integers have magnitude at most 2^63-1 and bulk strings at most 2^31-3 bytes |
| RoundTrip.BothNullsAreNull | sources/builders/array_builder.cpp:46-50 | the null bulk string and the null array both become the null reply |
| RoundTrip.DriverRoundTrip | sources/builders/reply_builder.cpp:34-42 | fed the encodings of any replies and then t, the driver queues those replies and goes on as a fresh one fed t |
| RoundTrip.ProperPrefixIsIncomplete | sources/builders/reply_builder.cpp:50-70 | a proper prefix of an encoding is never a reply and never a fault |
| RoundTrip.NothingHeldBackNothingEarly | sources/builders/reply_builder.cpp:34-70 | after k encodings and a proper prefix of one more, in any chunks, exactly the k replies are queued and the prefix is all in the tree or the buffer |
| Builders.IntegerBuilder.Feed | sources/builders/integer_builder.cpp:38-68 | the digit loop over the object's fields does what one resumption of a waiting integer does, and erases the line only when it succeeds |
| Builders.SimpleStringBuilder.Feed | sources/builders/simple_string_builder.cpp:34-49 | the object takes the text up to the first CRLF, or waits with its buffer untouched |
| Builders.ErrorBuilder.Feed | sources/builders/error_builder.cpp:29-37 | the inner string builder's text becomes an error reply |
| Builders.BulkStringBuilder.FetchSize | sources/builders/bulk_string_builder.cpp:47-63 | reads the header once: null for -1, else the narrowed size |
| Builders.BulkStringBuilder.FetchStr | sources/builders/bulk_string_builder.cpp:65-78 | does to the buffer and to the reply what the reference makes of a body, which is spelled out by `WireFormat.BulkEnding`: waits for size + 2 bytes, takes the text whatever it contains, throws at a wrong ending |
| Builders.BulkStringBuilder.Feed | sources/builders/bulk_string_builder.cpp:80-92 | the two stages together are one resumption of a bulk string in any stage |
| ArrayBuilders.CreateBuilder | sources/builders/builders_factory.cpp:36-53 | a fresh builder of the type byte's kind, waiting, or the exception for any other byte |
| ArrayBuilders.FeedRef | includes/cpp_redis/builders/builder_iface.hpp:37-59 | the virtual call on any builder tree is one resumption of its abstract state |
| ArrayBuilders.ArrayBuilder.FetchArraySize | sources/builders/array_builder.cpp:37-58 | reads the header once: null below 0, an empty array at 0, else rows are awaited |
| ArrayBuilders.ArrayBuilder.EnsureRow | sources/builders/array_builder.cpp:62-65 | creates a row builder from its type byte only if none is in progress |
| ArrayBuilders.ArrayBuilder.BuildRow | sources/builders/array_builder.cpp:60-78 | one row step: the row in progress advances, a finished row is appended, the array is ready exactly when it was the last |
| ArrayBuilders.ArrayBuilder.StoreRow | sources/builders/array_builder.cpp:71-75 | a finished row goes to the end, its builder is dropped, and readiness is the count reaching the header |
| ArrayBuilders.ArrayBuilder.Feed | sources/builders/array_builder.cpp:80-93 | the recursive, mutable tree does exactly one resumption of its abstract state: reply, retained tree and remaining buffer, or fault |
| ReplyBuilders.ReplyBuilder.BuildReply | sources/builders/reply_builder.cpp:50-70 | one turn of the driver: what is left, and the reply queued if one was completed |
| ReplyBuilders.ReplyBuilder.BuildReplies | sources/builders/reply_builder.cpp:38-39 | the loop is the whole run over the buffer, and replies before a fault stay queued |
| ReplyBuilders.ReplyBuilder.Feed | sources/builders/reply_builder.cpp:34-42 | whatever chunks came before, the object is where one run over all the bytes received leads |
| ReplyBuilders.ReplyBuilder.Reset | sources/builders/reply_builder.cpp:44-48 | buffer and tree are cleared, the queue of built replies is not |
| ReplyBuilders.ReplyBuilder.PopFront | sources/builders/reply_builder.cpp:85-91 | removes the oldest built reply and nothing else |
| ReplyBuilders.FeedChunks | sources/builders/reply_builder.cpp:34-70 | a fresh object fed chunks ends as a function of their concatenation alone |
| Commands.BuildCommand | sources/network/redis_connection.cpp:100-108 | the printer writes the RESP2 encoding of the array of the arguments, for any arguments |
| WireFormat.CommandSpelled | sources/network/redis_connection.cpp:100-108 | those bytes spelled out: a star and the number of arguments, then each argument behind a dollar and its length, each part ended by CRLF |
| Commands.CommandsRoundTrip | sources/network/redis_connection.cpp:100-118 | a pipelined buffer reads back as exactly the commands written, even when arguments contain CRLF or type bytes |
| Commands.FramingIsUnique | sources/network/redis_connection.cpp:110-118 | two lists of commands with the same bytes are the same list |
| Commands.CommandsSurviveChunking | sources/network/redis_connection.cpp:120-141 | the same for a reader that receives the bytes in any chunks |
| Commands.FirstCommand | sources/network/redis_connection.cpp:100-118 | a reader that finds a whole command in front of a prefix of the buffer finds the first one, and leaves the others |
| Pipeline.ReissueOutcome | sources/core/client.cpp:355-385 | re-authentication and re-selection put the same commands at the end of the send buffer and of the queue |
| Pipeline.ReissueSpelled | sources/core/client.cpp:355-385 | in literals: AUTH with the saved password first, if there is one, then SELECT with the saved index, if positive, queued in that order as new requests with callbacks of their own; both settings are kept |
| Pipeline.ReconnectSpelled | sources/core/client.cpp:422-424 | in literals, the bytes a reconnection adds: the printed AUTH and SELECT, the pending commands, and the printed AUTH and SELECT again |
| Pipeline.ReconnectOutcome | sources/core/client.cpp:387-426 | with pending queue P, re-issued commands A and any send buffer W, a reconnection leaves W A P A in the buffer and P A in the queue, pending callbacks in front |
| Pipeline.ReconnectAlignsIff | sources/core/client.cpp:422-424 | the buffer decodes to the queue if and only if the send buffer was empty and nothing was re-issued, that is no password is saved and the index is not positive |
| Conservation.StepConserves | sources/core/client.cpp:226-297 | every step keeps the books: each submission in one place, each callback invoked once when its request has left, the counter equal to what is outstanding |
| Conservation.RunConserves | sources/core/client.cpp:178-335 | the same over every run from any state that keeps the books |
| Conservation.ExactlyOnce | sources/core/client.cpp:226-297 | in every reachable state a submitted request is in exactly one of queue, running handler, failure thread and done, and its callback has been invoked exactly once or not yet, however often it was re-sent |
| Conservation.SyncCommitIsSafe | sources/core/client.cpp:196-209 | the counter is the number of handlers in progress plus callbacks left in failure threads, modulo 2^32; below 2^32 outstanding, a satisfied wait predicate means that everything submitted has completed |
| Conservation.TakeConserves | sources/core/client.cpp:231-244 | popping and calling keep the books |
| Conservation.FinishConserves | sources/core/client.cpp:246-250 | counting down after the callback keeps the books, the counter included |
| Conservation.FailConserves | sources/core/client.cpp:264-278 | one turn of a failure thread keeps the books, the counter included |
| Conservation.FailuresInOrder | sources/core/client.cpp:264-275 | a failure thread calls the callbacks of its queue in the order of the queue, and ends empty |
| Conservation.NotifiedExactly | sources/core/client.cpp:266-271 | each callback that is not null is called as often as it is there, and no other |
| Conservation.TeardownFailsInOrder | sources/core/client.cpp:253-280 | the queue at a teardown is failed as it stands, oldest request first, behind the threads already running |
| Conservation.ClearConserves | sources/core/client.cpp:253-280 | moving the queue into a failure thread loses and duplicates nothing |
| Conservation.RestoreConserves | sources/core/client.cpp:282-297 | sending every pending request again loses and duplicates nothing |
| Ordering.SubmitKeepsForward | sources/core/client.cpp:178-182 | a send appends its command to the bytes and its request to the queue, in the same place |
| Ordering.CommitKeepsOrder | sources/network/redis_connection.cpp:120-131 | a commit moves bytes to the wire and changes no order |
| Ordering.ReceiveKeepsOrder | sources/network/redis_connection.cpp:151-163 | a chunk of any size is parsed to the server's replies, never refused, and changes no order, also behind replies left over from before |
| Ordering.TakeKeepsOrder | sources/network/redis_connection.cpp:165-175 | the reply at the front is the answer to the first outstanding command, and the request at the front is the one for the command `Lag` places behind it; the lag shrinks exactly when the queue is empty |
| Ordering.DropKeepsOrder | sources/network/redis_connection.cpp:186-195 | the order survives a drop at any moment: no byte is left on its way, and the answers due are those of the replies already parsed |
| Ordering.RestoreKeepsOrder | sources/core/client.cpp:387-426 | after a reconnection the queue is P A, and the outstanding commands are those of the replies left over, then W A P A; the lag is the number of replies left over, of commands in W and of commands in A |
| Ordering.GiveUpKeepsOrder | sources/core/client.cpp:324-331 | giving up keeps the order: what is left in the send buffer stays whole commands, now ahead of the queue |
| Ordering.ConnectKeepsOrder | sources/core/client.cpp:86-117 | a connection opened by the user inherits outstanding commands, queue and lag |
| Ordering.CloseKeepsOrder | sources/core/client.cpp:119-130 | closing keeps the order whatever is parsed or buffered, also during a reconnection |
| Ordering.StepKeepsOrder | sources/core/client.cpp:178-426 | every step, teardown at any moment included, keeps the order of bytes, replies and queue, as long as the server only answers what it is asked |
| Ordering.QueueIsServedInOrder | sources/core/client.cpp:226-239 | from any state, in the rest of its connection the i-th queued request is handed the reply to the i-th outstanding command, in order, whatever is sent meanwhile and however replies are cut |
| Alignment.StepKeepsAlignedIff | sources/core/client.cpp:119-426 | a step from an aligned state keeps it aligned if and only if its guard holds before it: no parsed reply waiting where the queue is emptied, and at a reconnection moreover an empty send buffer and nothing to re-issue |
| Alignment.AlignedExactlyOnCleanRuns | sources/core/client.cpp:119-426 | a run is aligned throughout if and only if every step of it meets its guard |
| Alignment.WireAlignment | sources/core/client.cpp:178-182 | over every clean run, unless a reconnection is under way, the commands answered but not handed out, then those decoded from the bytes not answered, are exactly the commands in the queue |
| Alignment.EveryReplyReachesItsOwnCommand | sources/network/redis_connection.cpp:151-175 | over every clean run each handler popped the request whose command the server was answering, with the reply the server wrote, and the parser never refuses |
| Alignment.OrderAlways | sources/core/client.cpp:226-239 | over every run in which the server answers what it is asked, clean or not, every handler is given the server's replies in order, and unless a reconnection is under way the queue is the end of the outstanding commands |
| Alignment.ReconnectionKeepsAlignedIff | sources/core/client.cpp:422-425 | a reconnection keeps replies and commands aligned if and only if no parsed reply waits, nothing was buffered since the drop, and nothing is re-issued |
| Alignment.TeardownKeepsAlignedIff | sources/builders/reply_builder.cpp:44-48 | a teardown by the user keeps them aligned if and only if every parsed reply has been handed out |
| Alignment.RequestIsPairedIff | sources/core/client.cpp:226-244 | from any state, a queued request is handed the reply to the outstanding command in its place, when its turn comes, and is paired if and only if that is its own command |
| Alignment.SentStandsIff | sources/core/client.cpp:178-182 | a request sent now stands at its own command if and only if nothing lags or the same command stands there |
| Alignment.PlaceAfterReissue | sources/core/client.cpp:422-425 | the first command sent after a reconnection that re-issued A, nothing else lagging, stands where the server answers the first command of A |
| Alignment.LagOnOneConnection | sources/core/client.cpp:231-239 | while a connection lasts the lag shrinks exactly when a reply finds the queue empty, and never grows |
| Alignment.StaleReplyWaits | sources/network/redis_connection.cpp:80-93 | a reply parsed and not handed out at `disconnect` is, after `connect` and a send, the next to be handed out, and the new request the next to be popped |
| Alignment.TakePairsIff | sources/core/client.cpp:226-244 | a handler run is paired if and only if the request it pops asked for the answer that is due |
| Alignment.FailedCommitKeepsAlignedIff | sources/core/client.cpp:211-224 | a commit failing with the connection up would keep the alignment if and only if no answer is on its way and the wire is empty |
| Mispairing.ReissuedReplyReachesWrongCommand | sources/core/client.cpp:355-426 | a reachable state, by a saved password and one drop, in which the callback of a GET was given the reply to an AUTH |
| Mispairing.BufferedReplyReachesWrongCommand | sources/core/client.cpp:311-322 | a reachable state, with nothing re-issued and one send between drop and reconnection, in which the callback of a PING was given the reply to a GET |
| Mispairing.StaleReplyReachesWrongCommand | sources/network/redis_connection.cpp:165-175 | a reachable state, with no drop at all, in which a reply parsed before `disconnect` was given to the callback of a command sent after `connect` |
| Receiving.WellFormedStreamIsHandedOut | sources/network/redis_connection.cpp:155-175 | on a well-formed stream every reply is handed out, in order, for every chunking |
| Receiving.HandedOutIndependentIff | sources/network/redis_connection.cpp:155-175 | the replies handed out are independent of the chunking if and only if the stream is well-formed or malformed before its first complete reply |
| Receiving.FaultAfterReply | sources/network/redis_connection.cpp:159-163 | two chunkings of a malformed stream with a complete reply, one that hands it out and one that does not |
| Connections.RedisConnection.Send | sources/network/redis_connection.cpp:110-118 | the send buffer gains exactly one printed command |
| Connections.RedisConnection.Commit | sources/network/redis_connection.cpp:120-141 | the buffer is moved out before the write, so a write that throws loses it |
| Connections.RedisConnection.Socket | sources/network/redis_connection.cpp:53-69 | a new socket has carried nothing, and the send buffer is kept |
| Connections.RedisConnection.Disconnect | sources/network/redis_connection.cpp:80-93 | send buffer and parser are cleared, replies already parsed are not |
| Clients.DeliveriesPairInOrder | sources/core/client.cpp:226-244 | with non-null callbacks, the i-th delivery is the i-th pending request with the i-th reply |
| Clients.DeliveriesExactly | sources/core/client.cpp:235-244 | with any callbacks null: a delivery is made if and only if it is a pending request with a callback and the reply of its own position |
| Clients.DeliveriesConcat | sources/network/redis_connection.cpp:165-175 | handing out replies in two batches is handing them out in one |
| Clients.Client.UnprotectedSend | sources/core/client.cpp:178-182 | the command goes into the buffer and the request to the end of the queue |
| Clients.Client.Send | sources/core/client.cpp:167-176 | a new request is submitted, and nothing is written yet |
| Clients.Client.UnprotectedAuth | sources/core/client.cpp:504-510 | in literals: AUTH with that password is printed and queued, and the password is saved for reconnections |
| Clients.Client.UnprotectedSelect | sources/core/client.cpp:1708-1714 | in literals: SELECT with that index is printed and queued, and the index is saved for reconnections |
| Clients.Client.ClearCallbacks | sources/core/client.cpp:253-280 | the whole queue, in order, moves to a new failure thread and is counted as running; an empty queue starts no thread |
| Clients.Client.FailOne | sources/core/client.cpp:264-275 | the callback of the thread's first request is given "network failure", and the counter goes down |
| Clients.Client.TryCommit | sources/core/client.cpp:211-224 | the buffer is written, or lost with the whole queue failed |
| Clients.Client.Commit | sources/core/client.cpp:184-194 | during a reconnection nothing happens: the reconnection commits |
| Clients.Client.ReAuth | sources/core/client.cpp:355-369 | AUTH with the saved password, if any, is sent and queued again |
| Clients.Client.ReSelect | sources/core/client.cpp:371-385 | SELECT with the saved index, if positive, is sent and queued again |
| Clients.Client.ResendFailedCommands | sources/core/client.cpp:282-297 | every pending request is printed again and stays queued with its own callback, in order |
| Clients.Client.ConnectionReceiveHandler | sources/core/client.cpp:226-251 | the front request is popped and only its callback called; with an empty queue nothing is called; the counter ends where it began |
| Clients.Client.Connect | sources/core/client.cpp:86-117 | bound, interval and callback are saved for reconnections; start is told before the connection and ok only if it did not throw; the send buffer is kept |
| Clients.Client.Reconnect | sources/core/client.cpp:387-426 | one attempt with any send buffer: on success exactly the buffered, re-issued and pending commands have been written, spelled out in bytes, and the queue holds the pending requests before the re-issued ones; else the pipeline is untouched; the settings are saved again unchanged |
| Clients.Client.ReconnectLoop | sources/core/client.cpp:319-322 | only the last attempt may connect or be followed by a cancellation, the bound is respected, the callback hears exactly the attempts' events, and a success has written the whole re-issued pipeline |
| Clients.Client.ConnectionDisconnectionHandler | sources/core/client.cpp:299-335 | leaves at once when already running; else ends connected with the re-issued pipeline written, or with the queue failed and stopped told |
| Clients.Client.TcpClientDisconnectionHandler | sources/network/redis_connection.cpp:186-195 | the same after clearing the buffers, with the whole callback trace in the grammar of the reconnection loop |
| Clients.Client.DrainReplies | sources/network/redis_connection.cpp:165-175 | every available reply goes to the next pending request, and surplus replies to none |
| Clients.Client.TcpClientReceiveHandler | sources/network/redis_connection.cpp:151-184 | a good chunk hands the replies left over and then its own to the pending requests in order; a malformed one hands out nothing, empties nothing and calls the disconnection handler, which the connect callback hears as dropped |
| Clients.Client.ReceiveChunks | sources/network/redis_connection.cpp:151-175 | any chunking of the encodings of any replies and a proper prefix calls the i-th pending callback with the i-th reply, each once, surplus none, nothing early |
| Clients.Client.Disconnect | sources/core/client.cpp:119-130 | no connection, empty buffers, the whole queue failed |
| Reconnection.EventsSpelled | sources/core/client.cpp:337-418 | what the connect callback hears of one attempt, in each of its outcomes |
| Reconnection.LoopFollowsGrammar | sources/core/client.cpp:387-418 | the loop's events are failing attempts, each sleeping? and lookup_failed, start failed or start ok failed, then at most one that works |
| Reconnection.HandlerFollowsGrammar | sources/core/client.cpp:299-335 | a handler run tells dropped, the loop's events, and stopped exactly when it ends without a connection |
| Subscribers.RegisteredIsLastAdded | sources/core/subscriber.cpp:189-193 | a key is registered with a callback if and only if its last event is the registration of that callback |
| Subscribers.FoldSuffix | sources/core/subscriber.cpp:178-246 | losing a connection never makes the server hold a key it was not asked to |
| Subscribers.TextExactly | sources/core/reply.cpp:120-123 | a reply carries a text if and only if it is a simple string, a bulk string or an error with that text |
| Subscribers.RoutingIsExact | sources/core/subscriber.cpp:297-383 | a reply invokes a message callback if and only if it is a "message" or "pmessage", in texts of any of the three kinds, for a key whose last event registered that callback; it invokes at most one |
| Subscribers.ServerMessagesAreRouted | sources/core/subscriber.cpp:297-351 | the all-bulk "message" and "pmessage" arrays a server pushes invoke exactly the callback registered for their key, with their channel and message |
| Subscribers.Subscriber.Subscribe | sources/core/subscriber.cpp:178-193 | the registration replaces any earlier one of the channel, and what was asked of the server stays within the maps |
| Subscribers.Subscriber.Psubscribe | sources/core/subscriber.cpp:195-210 | the same for a pattern |
| Subscribers.Subscriber.Unsubscribe | sources/core/subscriber.cpp:212-228 | a registered channel is removed and the server told; an unregistered one sends nothing |
| Subscribers.Subscriber.Punsubscribe | sources/core/subscriber.cpp:230-246 | the same for a pattern |
| Subscribers.Subscriber.Auth | sources/core/subscriber.cpp:147-159 | password and callback are saved, and no subscription is affected |
| Subscribers.Subscriber.Commit | sources/core/subscriber.cpp:248-261 | a write that throws loses the buffer, and the server is still asked for no unregistered key |
| Subscribers.Subscriber.LoseConnection | sources/network/redis_connection.cpp:95-98 | when the socket is gone and its handler has not run, what is only buffered is still there, and asks for no unregistered key |
| Subscribers.Subscriber.Disconnect | sources/core/subscriber.cpp:161-166 | nothing is issued any more, and the registrations stay |
| Subscribers.Subscriber.ReAuth | sources/core/subscriber.cpp:501-515 | AUTH with the saved password, if any, is sent and takes over the AUTH callback |
| Subscribers.Subscriber.ReSubscribeChannels | sources/core/subscriber.cpp:489-492 | in any iteration order, one SUBSCRIBE is sent for each channel and nothing else, and the map ends as it was |
| Subscribers.Subscriber.ReSubscribePatterns | sources/core/subscriber.cpp:494-497 | the same for patterns |
| Subscribers.AskedExactly | sources/core/subscriber.cpp:487-498 | after one SUBSCRIBE per channel and one PSUBSCRIBE per pattern, a server that held no other key holds exactly the registered ones |
| Subscribers.Subscriber.ReSubscribe | sources/core/subscriber.cpp:487-498 | exactly those commands are sent, channels first, and both maps end as they were |
| Subscribers.Subscriber.ReissueAll | sources/core/subscriber.cpp:482-484 | behind whatever was buffered since the drop: AUTH with the saved password if there is one, then one SUBSCRIBE per channel, then one PSUBSCRIBE per pattern, all written; the AUTH callback is the re-authentication's; password and maps are kept |
| Subscribers.Subscriber.Reconnect | sources/core/subscriber.cpp:448-485 | one attempt: connects exactly when the lookup and the socket succeed, and then has done that, which asks the server for exactly the registered keys if what was issued before asked for no other; otherwise nothing at all has changed |
| Subscribers.Subscriber.ReconnectLoop | sources/core/subscriber.cpp:406-409 | attempts are made until one connects, one is followed by a cancellation or the bound is reached, and not after; the connection and the cancellation are those of the last attempt, and the state is that of its start or as after a successful attempt |
| Subscribers.Subscriber.ClearSubscriptions | sources/core/subscriber.cpp:424-428 | both maps are emptied, and nothing else changes |
| Subscribers.GivingUpIsSafeIff | sources/core/subscriber.cpp:411-412 | emptying the maps asks the server for no unregistered key if and only if no subscription is issued |
| Subscribers.Subscriber.ConnectionDisconnectionHandler | sources/core/subscriber.cpp:385-422 | leaves at once when already running; else, with anything buffered since the drop, it has finished if and only if it is connected, cancelled or at its bound, and ends re-authenticated and asked again, or with both maps empty and nothing else changed, or still trying with nothing changed |
| Subscribers.Subscriber.TcpClientDisconnectionHandler | sources/network/redis_connection.cpp:186-195 | the same after clearing the buffers: from any state it ends safe, and if connected has sent AUTH and the subscriptions and nothing else |
| Subscribers.EndedAfterClearing | sources/network/redis_connection.cpp:186-195 | with cleared buffers every end of the handler is safe: in sync if connected, else nothing is issued |
| Subscribers.GiveUpAfterSubscribe | sources/core/subscriber.cpp:411-418 | a subscription made after the drop outlives its registration when the handler gives up |
| Subscribers.AcknowledgingIsExact | sources/core/subscriber.cpp:263-295 | an acknowledgement, in texts of any of the three kinds, invokes a callback if and only if it is a "subscribe" or "psubscribe" for a key whose last event registered that callback; it is given the count the reply carries, and at most one is invoked |
| Subscribers.ServerAcknowledgementsAreDelivered | sources/core/subscriber.cpp:263-295 | the same for the acknowledgements a server sends: the key in a bulk string, the count in an integer |
| Subscribers.Subscriber.HandleSubscribeReply | sources/core/subscriber.cpp:297-322 | calls what routing says for three rows |
| Subscribers.Subscriber.HandlePsubscribeReply | sources/core/subscriber.cpp:324-351 | calls what routing says for four rows |
| Subscribers.Subscriber.ConnectionReceiveHandler | sources/core/subscriber.cpp:353-383 | over any history, an array causes exactly the routed or acknowledging call, and any other reply answers the last AUTH once |

## Left out

- Alignment.WireAlignment: over clean runs only, which is the exact condition
  (`Alignment.AlignedExactlyOnCleanRuns`); and not between a drop and the end of its handler, where the
  queue starts with the commands answered and not handed out.
- Alignment.EveryReplyReachesItsOwnCommand: over clean runs; `Ordering.QueueIsServedInOrder` says which
  reply each request gets on the others.
- Alignment.AlignedExactlyOnCleanRuns: as long as the server only answers what it is asked. Bytes that
  answer nothing are a step of the protocol, which only the members of `Conservation` cover.
- Ordering.QueueIsServedInOrder: until the connection is torn down, and under the same condition.
- Conservation.SyncCommitIsSafe: with 2^32 or more callbacks outstanding the counter wraps and can read 0
  while they are; the lemma then only says what it counts.
- Commands.CommandsRoundTrip: for arguments of fewer than 2^31 - 2 bytes, which is what this library's
  own parser can read back; the server is taken to have the same limit.
- ArrayBuilders.ArrayBuilder.Feed: after an exception nothing is said about the fields of the builders;
  the code does not reset them on that path, and what the connection does after a malformed stream is
  not modelled.
- Clients.Client.Reconnect: the commit that ends it succeeds; a commit that throws there, out of the
  handler, is not modelled.
- Clients.Client.ConnectionReceiveHandler: callbacks that call back into the client appear only as
  interleaved steps of the protocol, between the two halves of a handler run.
- Clients.Client.ConnectionDisconnectionHandler: runs against a finite list of attempts; with an
  unlimited bound it may still be going when the list ends, and then says so.
- Subscribers.Subscriber.ConnectionDisconnectionHandler: runs against a finite list of attempts, as the
  client's does.
- Subscribers.Subscriber.Reconnect: without the trace of the connect callback, which is told by the same
  loop as the client's; commands sent by another thread between the attempt and its commit are left out.
- Subscribers.Subscriber.ConnectionReceiveHandler: a callback that subscribes, unsubscribes or
  authenticates while it runs is not modelled, nor is a null message callback.
- Clearing the buffers at a drop, a whole reconnection, and moving the queue together with its count in
  `clear_callbacks` are atomic steps; data races inside them are not modelled. `connect` by the user is a
  step only without a connection and without a reconnection under way.
- Condition-variable wake-ups, liveness, timeouts and the sleeping itself: only safety is proved.
- tacopie and `tcp_client`: reading, writing and connecting are outcomes chosen by the environment.
- The sentinel: a lookup that finds the master or does not. Connecting by master name is left out.
- The command marshallers, the future-based wrappers, `client_kill` and the type traits: argument
  concatenation.
- `reply`'s stream output, its move operations and its accessors' exceptions; the logger; the wide
  characters and locales that `std::isdigit` could see.
