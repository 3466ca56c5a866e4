# redis.go in Dafny

A model of the core of redis.go, a small Go client for Redis. The model
covers:

- the RESP2 codec: protocol.go and reply.go;
- the two dispatchers that put commands on one connection: client.go and
  pipeline.go, with the `Command` type of command.go;
- the subscriber of pubsub.go;
- the older copies of the Client and PipeLine in redis.go, which deliver
  replies (an invalid reply for a failure) instead of success flags.

The model and what it proves, file by file:

- `wire.dfy`: bytes, Go's `int64`, the decimal text that `fmt`'s `%d`
  writes, and `strconv.ParseInt(s, 10, 64)`.
- `reply.dfy`: the six reply types, `Value()`, and `*MultiBulkReply` as a
  class whose `Append` grows the element list in place.
- `protocol.dfy`:
  - `Encode` is a loop that appends frames to a buffer, proved equal to the
    request-byte function `Request`.
  - `Encoder` writes to a connection. Its writer is a log of accepted
    bytes, and a fault oracle says which `Write` calls fail.
  - `Decoder` reads a fixed input from a position, through a line buffer of
    a given capacity, and keeps the sticky error field `err`.
  - `Decode` is a method, proved against the pure decoder `Next`. Its
    counting loop appends into a `MultiBulkReply`.
- `runs.dfy`: runs of a state machine, meaning n successive calls of one
  step function.
- `codec_properties.dfy`:
  - the round trip: decoding `Encode(v)` gives back a multi-bulk of the
    arguments' texts, with count `len(v)`, and stops right after the request;
  - single-reply round trips;
  - every failure branch of `decode()`, and the line-too-long check coming
    first;
  - the sticky error: a poisoned decoder reads nothing more;
  - one-level reading of nested multi-bulks;
  - the test vectors of protocol_test.go.
- `command.dfy`: commands and buffered channels. A channel is the list of
  values ever sent on it and the number received. The dispatchers'
  deliveries are described as lists of events.
- `pipeline.dfy`, `client.dfy`, `legacy.dfy`: the dispatchers as classes
  whose methods change `pending`, `cmds`, `running`, the commands and their
  channels. What each claimed command receives is proved against functions
  of the encoder's and decoder's runs.
- `pubsub.dfy`: `Subscribe`, `PSubscribe` and the listening loop.

Two places where the code does something other than what its own lines
suggest. The model follows the code as it runs in both:

- **The `running` flag.** Each dispatcher ends its `Serve` with a reset,
  `running = false` (client.go:72, pipeline.go:87, redis.go:69,
  redis.go:149), which shows the intent: serve until the queue is empty,
  then clear the flag. But each reset stands after an endless `for` that
  only ever leaves by `return` (client.go:47-70), so it cannot be reached.
  `running` is never cleared, and a Client or PipeLine serves only its
  first claim. `Clients.Client.Serve`, `Pipelines.PipeLine.Serve` and the
  `Legacy` copies state this. The variant with the reset reached appears
  under Findings.
- **Encode failures on the Client.** When `Encode` fails, client.go:57-61
  stores the error and sends `false`, and then client.go:62-69 reads a
  reply for the same command all the same. Such a command receives two
  values.

## Model

| member | source | states |
|---|---|---|
| Wire.ParseSignedDecimal | protocol.go:111 | `strconv.ParseInt(msg, 10, 64)` reads the decimal text of every int64 back as that number, wherever it stands in the input |
| Wire.ParseDecimal | protocol.go:117 | a non-negative length or count written in decimal parses back to itself |
| Wire.DecimalValue | protocol.go:19 | the digits that `%d` writes for n denote n |
| Replies.Value | reply.go:11-58 | `Value()` is the string of a status, error or bulk reply, the int64 of an integer reply, the error of an invalid reply and the element list of a multi-bulk, each variant to its own kind of value |
| Replies.ValueForgetsOnlyCount | reply.go:47-58 | two replies of the same kind with equal `Value()` can differ only in a multi-bulk's count, which `Value()` drops |
| Replies.MultiBulkReply.constructor | reply.go:52-54 | `NewMultiBulkReply(c)` has count c and no element |
| Replies.MultiBulkReply.Append | reply.go:60-62 | `Append(v)` puts v last and keeps the earlier elements; the count is a constant |
| Protocol.EncodeRequest | protocol.go:16-31 | the buffer built by the loop is exactly `*len(v)\r\n` followed by `$<len>\r\n<text>\r\n` for each argument in order |
| Protocol.FramesSnoc | protocol.go:23-30 | one more argument appends exactly its frame to the frames so far |
| Protocol.WriteOnce | protocol.go:42-52 | an unfolding of `Write`, which `CodecProperties.RequestRoundTrip` completes: one `Encode` makes exactly one Write call; on success the writer has accepted the request bytes once, on failure nothing, and the writer's error comes back unchanged |
| Protocol.Encoder.Encode | protocol.go:42-52 | the method's error and writer state are those of `Write` |
| Protocol.Encoder.constructor | protocol.go:38-40 | a new encoder's writer has accepted nothing |
| Protocol.FindLFFirst | protocol.go:97 | the line scan stops at the first LF |
| Protocol.FindLFNone | protocol.go:97 | with no LF in the buffer window the scan finds nothing |
| Protocol.ReadLine | protocol.go:97-103 | a line read lies in the input and within the buffer, and moves the position forward; its only failures are "line too long" and end of input |
| Protocol.DecodeHead | protocol.go:96-138 | a successful `decode()` consumes input, never yields an invalid reply, and yields a multi-bulk head with no element |
| Protocol.DecodeElements | protocol.go:82-89 | n element reads that all succeed yield exactly n replies |
| Protocol.DecodeReply | protocol.go:77-91 | a decoded multi-bulk holds exactly max(count, 0) elements, and a decoded reply is never invalid |
| Protocol.Next | protocol.go:68-94 | a decoder with its error set returns that error and stays put; any failure sets the error field to it; a success leaves the error clear and moves forward |
| Protocol.Decoder.constructor | protocol.go:64-66 | a new decoder is at the start of its input with no error |
| Protocol.Decoder.Decode | protocol.go:68-94 | the method's outcome and new decoder state are those of `Next` |
| Protocol.Decoder.AppendElements | protocol.go:80-90 | the loop appends, in arrival order, the replies of max(count, 0) single-level reads to the empty list, or fails with the first read's error |
| CodecProperties.LineTooLongFirst | protocol.go:97-100 | when the buffer fills before an LF, the decode fails with "reply line too long" whatever the line holds, and the decoder keeps that error |
| CodecProperties.HeadFailures | protocol.go:96-135 | a failed line read, an empty line, an unknown tag, an unparsable integer, bulk length or multi-bulk count, and a bulk length whose +2 overflows each fail `decode()` with their own error |
| CodecProperties.SingleLineRead | protocol.go:104-109 | the line `+<text>\r\n` or `-<text>\r\n`, for a text without LF that fits the buffer, decodes as the status or error reply of that text and ends right after the line |
| CodecProperties.IntegerRead | protocol.go:110-115 | the line `:<n>\r\n` with n in decimal decodes as the integer n and ends right after the line |
| CodecProperties.BulkRead | protocol.go:116-126 | a header `$<L>\r\n` with L in decimal, below 2^63 - 2, followed by L+2 bytes gives the bulk of the first L of them, whatever they are, and resumes after all L+2 |
| CodecProperties.BulkOverflowRead | protocol.go:116-121 | a bulk header whose length L is at least 2^63 - 2, so that L+2 is no int64, fails with the overflow error whatever follows |
| CodecProperties.MultiBulkHeadRead | protocol.go:127-132 | the line `*<n>\r\n` with n in decimal gives an empty multi-bulk head with count n and ends right after the line |
| CodecProperties.SingleReplyRoundTrip | protocol.go:96-126 | the wire form of a status, error, integer or bulk reply decodes back to that reply and ends right after it |
| CodecProperties.FramesRead | protocol.go:23-30 | the frames of the arguments decode as their texts as bulks, in order |
| CodecProperties.RequestRoundTrip | protocol.go:16-31 | decoding the bytes of `Encode(v)` gives a multi-bulk with count len(v) whose elements are the arguments' texts as bulks, in order, ending right after the request |
| CodecProperties.DecodeEncoded | protocol.go:68-94 | the same round trip through `Decode`: the decoder returns that multi-bulk and moves past the request |
| CodecProperties.PoisonedStaysPut | protocol.go:69-71 | a poisoned decoder answers every further `Decode` with its error and never moves |
| CodecProperties.FailureIsFinal | protocol.go:72-75 | after the first failed `Decode` of a run, every later one returns the same error and the decoder reads nothing more |
| CodecProperties.SetRequestBytes | protocol_test.go:13-24 | `Encode(["set","mykey",123])` is `*3\r\n$3\r\nset\r\n$5\r\nmykey\r\n$3\r\n123\r\n` |
| CodecProperties.StatusVector | protocol_test.go:31-34 | `+OK\r\n` decodes as the status OK |
| CodecProperties.ErrorVector | protocol_test.go:35-38 | `-Error\r\n` decodes as the error reply Error |
| CodecProperties.IntegerVector | protocol_test.go:39-42 | `:12345\r\n` decodes as the integer 12345 |
| CodecProperties.BulkVector | protocol_test.go:43-46 | `$3\r\nkey\r\n` decodes as the bulk key |
| CodecProperties.FreshSingleReply | protocol_test.go:49-66 | a new decoder on the wire form of any status, error, integer or bulk reply returns that reply |
| CodecProperties.MultiBulkVector | protocol.go:80-90 | `*2` and two bulks decode as a multi-bulk of both bulks, in arrival order |
| CodecProperties.NestedMultiBulkVector | protocol.go:82-89 | a nested `*1` element is read one level deep: it stays empty, and the bulk meant for it becomes its sibling |
| CodecProperties.UnknownTagVector | protocol.go:133-134 | `?x\r\n` fails with "invalid reply type", and the decoder keeps the error |
| CodecProperties.BulkOverflowVector | protocol.go:116-121 | `$9223372036854775806\r\nab` fails with the overflow error, and the decoder keeps it |
| CodecProperties.BadIntegerVector | protocol.go:110-114 | `:12a\r\n` fails with "invalid IntegerReply", and the decoder keeps the error |
| Runs.StepsStuck | protocol.go:69-71 | a state that a step leaves as it is repeats the same outcome for ever |
| Runs.StepsAt | protocol.go:68-94 | outcome i of a run of `Decode` calls is what one `Decode` makes of the state the first i left |
| Commands.Chan.Send | client.go:60 | a send appends the value to the channel and takes nothing from it |
| Commands.Chan.Receive | client.go:31 | a receive takes the oldest value not yet received, or finds none where a Go receiver would block |
| Commands.Command.constructor | command.go:5-10 | a new command has its arguments, no channel, and `Reply` and `Error` nil |
| Commands.EnsureChan | client.go:37-39 | a command without a channel gets a new empty one of capacity 2; a channel already there is kept |
| Commands.ReplyOfRecoverable | redis.go:61-66 | delivering an outcome as a reply loses nothing: the reply is invalid exactly when the decode failed, and the outcome can be read back from it |
| Commands.SentOnAppend | pipeline.go:66-84 | deliveries in two parts send on each channel what the parts send, in order |
| Commands.Deliver | client.go:58-69 | a delivery stores its `Reply` or `Error` in its own command and sends its value on that command's channel, and changes nothing else |
| Commands.DeliverValue | redis.go:63-65 | a delivery that only sends its value on the command's channel |
| Pipelines.KeptAt | pipeline.go:65-74 | a command whose write succeeded is `waiting` entry number "successful writes before it": `waiting` is the batch minus its failed commands, in order |
| Pipelines.SucceededGrows | pipeline.go:73 | successful writes get distinct, increasing places in `waiting` |
| Pipelines.KeptAll | pipeline.go:65-74 | with no failed write every command waits |
| Pipelines.WriteEventsAt | pipeline.go:67-71 | every failed write delivers `false` with its own error to its own command, in batch order |
| Pipelines.ReadEventsAt | pipeline.go:75-84 | read j delivers to waiting command j: `true` with the reply stored, or `false` with the error stored |
| Pipelines.DeliveryOf | pipeline.go:65-84 | where each command's delivery stands among all of the batch's deliveries, and what it is |
| Pipelines.ReadFailureSpreads | pipeline.go:75-80 | once a read of the batch fails, every later waiting command gets `false` with the same error |
| Pipelines.WriteEventsOf | pipeline.go:67-71 | with distinct commands and channels, the writing loop sends command i `false` and stores its error exactly when its write failed, and otherwise leaves it alone |
| Pipelines.ReadEventsOf | pipeline.go:75-84 | with distinct commands and channels, waiting command k gets exactly one value, the outcome of read k |
| Pipelines.BatchOutcome | pipeline.go:65-84 | each command of a served batch gets exactly one value: `false` with its write error if its write failed, else the outcome of its own read, `true` with the reply or `false` with the read error |
| Pipelines.BatchDelivered | pipeline.go:65-84 | the same, stated on the command's fields and the channel's contents after serving |
| Pipelines.PipeLine.constructor | pipeline.go:22-28 | a new PipeLine has no batch, no queue and is not running |
| Pipelines.PipeLine.Go | pipeline.go:30-38 | `Go` gives the command a channel if it has none and appends it to the batch being built, leaving the queue alone |
| Pipelines.PipeLine.Discard | pipeline.go:40-44 | `Discard` empties the queue and keeps the batch being built |
| Pipelines.PipeLine.Exec | pipeline.go:46-52 | `Exec` appends the whole batch as the last queued batch and starts a new empty one |
| Pipelines.PipeLine.Serve | pipeline.go:54-89 | `Serve` does nothing when running or with an empty queue; otherwise it sets `running`, pops exactly the head batch and serves it, and `running` is never cleared; the batch being built, the commands of later batches and every channel outside the claimed batch are left as they were |
| Pipelines.PipeLine.Claim | pipeline.go:61-64 | one claim sets `running`, pops the head batch and serves it; the batch being built, every other command and every other channel are left as they were |
| Pipelines.PipeLine.ServeBatch | pipeline.go:65-84 | the writer makes every write of the batch in order, the decoder makes one read per successful write, and the commands get the batch's deliveries |
| Pipelines.PipeLine.WriteBatch | pipeline.go:65-74 | the writing loop's writes are the batch's writes in order, `waiting` is the commands whose write succeeded, and each failure is delivered |
| Pipelines.PipeLine.WriteOne | pipeline.go:67-72 | one write, and a failure stored and delivered as `false` |
| Pipelines.PipeLine.ReadReplies | pipeline.go:75-84 | the reading loop makes one `Decode` per waiting command, in order, and delivers read j to waiting command j |
| Clients.DeliveriesFit | client.go:57-69 | a claimed command gets one or two values, which fit its capacity-2 channel; two exactly when the write failed; `true` only when the read succeeded |
| Clients.Client.constructor | client.go:21-27 | a new Client has an empty queue and is not running |
| Clients.Client.Go | client.go:35-44 | `Go` gives the command a channel if it has none and appends it to the queue |
| Clients.Client.Serve | client.go:46-74 | `Serve` does nothing when running or with an empty queue; otherwise it sets `running` for good, pops exactly the head, writes it, and reads a reply even after a failed write; the command's channel gets those deliveries and its fields the reply or error, and nothing else changes |
| Clients.Client.ServeOne | client.go:57-69 | one claim's write, read, stored fields and values sent |
| Clients.Client.Execute | client.go:29-44 | on an idle, empty client, cmd is claimed: the writer and reader move on by its write and one read, its fields and channel get that claim's deliveries, and the value returned is the first one sent, for a new command whether both the write and the read succeeded; on a busy client, or behind others, cmd stays queued, untouched unless it was queued already, the writer and reader move only by the head's claim, and a new command gets no answer |
| Clients.Client.DrainingServe | client.go:46-74 | the draining loop: every queued command gets a value, the queue ends empty, and `running` ends as it started |
| Clients.Client.DrainOne | client.go:53-69 | one pass of the draining loop serves the head command as a claim does: one write, one read, the fields and values of `ServeOne`, and one more command drained |
| Clients.Client.DrainingExecute | client.go:29-33 | over the draining loop a new command is answered, and the client is idle again |
| Clients.SecondExecuteBlocks | client.go:29-74 | on a new client, a second `Execute` never gets an answer |
| Clients.DrainedExecutesBoth | client.go:71-73 | with the reset reached, both `Execute` calls are answered |
| Legacy.DeliveriesFit | redis.go:57-66 | one or two replies that fit the channel; the first, which `Execute` returns, is invalid exactly when the write or the read failed; the last is the read's |
| Legacy.Client.constructor | redis.go:21-27 | a new Client has an empty queue and is not running |
| Legacy.Client.Go | redis.go:35-44 | the channel is made if absent, the command is appended, and its `Reply` and `Error` are left alone |
| Legacy.Client.Serve | redis.go:46-71 | the same guard and claim as client.go, with an invalid reply for a failed write, then the read's reply or an invalid reply |
| Legacy.Client.ServeOne | redis.go:57-66 | one claim's write, read and replies sent |
| Legacy.Client.Execute | redis.go:29-44 | on an idle, empty client, cmd is claimed: the writer and reader move on by its write and one read, its channel gets that claim's replies, and the reply returned is the first one sent, for a new command the write's invalid reply or the read's reply; on a busy client, or behind others, cmd stays queued, the writer and reader move only by the head's claim, and a new command gets none; `Reply` and `Error` are never set |
| Legacy.WriteUntilFailure | redis.go:132-139 | the writing loop makes at most one write per command and stops after the first failure |
| Legacy.WritesArePrefix | redis.go:132-139 | its writes are the first writes of the batch, all successful but a failing last one |
| Legacy.WriteUntilStep | redis.go:133-138 | one pass of the writing loop: a failure ends it, a success goes on |
| Legacy.AbandonedBatch | redis.go:131-139 | at the first failed write, only that command gets a reply; the commands written before it, and those after it, get nothing |
| Legacy.CompletedBatch | redis.go:140-147 | a batch written in full: command i gets exactly the reply of read i |
| Legacy.PipeLine.constructor | redis.go:87-93 | a new PipeLine has no batch, no queue and is not running |
| Legacy.PipeLine.Go | redis.go:95-103 | as in pipeline.go: the channel is made if absent, the command joins the batch being built, and its `Reply` and `Error` are left alone |
| Legacy.PipeLine.Discard | redis.go:105-109 | as in pipeline.go |
| Legacy.PipeLine.Exec | redis.go:111-117 | as in pipeline.go |
| Legacy.PipeLine.Serve | redis.go:119-151 | the same guard; a claimed batch is written until a write fails; an abandoned batch reads nothing, a complete one reads one reply per command; the batch being built and every channel outside the claimed batch are left as they were |
| Legacy.PipeLine.Claim | redis.go:127-130 | one claim sets `running`, pops the head batch and serves it; the batch being built and every other channel are left as they were |
| Legacy.PipeLine.ServeBatch | redis.go:131-147 | the writing loop, then the reading loop only when no write failed |
| Legacy.PipeLine.WriteBatch | redis.go:131-139 | the writes stop at the first failure, which is delivered as an invalid reply to its command |
| Legacy.PipeLine.WriteUntil | redis.go:132-139 | the loop's writes and `waiting` are those of `WriteUntilFailure` |
| Legacy.PipeLine.ReadReplies | redis.go:140-147 | one `Decode` per command, in order, each outcome delivered as a reply |
| PubSubs.SubscribeRoundTrip | pubsub.go:31-37 | what the server reads off a subscription request is a multi-bulk of the kind and then the channel names, in order |
| PubSubs.PubSub.constructor | pubsub.go:21-29 | the message channel is new and unbuffered |
| PubSubs.PubSub.Subscribe | pubsub.go:31-33 | writes `["subscribe"] ++ channels` once |
| PubSubs.PubSub.PSubscribe | pubsub.go:35-37 | writes `["psubscribe"] ++ patterns` once |
| PubSubs.PubSub.SubscribeTo | pubsub.go:39-50 | the request built by appends is written once, and the writer's error comes back unchanged, or none; redis.go:184-195 is the same code |
| PubSubs.PubSub.Listen | pubsub.go:52-68 | the loop polls `Quit` before every decode, returns nil without decoding once it is signalled, and forwards one message per decode; redis.go:197-213 is the same code |
| PubSubs.MessageAt | pubsub.go:59-64 | message k is outcome k as a reply |
| PubSubs.ForwardedFaithfully | pubsub.go:59-64 | a forwarded message is invalid exactly when its decode failed, and then carries that error; otherwise it is the reply itself |
| PubSubs.FailureRepeats | pubsub.go:59-61 | after the first invalid message, every later message is that same invalid reply |
| PubSubs.PoisonedListener | pubsub.go:59-61 | a listener on a poisoned decoder forwards nothing but the invalid reply for its error |

## Left out

- `Dial`, `DialPipeLine`, `DialPubSub` and `net.Conn`: the constructors take
  an encoder and a decoder. The connection is a fixed input byte sequence
  for reading and a log of accepted bytes for writing.
- Write faults: a fault oracle keyed by call number decides which writes
  fail. A failed Write appends nothing, so partial writes are not modelled.
- Goroutines and `sync.Mutex`: everything is sequential.
  - The goroutine that `Go` starts on a Client is the `Serve` call that
    `Execute` makes between queueing and receiving. `Clients.Client.Go`
    itself only queues.
  - `Exec` starts no goroutine either; `Serve` is called on its own.
- Channel blocking is not modelled:
  - sends never block, so the capacity is not enforced, but
    `DeliveriesFit` shows a claim never sends more than 2 values;
  - a receive on an empty channel returns None where Go would block;
  - the unbuffered `MsgChan` takes every message without a receiver.
- The `Quit` channel: `Listen` takes the number of polls that find it empty.
- `fmt.Sprint` over any `interface{}`: arguments are strings or int64
  integers.
- `bufio.Reader` internals:
  - `ReadLine` is a split at the first LF within a buffer of given capacity,
    with a CR right before the LF dropped;
  - `io.ReadFull` reads straight from the input.
- `strconv.ParseInt`'s own error values: the decoder replaces them with its
  own messages anyway.
- The three panics of `decode()` become explicit errors, which poison the
  decoder like any other failure:
  - an empty line indexes `s[0]` and `s[1:]`: `EmptyLine`;
  - a negative bulk length reaches `make` or `b[:bulkLen]`:
    `NegativeBulkLength`;
  - a bulk length of 2^63 - 2 or more makes `bulkLen+2` wrap to a negative
    int64, and `make` panics: `BulkLengthOverflow`.
- Protocol.DecodeHead: a bulk length below 2^63 - 2 but too large for
  Go to allocate makes `make` panic, or the program run out of memory. The
  model has no allocation limit: it tries to read that many bytes and
  reports the end of the input.
- The read position after a failed decode is kept where it was. It cannot
  be observed, since the decoder never reads again.
- The error result of the package-level `Encode` comes from writing into a
  `bytes.Buffer`, which never fails, so `Protocol.EncodeRequest` has none.
- doc.go is prose only.
- The redeclared types of redis.go and the lower-case `replyChan` field of
  command.go: each copy is a module of its own.
- Clients.Client.Execute: for a command that already has a channel and
  arrives at a busy client, says only that the command stays queued, not
  what the receive returns: that depends on values left on the channel
  earlier, or sent on it by the head's claim when the two share it.
- Legacy.Client.Execute: the same gap as `Clients.Client.Execute`.
- Clients.Client.DrainingExecute: states that the command is answered, not
  with which value; per command that is `Clients.Client.ServeOne`'s
  contract.
- Clients.Client.DrainingServe: states that every queued command gets at
  least one more value, not which values. Per command, that is
  `Clients.Client.ServeOne`'s contract.
- PubSubs.PubSub.Listen: forwards a message whether or not anyone receives
  it.

## Findings

| source | as written | input that shows it | evidently intended | confidence | as-written member | corrected member |
|---|---|---|---|---|---|---|
| client.go:46-74 | the `running = false` after the endless `for` cannot be reached, so after the first claim every `Serve` returns at its guard; pipeline.go:86-88, redis.go:68-70 and redis.go:149-150 are the same | two `Execute` calls on a new Client: the second never gets an answer | serve the queued commands until the queue is empty, then clear `running` | not executed | Clients.SecondExecuteBlocks | Clients.DrainedExecutesBoth |
| redis.go:136 | `continue Loop` at the first failed write leaves the whole batch: commands written before it never get their replies, and later commands are never written | a batch of two commands whose first write succeeds and whose second write fails: the first command receives nothing | skip only the failed command and go on with the batch, as pipeline.go:71 does | not executed | Legacy.AbandonedBatch | Pipelines.BatchOutcome |
