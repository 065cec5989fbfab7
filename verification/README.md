# A model of the node agent's request tracing

The agent turns events of the kernel into one span per request. Two eBPF ring buffers are merged into
one sequence of events; the bytes an application reads and writes are walked in the kernel and put
together again in user space, as HTTP/1 and as HTTP/2; requests are attributed to connections; profiles
are pruned; uprobes and the export queue are accounted for. This project models those stages and proves
what they promise: that nothing is lost, doubled, reordered or mixed up, wherever a buffer or an event
ends and however the parts interleave.

How it is laid out:

- `Wrappers`, `Bytes`, `Transducer`: options, byte strings, and machines that read a byte at a time.
- `RingMerge` is the merge of the two rings as a transition system in which every load of a shared word
  is a step, with any number of producers. `RingOrder` says when it hands records over in the order of
  their times. `RingBuffer` is the same merge over the bytes of the rings: the classes `Ring` and
  `QueuedRing`, positions, headers, wrapping around. `RingSystem` runs that code load by load between the
  steps of the producers and shows that it is the transition system.
- `Http1Kernel` is the kernel walker as a byte automaton, `Http1Walk` the code proved against it.
  `Http1Message`, `Http1Fields` and `Http1Body` say what the automaton does with header blocks, fields
  and bodies. `Http1Parser` is the user side as functions, `Http1Connection` the object proved against
  them, `Http1Lines` what it takes for requests and responses, `Http1Bodies` a listener without limits
  that says what it has to return and when, and `Utf8` where a body may be cut. `Http1Pairing`, `Http1EndToEnd`,
  `Http1Order` and `Http1Conversation` put both sides together, `Http1CutTrailer` says when an exchange
  is lost, and `Http1Agent` is one connection through the code of both sides.
- `Http2Frames` is framing (a byte automaton and the code), `Http2Streams` the life of streams,
  `Http2Connection` the parser object, `Http2Exchange` the parser of one stream alone, which every stream
  of a connection is shown to have, `Http2Bodies` a listener on the inputs that says what is returned for
  a stream and when, `Http2Cuts` that with bodies it does not show where events end.
- `Prune` says what pruning means and promises, `PruneShares` which nodes are left, by sums over the
  samples, and `PruneCode` is the code with its trie and its keys.
- `WriteReplay`, `Connections` with `ConnectionTable`, `Uprobes` and `QueueBudget` are the remaining
  parts, each with its runs and its code. `ConnectionLife` and `UprobeLife` tell the same runs by their
  events alone: when a connection is closed and found, what a process has and what is detached.

Objects that Go shares by reference (HTTP/2 streams, connections) are kept in a store and named by
numbers that are never used again; trie nodes are kept in a list. Maps that Go visits in an undefined
order are visited in an undefined order here. Integers are unbounded except where a width is written out
(counters of 64 bits and their differences, the lengths in `Http1Kernel`, Atoi). Time, the clock, the
results of system calls, HPACK, the header parser of bodies, the decision whether a body is kept and the
product of a total with a fraction are parameters.

Where the code and its comments disagree, the code is modelled:

- ringmerge.go says records are handed over in the order of their times. They are if records are reserved
  in that order, `RingOrder.TimesAreInOrder`; `RingOrder.SortedIff` says exactly when, for every run, and
  `RingMerge.TimesAreNotInOrder` and `RingMerge.TiesGoToTheConnection` show runs that are not. What holds
  in every run is `RingMerge.RunsRespectHappensBefore`.
- http1_parser.go says header blocks are put together however they were split. After a chunked body with
  an empty trailer section whose line end was split between two buffers, the next block is dropped:
  `Http1Conversation.CutShowsInLog` says exactly when, `Http1CutTrailer.CutRequestLosesAnExchange` and
  `Http1CutTrailer.CutResponseLosesAnExchange` what it costs, and
  `Http1CutTrailer.ReportedIffNoTrailerCut` when nothing is lost.
- http1.c says it skips leading white space of a field value. It skips white space anywhere in it, and
  takes for chunked whatever begins so: `Http1Fields.ScanReadsFields`.
- http2.go puts a frame of up to 1024 bytes together; a longer one that is cut is given up and the rest
  of it is read as frames. `Http2Frames.CutsShowIffInLong` says exactly which cuts do no harm, and
  `Http2Frames.CutLongFrameIsLost` what the first harmful one costs.
- closed_connections.go forgets connections closed for more than five seconds. One without a stamp that
  lost its addresses is not seen: `Connections.UnstampedIsNotCollected` says exactly when and
  `Connections.ExpiredConnectionStays` how it comes about. The grace period starts again when the fd of
  a closed connection is used again: `ConnectionLife.ClosedAtTheFirst` says when it starts and
  `ConnectionLife.ReopenClosesAgain` shows such a run.

## Model

| member | source | states |
|---|---|---|
| RingMerge.ProducersEvolve | ebpftracer/ebpf/l7/l7.c:305-322 | Every step of a producer (stamp, then reserve, then commit or discard) only adds records, settles busy ones and moves time on; nothing a consumer has seen changes |
| RingMerge.ConsumeKeepsOk | ebpftracer/ringmerge.go:66-92 | One load of a producer position or of a record header, with the busy rule, the second look at an empty ring and the choice by time, keeps the invariant whatever the producers did since the load before |
| RingMerge.HandOverKeepsCausalOrder | ebpftracer/ringmerge.go:66-92 | Whatever ring nextRecord decides for, everything that happened before that record has been handed over already |
| RingMerge.FillKeepsOk | ebpftracer/ringmerge.go:117-129 | A record moved into the queue keeps its place between those handed over and those in the ring, and its size is counted |
| RingMerge.SkipKeepsOk | ebpftracer/ringmerge.go:201-205 | A discarded record is passed over without losing a committed one |
| RingMerge.EveryRunKeepsInv | ebpftracer/ringmerge.go:258-283 | The invariant holds in every state of every interleaving of any number of producers with the merge loop |
| RingMerge.RunsRespectHappensBefore | ebpftracer/ringmerge.go:16-31 | In every run, if a record was committed before another was stamped, and the clock tells (same ring, or a connection record, or a later time), it is handed over before it, across rings |
| RingMerge.RunsHandOverAPrefix | ebpftracer/ringmerge.go:99-149 | In every run the records handed over from a ring are a prefix of its committed records in reservation order, each once; the queue follows them, and queuedBytes is the sum of the queued lengths |
| RingMerge.QuietRingsAreDrained | ebpftracer/ringmerge.go:258-283 | From every state of every run without busy records, whatever the consumer has read in the round it is in, steps of the consumer alone lead to a state in which everything committed is handed over: nothing waits for ever |
| RingMerge.TiesGoToTheConnection | ebpftracer/ringmerge.go:63-65 | For every time t there is a run in which an L7 record committed before a connection record was stamped, at the same time t, is handed over after it: the clock condition is needed |
| RingMerge.TimesAreNotInOrder | ebpftracer/ringmerge.go:20-24 | The input for which the order of times is not kept: a producer that stamped first and reserved second. When it is kept is RingOrder.SortedIff |
| RingOrder.ConsumeMoves | ebpftracer/ringmerge.go:66-92 | A step of the consumer hands over nothing, or a committed head while the other ring is drained or its head is committed too and not to go first; and no head ever moves back |
| RingOrder.RunsCover | ebpftracer/ringmerge.go:20-31 | In every state of every run and for any two records handed over of different rings: the later one was reserved after the earlier one was handed over, or a committed record of its ring at or before it has a time no smaller |
| RingOrder.SortedIff | ebpftracer/ringmerge.go:20-31 | The exact condition, for every run: what is handed over is in the order of its times if and only if what each ring hands over is, and no record is reserved after one of the other ring with a later time was handed over |
| RingOrder.TimesAreInOrder | ebpftracer/ringmerge.go:20-24 | In every run in which records are reserved in the order of their times, however commits and the merge interleave, they are handed over in the order of their times |
| RingBuffer.PosGrows | ebpftracer/ringmerge.go:215-218 | A record ends where the next one starts or before: positions grow by at least the rounded room of each record |
| RingBuffer.OffDistinct | ebpftracer/ringmerge.go:195 | Two positions less than the size apart never fall on the same byte of the ring |
| RingBuffer.U32RoundTrip | ebpftracer/ringmerge.go:196 | The length and flags of a record header come back from their four bytes |
| RingBuffer.TimeIsRead | ebpftracer/ringmerge.go:207-210 | The time read from a record is the number whose eight base-256 digits, least first, stand at the offset of that ring; a record too short for it is read as 0 |
| RingBuffer.NextIsByTime | ebpftracer/ringmerge.go:60-92 | Of two committed heads the one whose bytes bear the smaller time goes first, and the connection record if they bear the same |
| RingBuffer.SaysElsewhere | ebpftracer/ringmerge.go:195-208 | A write into the room of one record leaves header and bytes of every other record between the two positions, around the end of the array |
| RingBuffer.Ring.constructor | ebpftracer/ringmerge.go:165-187 | A new ring has nothing ahead |
| RingBuffer.Ring.LoadPosition | ebpftracer/ringmerge.go:191-194 | The load of the producer position says whether there is a record at the consumer position |
| RingBuffer.Ring.LoadHeader | ebpftracer/ringmerge.go:195-211 | The load of the header there says of that record whether it is busy, discarded or committed, and its bytes in the last case |
| RingBuffer.Ring.Head | ebpftracer/ringmerge.go:189-213 | The head is empty, busy or ready exactly as the first record not discarded says, with its bytes and its time; discarded records are consumed on the way and nothing else is, so the records ahead stay the same |
| RingBuffer.Ring.Pop | ebpftracer/ringmerge.go:215-218 | The record the head returned is taken, and the consumer position moves to the next record and never passes the producer position |
| RingBuffer.Ring.Reserve | ebpftracer/ebpf/l7/l7.c:307-311 | The kernel reserves room behind all records, if there is any, without touching one of them |
| RingBuffer.Ring.Commit | ebpftracer/ebpf/l7/l7.c:312-322 | Writing and committing a reserved record changes that record and no other |
| RingBuffer.Ring.Discard | ebpftracer/ebpf/l7/l7.c:308-320 | Giving a reserved record up changes that record and no other |
| RingBuffer.QueuedRing.constructor | ebpftracer/ringmerge.go:111-113 | A new queue leaves the records ahead as they are in the ring |
| RingBuffer.QueuedRing.Fill | ebpftracer/ringmerge.go:117-129 | Moving records into memory leaves the queue followed by the ring unchanged as a sequence, keeps queuedBytes the sum of the queued lengths, and stops only when the queue is full or nothing is ready |
| RingBuffer.QueuedRing.Head | ebpftracer/ringmerge.go:131-136 | The head of the queue, or else of the ring, with its time |
| RingBuffer.QueuedRing.Pop | ebpftracer/ringmerge.go:138-149 | The first record of queue and ring together is taken, and queuedBytes follows |
| RingBuffer.NextRecord | ebpftracer/ringmerge.go:66-92 | While no producer acts: nothing to do, wait, or the record with the smaller time, the connection record on equal times; the records ahead stay |
| RingBuffer.Drain | ebpftracer/ringmerge.go:258-271 | The loop of run, up to where it would wait, hands over the merge of what was ahead of the two rings and leaves the rest |
| RingBuffer.MergeConserves | ebpftracer/ringmerge.go:258-271 | The merge loses, doubles and reorders nothing within a ring, and stops only with both rings empty or at a record being written |
| RingBuffer.MergeSorts | ebpftracer/ringmerge.go:20-24 | Rings that are each in the order of their times are merged in the order of the times |
| RingSystem.System.constructor | ebpftracer/ringmerge.go:244-255 | Two empty rings and a merger that has handed over nothing are the first state of the transition system |
| RingSystem.System.Examine | ebpftracer/ringmerge.go:195-211 | The load of one header from the bytes of a ring, with what the code does next, is the step of the transition system that loads a header |
| RingSystem.System.Step | ebpftracer/ringmerge.go:66-283 | Every step of fill, nextRecord and run over the bytes, from one load to the next, is one step of the transition system |
| RingSystem.System.Reserve | ebpftracer/ebpf/l7/l7.c:307-311 | A producer that stamped its record reserves room for it or drops it, in the bytes and in the transition system |
| RingSystem.System.Elsewhere | ebpftracer/ebpf/l7/l7.c:304 | The clock and the stamps of producers are steps of the run that change no byte |
| RingSystem.System.Commit | ebpftracer/ebpf/l7/l7.c:312-322 | A producer writes a record whose bytes bear the time it stamped and commits it, between any two loads of the consumer, and that is a step of the run |
| RingSystem.System.Discard | ebpftracer/ebpf/l7/l7.c:308-320 | The same for a record that is given up |
| RingSystem.System.EveryByteInOrder | ebpftracer/ringmerge.go:99-149 | In every interleaving: what was handed over from a ring, followed by what is queued, is every committed record below the consumer position, once, in reservation order, byte for byte |
| RingSystem.System.CausesComeFirst | ebpftracer/ringmerge.go:16-31 | In every interleaving: the bytes of a record committed before another was stamped are handed over before those of the other, if the clock tells |
| RingSystem.System.TimesComeInOrder | ebpftracer/ringmerge.go:20-24 | In every interleaving in which records are reserved in the order of their times, the times that the bytes handed over bear, digit by digit, never go back |
| Http1Kernel.FeedKeepsOk | ebpftracer/ebpf/l7/http1.c:74-121 | The persisted state stays well-formed over every input: budgets within 4096, lengths within 64 bits, no body phase without a length |
| Http1Kernel.FeedPayload | ebpftracer/ebpf/l7/http1.c:557-598 | A step over several body bytes, captured or skipped, is the walk of them one by one |
| Http1Walk.ScanHeaders | ebpftracer/ebpf/l7/http1.c:407-547 | The header scan with its flushes of 1024 bytes is the byte automaton on exactly the bytes it consumed; it stops at the end of the block or of the buffer |
| Http1Walk.EndHeaders | ebpftracer/ebpf/l7/http1.c:828-905 | The branches at the end of a header block or trailer (matchers set back, the HEAD entry made, used or dropped, the next phase from HEAD, 1xx, 204, 304, chunked, length or none) are the step of the automaton |
| Http1Walk.FinishScan | ebpftracer/ebpf/l7/http1.c:759-828 | When the scan of a buffer stops the gathered bytes are flushed in one event, and what was sent and the state are those of the automaton |
| Http1Walk.BodyStep | ebpftracer/ebpf/l7/http1.c:557-598 | One body step advances, captures at most what the budget and an event allow, and accounts for exactly the bytes it passed |
| Http1Walk.WalkBody | ebpftracer/ebpf/l7/http1.c:602-618 | The loop over a sized body is the automaton on the bytes it consumed |
| Http1Walk.WalkChunks | ebpftracer/ebpf/l7/http1.c:628-703 | The loop over chunk sizes, chunk data and line ends is the automaton on the bytes it consumed |
| Http1Walk.WalkPhase | ebpftracer/ebpf/l7/http1.c:722-950 | One phase is the automaton on the bytes it consumed, and ends with the phase or the buffer |
| Http1Walk.Walker.constructor | ebpftracer/ebpf/l7/http1.c:74-121 | A new connection starts both directions in the header phase |
| Http1Walk.Walker.WalkBuffer | ebpftracer/ebpf/l7/http1.c:722-966 | A whole buffer is the automaton on the bytes walked, the other direction is untouched, events are full except the last of a phase, and the buffer is walked to its end if and only if its phases fit the 31 rounds |
| Http1Message.BlockEnds | ebpftracer/ebpf/l7/http1.c:430-431 | The terminator of a header block is found at its end and at no byte before it, whatever came before the block |
| Http1Message.FeedBlock | ebpftracer/ebpf/l7/http1.c:407-547 | A header block gives its first 4096 bytes and the end of the phase, and leaves the state the scan of the whole block decides |
| Http1Fields.LengthField | ebpftracer/ebpf/l7/http1.c:435-461 | Whatever the value of a Content-Length field is, in any letter case of its name, the length read is that of its first digits, white space aside, up to where the next digit could pass 64 bits, and 0 without digits |
| Http1Fields.EncodingField | ebpftracer/ebpf/l7/http1.c:462-495 | A Transfer-Encoding field makes a body chunked if and only if its value, white space aside, begins with chunked in any letter case |
| Http1Fields.RequestLineIsHead | ebpftracer/ebpf/l7/http1.c:496-514 | The first word of a request line is taken for HEAD if and only if it is HEAD |
| Http1Fields.StatusLineCode | ebpftracer/ebpf/l7/http1.c:496-514 | The status code of a response line is its three digits |
| Http1Fields.ScanReadsFields | ebpftracer/ebpf/l7/http1.c:407-547 | What the scan reads off any header block, however its fields are written: chunked if and only if some Transfer-Encoding says so, a length if and only if there is a Content-Length, and then that of the first |
| Http1Fields.ScanFindsFraming | ebpftracer/ebpf/l7/http1.c:407-547 | The scan of a header block finds exactly the framing its fields declare, section 6.3 of RFC 9112: chunked, a length, or neither |
| Http1Body.FeedSizedBody | ebpftracer/ebpf/l7/http1.c:602-618 | A body of known length gives its first bytes up to the budget, one end, and the header phase right after it |
| Http1Body.FeedChunks | ebpftracer/ebpf/l7/http1.c:645-703 | A list of chunks with extensions gives the decoded data up to the budget, section 7.1 of RFC 9112 |
| Http1Body.FeedTrailer | ebpftracer/ebpf/l7/http1.c:856-860 | A trailer section, empty or not, is passed on and ends in the header phase; the empty one is recognised through the bytes the header block left |
| Http1Body.FeedChunkedBody | ebpftracer/ebpf/l7/http1.c:628-703 | A chunked body decodes to the first min(4096, n) bytes of its data, and the walker is in the header phase right after the trailer section |
| Http1Body.FeedUnsizedBody | ebpftracer/ebpf/l7/http1.c:557-598 | A body without a length gives its first 4096 bytes and never ends: everything after it belongs to it |
| Http1Body.HexDigits | ebpftracer/ebpf/l7/http1.c:645-703 | The value of a digit of a chunk size is its place among 0 to f, in either letter case, and nothing else has one |
| Utf8.TrimIncompleteRune | ebpftracer/l7/bodies.go:107-117 | The loop over the last four bytes computes the specification of dropping an incomplete sequence |
| Utf8.CutOfValidIsLongestValid | ebpftracer/l7/bodies.go:122-127 | The cut of a valid text is its longest valid prefix of at most that many bytes |
| Utf8.RuneOfScalar | ebpftracer/l7/bodies.go:107-127 | The UTF-8 bytes of every character, section 3 of RFC 3629, are a well-formed sequence |
| Utf8.ScalarOfRune | ebpftracer/l7/bodies.go:107-127 | Every well-formed sequence is the UTF-8 bytes of a character, so validity is that of RFC 3629 |
| Http1Parser.BodiesRefinePlain | ebpftracer/l7/http1_parser.go:190-345 | For every sequence of events and flushes, what the parser with bodies has returned followed by what it holds is, in method, path, status and duration, what the parser without bodies has returned; a pending request and a held response never coexist |
| Http1Parser.BlockEndIsFirst | ebpftracer/l7/http1_parser.go:337-339 | A response found in data is cut at the first end of a header block |
| Http1Parser.ElapsedIsTheDifference | ebpftracer/l7/http1_parser.go:257 | Durations are differences of 64-bit counters, also when the later event carries the smaller time |
| Http1EndToEnd.NoBodyAgrees | ebpftracer/l7/http1_parser.go:276 | Where the kernel ends a response with its headers the parser does not wait for a body |
| Http1Connection.TrimLeadingCrlf | ebpftracer/l7/http1_parser.go:177-182 | Empty lines before a block are dropped, all of them |
| Http1Connection.Parser.constructor | ebpftracer/l7/http1_parser.go:158-163 | A new parser holds nothing, and its limit is the requested one or 4096 |
| Http1Connection.Parser.Held | ebpftracer/l7/http1_parser.go:166-171 | The number of responses that are held |
| Http1Connection.Parser.FinishHeld | ebpftracer/l7/http1_parser.go:348-377 | The held exchange is handed out with its own fields and its bodies are given back |
| Http1Connection.Parser.ReleaseResponse | ebpftracer/l7/http1_parser.go:319-324 | A held response is handed out, and nothing is held afterwards |
| Http1Connection.Parser.Flush | ebpftracer/l7/http1_parser.go:307-316 | A response that was quiet for the wait, or held for five seconds, is handed out, and only then |
| Http1Connection.Parser.ClientHeaders | ebpftracer/l7/http1_parser.go:192-222 | A request block is put together over events and becomes the pending request with the time of its first byte |
| Http1Connection.Parser.ClientData | ebpftracer/l7/http1_parser.go:223-234 | Request data goes to the pending request, or to the newest response |
| Http1Connection.Parser.ServerHeaders | ebpftracer/l7/http1_parser.go:235-282 | A response block is paired with the pending request; with bodies it is held unless it has none |
| Http1Connection.Parser.BodyData | ebpftracer/l7/http1_parser.go:287-299 | Response data is collected, and a body that is complete releases its response; when that is, is Http1Bodies.DataReturnsIff |
| Http1Connection.Parser.ServerData | ebpftracer/l7/http1_parser.go:283-345 | Response data that is a response is parsed as one, and what follows its header block as data again |
| Http1Connection.Parser.ParseAt | ebpftracer/l7/http1_parser.go:190-302 | The fields after an event are the state the parser functions give, so every result about runs holds of the object |
| Http1Bodies.BodiesAreTheirOwn | ebpftracer/l7/http1_parser.go:190-377 | In every run the parser with bodies returns, input by input, exactly what a listener says that keeps all data without limits and decides by itself when an exchange is over; and it holds an exchange if and only if that goes on |
| Http1Bodies.ReturnedIsTheNewest | ebpftracer/l7/http1_parser.go:190-377 | In every run, what an input returns is one request and is the newest exchange: its method, path, status, duration and time, and its bodies cut from all the data of that request and that response |
| Http1Bodies.DataReturnsIff | ebpftracer/l7/http1_parser.go:287-299 | In every run, response data returns the held exchange if and only if its length is known and not 0 and all the data so far has that many bytes, or as many as are kept |
| Http1Bodies.FlushReturnsIff | ebpftracer/l7/http1_parser.go:307-316 | In every run, a flush returns the held exchange if and only if nothing came for the wait, or the response began at least five seconds ago |
| Http1Bodies.SizedBodyIsReturned | ebpftracer/l7/http1_parser.go:287-299 | A body of known length, cut into events anywhere, is returned once and whole, in every run in which its response has begun |
| Http1Bodies.HandleOwns | ebpftracer/l7/http1_parser.go:190-377 | Every event and flush keeps the parser, with its collectors of at most MaxBytes and its released exchanges, in step with the listener, and returns what the listener says |
| Http1Bodies.BodyIsEmptyIff | ebpftracer/l7/bodies.go:194-213 | A body is empty if and only if there was no data, it is not to be kept, or no character of it fits; it is a prefix of the data of at most MaxBytes |
| Http1Bodies.CutOfValidBody | ebpftracer/l7/bodies.go:122-127 | A captured body stays valid UTF-8 when the whole body was, even if the capture ended inside a character |
| Http1Lines.EmptyLinesAreDropped | ebpftracer/l7/http1_parser.go:177-182 | All empty lines before a header block are dropped, however many, and nothing else is |
| Http1Lines.RequestLineIff | ebpftracer/l7/http1_parser.go:379-394 | Whatever a header block is, it is a request with that method and path if and only if its first line is one of the nine methods, a space, and the path up to the next space or the end |
| Http1Lines.IntegerIff | ebpftracer/l7/http1_parser.go:405-409 | A number is read if and only if it is decimal digits with at most one sign and fits 64 bits, and it is read as what it says |
| Http1Lines.StatusLineIsRead | ebpftracer/l7/http1_parser.go:396-411 | A header block whose first line begins with HTTP/, has a space and then a number up to the next space or the end is a response with that status |
| Http1Lines.StatusLineAnswers | ebpftracer/l7/http1_parser.go:396-411 | And no other block is a response |
| Http1Pairing.PlainParserSees | ebpftracer/l7/http1_parser.go:190-302 | What the plain parser returns does not depend on times, nor on flushes between events |
| Http1Pairing.WholeBlock | ebpftracer/l7/http1_parser.go:192-222 | However a header block was cut into events, the parser acts on it once, on all of it, and its buffer is empty again |
| Http1Pairing.BlockIsWhole | ebpftracer/l7/http1_parser.go:201 | What the kernel takes for the end of a block and what the user side takes for it are the same |
| Http1Pairing.RequestLineIsRead | ebpftracer/l7/http1_parser.go:379-394 | The method and the path of a request line are read back |
| Http1Pairing.StatusLineIsRead | ebpftracer/l7/http1_parser.go:396-411 | The status of a status line is read back |
| Http1Pairing.TrailerIsNoRequest | ebpftracer/l7/http1_parser.go:379-394 | A trailer section is never taken for a request |
| Http1EndToEnd.QueryWalk | ebpftracer/ebpf/l7/http1.c:722-966 | A request of any framing, walked from a clean state, gives its header block and its body, and leaves a clean state and the HEAD flag |
| Http1EndToEnd.ReplyWalk | ebpftracer/ebpf/l7/http1.c:722-966 | The same for a final response, with the rules for HEAD, 204 and 304 |
| Http1EndToEnd.InterimWalk | ebpftracer/ebpf/l7/http1.c:861-871 | An interim response ends with its header block, whatever its fields declare, and uses up the entry for a HEAD request |
| Http1EndToEnd.CloseDelimitedWalk | ebpftracer/ebpf/l7/http1.c:877-893 | A final response that declares neither a length nor chunked, is not 204 or 304 and does not answer a HEAD: whatever follows its header block, the first 4096 bytes of it are captured as data and the body is never over |
| Http1EndToEnd.QuerySeen | ebpftracer/l7/http1_parser.go:192-234 | The parser fed the events of a request waits with its method and path, and with nothing else |
| Http1EndToEnd.ReplySeen | ebpftracer/l7/http1_parser.go:235-302 | The parser fed the events of a response returns the waiting request with its status |
| Http1Conversation.MessageRoundsSuffice | ebpftracer/ebpf/l7/http1.c:27-37 | A buffer that holds only part of one message, or all of it, never runs out of rounds |
| Http1Conversation.LogsSayAll | ebpftracer/ebpf/l7/http1.c:722-966 | However a stream is cut into buffers, the events of all buffers together carry the output of the automaton on the whole stream |
| Http1Conversation.CutShowsInLog | ebpftracer/ebpf/l7/http1.c:856-860 | The parser sees the line end of an empty trailer section cut in two if and only if the last buffer of the message is its line feed alone |
| Http1Conversation.TurnWalk | ebpftracer/ebpf/l7/http1.c:844-856 | Over an exchange the entry in http1_head_requests that the request leaves says exactly whether it was a HEAD, the response uses it up, and both directions wait for a header block again |
| Http1Conversation.EveryExchangeIsReported | ebpftracer/l7/http1_parser.go:190-302 | End to end: for every conversation of requests and final responses with sized, absent or chunked bodies and header blocks of at most 4096 bytes, for every cut into buffers that does not split the line end of an empty trailer section before a later exchange, and in every order of the buffers in which a response starts after the header block of its request, the plain parser returns exactly method, path and status of each exchange, in order |
| Http1Order.OrderDoesNotMatter | ebpftracer/l7/http1_parser.go:144-148 | A request may be answered before it is fully sent: in whatever order the buffers of both directions come, the parser ends up where it would with the request first |
| Http1Conversation.TurnInOrder | ebpftracer/l7/http1_parser.go:144-148 | That holds of every exchange whose response starts after the header block of its request |
| Http1Conversation.EveryExchangeIsReportedOrHeld | ebpftracer/l7/http1_parser.go:190-345 | The same with bodies kept: what is returned followed by what is held |
| Http1CutTrailer.BlockAfterCutIsDropped | ebpftracer/l7/http1_parser.go:173-202 | What such a cut costs: the next header block in that direction, of any length up to 4096 bytes, is dropped; the buffer is clean after it if and only if the block has at most 4094 bytes or its last event is more than a line feed, and otherwise a line feed or a line end is left over again |
| Http1CutTrailer.CutRequestLosesAnExchange | ebpftracer/l7/http1_parser.go:192-222 | For every conversation: if the trailer of a request is cut like that and another exchange follows, there are fewer answers than exchanges, whatever else happens |
| Http1CutTrailer.CutRequestIsNotReported | ebpftracer/l7/http1_parser.go:190-345 | The same of the parser with bodies or without, counting what it holds |
| Http1CutTrailer.CutResponseLosesAnExchange | ebpftracer/l7/http1_parser.go:235-302 | The first cut, if in a response, costs the answer of the next exchange, unless data of its response begins like a response or its trailer like a status line |
| Http1CutTrailer.ReportedIffNoTrailerCut | ebpftracer/l7/http1_parser.go:190-345 | The exact condition, with bodies (counting what is held) and without: where no response has such data, every exchange is reported if and only if no line end of an empty trailer section is cut before the last exchange |
| Http1CutTrailer.OnlyItselfIsQuiet | ebpftracer/l7/http1_parser.go:283-286 | A condition on the response alone: if the data that is captured does not hold the bytes HTTP/1. anywhere, and its first trailer field is no status line, no event of it looks like a response, wherever it is cut |
| Http1CutTrailer.SomeRequestIsCut | ebpftracer/l7/http1_parser.go:173-182 | There are such exchanges: a chunked request without data whose last byte is a buffer of its own |
| Http1Agent.Agent.constructor | ebpftracer/l7/http1_parser.go:158-163 | A walker and a parser for a new connection |
| Http1Agent.Agent.OnBuffer | ebpftracer/ebpf/l7/http1.c:722-966 | A buffer is walked to its end and its events are parsed, at any times, with flushes at any times |
| Http1Agent.Agent.OnWrite | ebpftracer/ebpf/l7/http1.c:722-966 | A buffer of the request is walked to its end and leaves the walker where the automaton on the whole request would be, even when the response has already used the entry for HEAD requests |
| Http1Agent.Agent.OnRead | ebpftracer/ebpf/l7/http1.c:844-856 | A buffer of the response is walked to its end with the entry its request made |
| Http1Agent.HeadIsIgnored | ebpftracer/ebpf/l7/http1.c:844-856 | The walk of a request does not depend on the entry for HEAD requests: state and output are the same, and the entry passes or is replaced |
| Http1Agent.Agent.OnTurn | ebpftracer/l7/http1_parser.go:190-302 | A request and its response through walker and parser, buffer by buffer in their order, leave the kernel side ready for the next exchange |
| Http1Agent.Agent.Observe | ebpftracer/l7/http1_parser.go:190-345 | The code end to end: one walker and one parser over the buffers of a conversation report method, path and status of each exchange, in order, with bodies or without, if no trailer is cut before the last exchange; not if one is, of a request or of a response, where no response holds another; and fewer exchanges than there were whenever that of a request is |
| Http2Frames.ParseFrames | ebpftracer/l7/http2.go:170-252 | One event is the byte automaton of frames on its bytes: same frames, same DATA bytes, in order; what is kept is at most one of a partial header, a partial frame and a DATA frame; only a cut frame that is longer than 1024 bytes and not passed on is given up. That the automaton reads the frames a sender wrote is CutsShowIffInLong |
| Http2Frames.DecodeReads | ebpftracer/l7/http2.go:210-215 | Length, type, flags and stream of a frame header are read back from the nine bytes a sender writes, section 4.1 of RFC 7540, whatever the reserved bit is |
| Http2Frames.FrameLoop | ebpftracer/l7/http2.go:203-252 | The loop over the frames of an event, from a frame boundary |
| Http2Frames.GivenUpIffInLong | ebpftracer/l7/http2.go:239-245 | After any number of bytes of any frames, of any lengths, what is kept is given up at the end of an event if and only if the event ends inside the body of a frame that is put together and is longer than 1024 bytes |
| Http2Frames.CutsShowIffInLong | ebpftracer/l7/http2.go:170-252 | The exact condition, for frames of any lengths and every cut into events: event by event the parser is where the whole bytes would have it if and only if no event ends inside such a long frame; and then the same is done for every frame, in order, and nothing is left over |
| Http2Frames.EveryCutFramesAlike | ebpftracer/l7/http2.go:135-252 | The same after a connection preface: no event ends inside a long frame, and every frame is handled as if it came whole |
| Http2Frames.ShortFramesCanBeCut | ebpftracer/l7/http2.go:239-245 | So frames of which none is long can be cut anywhere |
| Http2Frames.CutLongFrameIsLost | ebpftracer/l7/http2.go:239-245 | The first event that ends inside a long frame: everything before that frame was handled, the frame is given up, and the rest of it will be read as a frame header |
| Http2Frames.PrefaceInDataIsLost | ebpftracer/l7/http2.go:136-141 | So is the condition on the preface: request data that is the preface, at the start of an event, is taken out of the data |
| Http2Streams.BlockKeeps | ebpftracer/l7/http2.go:297-305 | A header block opens a stream or notes its response, and keeps what is in flight and what is held consistent |
| Http2Streams.CompleteKeeps | ebpftracer/l7/http2.go:343-379 | At the end of a call everything answered and ended is returned, once, nothing answered and ended stays in flight, and what is held is what has an answer |
| Http2Streams.ReplyKeeps | ebpftracer/l7/http2.go:259-274 | Without bodies every stream with a status is returned once and is not in flight any more |
| Http2Streams.GcKeeps | ebpftracer/l7/http2.go:281-293 | Dropping old streams keeps what is held the streams in flight that have an answer |
| Http2Streams.FlushKeeps | ebpftracer/l7/http2.go:384-395 | Flushing returns held streams, once each, and keeps everything consistent |
| Http2Streams.ParseKeeps | ebpftracer/l7/http2.go:135-279 | A call returns only streams that were never returned before, each once, and keeps the invariant |
| Http2Streams.EveryRunKeeps | ebpftracer/l7/http2.go:135-412 | Over every run of events in both directions and flushes the invariant holds and the streams returned by different calls are different |
| Http2Streams.StreamsAreReturnedOnce | ebpftracer/l7/http2.go:332-412 | In every run a stream is returned at most once and never in flight again; what is held is exactly what is in flight with an answer; with bodies nothing in flight is both answered and ended |
| Http2Streams.ApplyFlat | ebpftracer/l7/http2.go:307-330 | Where a DATA frame is cut makes no difference to its stream |
| Http2Connection.Parser.constructor | ebpftracer/l7/http2.go:104-124 | A new parser has nothing in flight and nothing held |
| Http2Connection.Parser.HandleHeaders | ebpftracer/l7/http2.go:414-466 | Decoding a block field by field gives the stream and the statuses the specification gives |
| Http2Connection.Parser.ReadRequest | ebpftracer/l7/http2.go:425-443 | The first valid method, path and scheme of a request count, and its body headers |
| Http2Connection.Parser.ReadResponse | ebpftracer/l7/http2.go:445-461 | Field by field: the last status and gRPC status count for the event, the status is 0 if there is none, and the body headers are noted until the stream is answered |
| Http2Connection.Parser.AppendBytes | ebpftracer/l7/http2.go:307-330 | DATA goes to the stream its frame was opened on, if that is known, in the direction it came in |
| Http2Connection.Parser.ApplyAct | ebpftracer/l7/http2.go:170-252 | What a frame or a part of it does to the streams |
| Http2Connection.Parser.TakeAnswers | ebpftracer/l7/http2.go:344-371 | Every stream with a status gets its final answer once, in whatever order the map is visited |
| Http2Connection.Parser.FinishAll | ebpftracer/l7/http2.go:373-412 | These streams are returned, each once, and leave both maps |
| Http2Connection.Parser.Complete | ebpftracer/l7/http2.go:343-379 | The end of a call with bodies |
| Http2Connection.Parser.ReplyNow | ebpftracer/l7/http2.go:259-274 | The end of a call without bodies |
| Http2Connection.Parser.CollectOld | ebpftracer/l7/http2.go:281-293 | Streams older than ten minutes are dropped, at most every ten minutes |
| Http2Connection.Parser.Flush | ebpftracer/l7/http2.go:384-395 | What was quiet long enough and has no DATA due is returned, and was not returned before |
| Http2Connection.Parser.ParseAt | ebpftracer/l7/http2.go:135-279 | The object after a call is the state the specification gives, and what it returns was not returned before |
| Http2Exchange.ActSeen | ebpftracer/l7/http2.go:170-252 | A frame, or a part of it, does to one stream what it does in a parser of that stream alone, and nothing if it is of another stream |
| Http2Exchange.CompleteSeen | ebpftracer/l7/http2.go:343-379 | At the end of a call one stream stays or is returned as it would be alone |
| Http2Exchange.StreamsDoNotInterfere | ebpftracer/l7/http2.go:135-279 | In every call, what is known of a stream and the request returned for it are what a parser of that stream alone would know and return, however the frames of all streams come in turns |
| Http2Exchange.FlushesDoNotInterfere | ebpftracer/l7/http2.go:384-395 | The same for a flush |
| Http2Exchange.RequestIsTheFirstValid | ebpftracer/l7/http2.go:425-443 | The method, path and scheme of a request are the first acceptable ones of all fields its stream was sent, over any number of blocks, and its body headers the last length and the first type and encoding |
| Http2Exchange.ResponseFieldsAdd | ebpftracer/l7/http2.go:449-452 | The body headers of a response are the last length and the first type and encoding of all fields it was sent before it was answered |
| Http2Exchange.BodiesAreOwnData | ebpftracer/l7/http2.go:307-330 | In one call the body collected for a stream grows by its own DATA, without padded frames, in either direction, and by nothing else |
| Http2Exchange.ReturnedIffAnsweredAndEnded | ebpftracer/l7/http2.go:343-379 | With bodies, a call with server frames returns a stream if and only if it has a final status, from before or from this event, and its response has ended, before or in this event |
| Http2Exchange.ReturnedIsItsOwn | ebpftracer/l7/http2.go:343-412 | A request returned by a call has the method, path and scheme of its stream, the status, gRPC status and duration of the event that answered it, and for bodies cuts of what was collected before and in this call, each of its own direction |
| Http2Exchange.PlainAnswersWithTheEvent | ebpftracer/l7/http2.go:253-279 | Without bodies a stream is returned by the first event with a header block of its response, with the last status and gRPC status of that event, and is forgotten |
| Http2Exchange.PlainCutShowsIff | ebpftracer/l7/http2.go:253-279 | Without bodies, frames of a response in two events instead of one give another answer if and only if the second event would have changed the status or the gRPC status |
| Http2Bodies.HandleHolds | ebpftracer/l7/http2.go:135-395 | Every call and flush keeps a stream in step with a listener that sees the inputs alone and keeps all header fields and all DATA of the stream since it was opened, and returns what the listener says |
| Http2Bodies.FlagBits | ebpftracer/l7/http2.go:297-330 | END_STREAM is the bit 0x1 of the flags and PADDED the bit 0x8, section 6.1 of RFC 7540 |
| Http2Bodies.LineGoesOn | ebpftracer/l7/http2.go:135-293 | What the frame parser, the header decoders and the time of the last collection have come to is a function of the inputs, call by call |
| Http2Bodies.ReturnedAsHeard | ebpftracer/l7/http2.go:135-412 | In every run with bodies, what a call or a flush returns for a stream is exactly what the listener says, nothing included: when it has a final status and has ended, or was quiet for the wait, or was answered five seconds ago, unless it was dropped after ten minutes; with the first acceptable method, path and scheme it was sent, its first final status, its last gRPC status, the time from its beginning to its answer, and bodies cut from all DATA it was given, each of its own direction, left out if a frame was padded |
| Http2Cuts.AnswerFollows | ebpftracer/l7/http2.go:343-371 | A header block before the answer, interim or final: noting it at the end of its event is noting it at once |
| Http2Cuts.TrailerFollows | ebpftracer/l7/http2.go:349-371 | A header block after the answer: it makes no difference whether the answer came in an earlier event or in this one |
| Http2Cuts.CallTold | ebpftracer/l7/http2.go:135-279 | A call does for a stream, times aside, what calls with one part of a frame each would do |
| Http2Cuts.RunTold | ebpftracer/l7/http2.go:135-395 | In every run with bodies, what is returned for a stream whose response has one final status, times aside, is what is told by the parts of its frames given one at a time |
| Http2Cuts.CutsDoNotShow | ebpftracer/l7/http2.go:135-395 | So in any two runs over the same parts of frames, whatever comes together in an event and whenever, a stream is returned with the same method, path, scheme, status, gRPC status and request body, and with the same response body and size if no trailer describes a body |
| Http2Cuts.EveryCutBringsTheParts | ebpftracer/l7/http2.go:170-252 | However the frames of one side are cut into events, if no event ends inside a long frame the run brings the parts of those frames, in order |
| Prune.CutIsLongest | profiling/prune.go:69-81 | A stack is cut to the longest part, from its root, whose nodes all reach a threshold |
| Prune.CutEndsAtTheLastThatCounts | profiling/prune.go:69-81 | With values that are not negative, that is the longest part that ends in a node that reaches a threshold |
| Prune.MergeWeighs | profiling/prune.go:90-98 | Merging samples changes the weight of no node |
| Prune.CutWeighs | profiling/prune.go:79-81 | Cutting stacks changes the weight of no node that is kept, and no total |
| Prune.PruningConserves | profiling/prune.go:9-99 | Every total of the profile is what it was |
| Prune.MergeGroups | profiling/prune.go:82-98 | Samples without labels are merged exactly when their stacks are the same: each stack has at most one such sample, with the sum of all there were; labelled samples are left alone, in order |
| Prune.PruningIsIdempotent | profiling/prune.go:9-133 | Pruning what has been pruned changes nothing, tables included |
| Prune.UsedEntriesStay | profiling/prune.go:101-132 | Locations and functions of the stacks that are left stay in their tables |
| Prune.TableIsTheUsedLocations | profiling/prune.go:116-125 | With unique ids the locations left are exactly the used ones, also where the code compares two counts and returns early |
| Prune.TableIsTheUsedFunctions | profiling/prune.go:101-132 | The functions left are exactly those of used locations, unless every location is used |
| Prune.FilterConcat | profiling/prune.go:119-132 | What is left of a table is left in its order |
| PruneShares.KeptIffItCarriesItsShare | profiling/prune.go:9-81 | The profile is left as it is if there are no samples, dimensions or shares; else a node is in the pruned profile if and only if it was in the profile and it and every node on its way from the root carry, in some dimension, at least the share of the sum of that dimension over all samples |
| PruneShares.CutIs | profiling/prune.go:69-81 | A stack is cut at its first node, from the root, that does not carry its share |
| PruneShares.PrunedIsGrouped | profiling/prune.go:65-99 | The samples of the pruned profile are the cut ones, merged where they have no labels and one stack, with sums for values, and as they were and in order where they have labels |
| PruneShares.PrunedIsTidy | profiling/prune.go:101-133 | Its tables are those of the samples that are left |
| PruneCode.AppendUvarint | profiling/prune.go:88 | The varint loop appends the varint of a number |
| PruneCode.KeyIsInjective | profiling/prune.go:86-89 | Two stacks have the same key only if they are the same |
| PruneCode.ComputeThresholds | profiling/prune.go:18-35 | The loops over samples and dimensions compute the thresholds, and whether any is positive |
| PruneCode.Insert | profiling/prune.go:42-55 | Adding a sample to the trie adds its values to the nodes on its way and to no other |
| PruneCode.BuildTrie | profiling/prune.go:37-55 | Every node of the trie holds the weight of the samples below it, and every node of a stack is there |
| PruneCode.IsSignificant | profiling/prune.go:56-63 | A node counts if some dimension with a positive threshold reaches it |
| PruneCode.KeepOf | profiling/prune.go:69-78 | Walking down the trie gives the length of the cut |
| PruneCode.KeyFinds | profiling/prune.go:86-96 | Looking up a key finds what comparing stacks would find |
| PruneCode.MergeSamples | profiling/prune.go:65-99 | The loop over the samples computes the cut and merged samples |
| PruneCode.UsedTables | profiling/prune.go:101-115 | The used locations and functions |
| PruneCode.PruneProfile | profiling/prune.go:9-134 | The whole function computes what pruning means, early returns included |
| WriteReplay.WalkedOnceIffRetried | ebpftracer/ebpf/l7/l7.c:516-554 | After a short, blocked or failed write, the next call is walked exactly once if and only if nothing is unsent, or it offers the unsent bytes again, from the same place, within 30 s, and at least all of them (a vectored write: exactly them) |
| WriteReplay.TracksAgainIff | ebpftracer/ebpf/l7/l7.c:425-459 | After a call that retried so, whatever it returned, the entry is exactly what was walked and not sent, its place and its time, if and only if the call was not a short vectored write |
| WriteReplay.ShortVectoredIsWalkedAgain | ebpftracer/ebpf/l7/l7.c:425-459 | After a short vectored write whatever comes next is walked in full, the part that was walked already included |
| WriteReplay.EveryByteIsWalkedOnce | ebpftracer/ebpf/l7/l7.c:377-384 | Over every run of full, short, blocked and failed writes that retry so, the bytes walked are the bytes sent or given up and then the bytes to be sent, each once and in order |
| WriteReplay.Tracer.constructor | ebpftracer/ebpf/l7/l7.c:385-413 | Nothing is walked and nothing is due |
| WriteReplay.Tracer.EnterWrite | ebpftracer/ebpf/l7/l7.c:516-554 | What is walked at the entry of a call, and the call that is noted |
| WriteReplay.Tracer.ExitWrite | ebpftracer/ebpf/l7/l7.c:425-459 | What is left behind at the exit of a call; that it is the bytes walked and not sent is TracksAgainIff |
| WriteReplay.Tracer.Trace | ebpftracer/ebpf/l7/l7.c:425-554 | Both ends of a call together are one step of the specification |
| ConnectionTable.StampsTellApart | ebpftracer/ebpf/tcp/state.c:34-42 | Two stamps are equal if and only if the connections fall into one step of 4096 ns with numbers a multiple of 4096 apart; a stamp is behind the clock, by less than 8192 ns |
| Connections.StepKeeps | containers/container.go:824-842 | Opens, closes and both collections keep every connection indexed under what it is and every stamped owner of an fd under its stamp |
| Connections.EventsFindTheirOwn | containers/container.go:997-1034 | A stamped event is observed on the connection with exactly its process, fd and stamp, or on none |
| Connections.FoundUntilForgotten | containers/container.go:997-1034 | In every run with distinct stamps, an event with the stamp of a connection finds that connection until a collection forgets it, even after its fd or its addresses were used again, and nothing afterwards |
| Connections.GcForgetsExactlyTheExpired | containers/closed_connections.go:32-67 | The two passes together forget exactly what is tracked and closed for longer than the grace period, from all three indexes, and close exactly what has lost its address |
| Connections.NothingExpiredIsLeft | containers/closed_connections.go:32-67 | Nothing tracked has been closed for longer than the grace period afterwards, and what has lost its address is closed |
| Connections.TheRestStays | containers/closed_connections.go:32-67 | Everything else keeps all its entries |
| Connections.UnstampedIsNotCollected | containers/closed_connections.go:46-64 | An entry by fd survives collection if and only if its connection is not closed for too long or is in neither of the other two indexes: a connection without a stamp that lost its addresses is never collected |
| Connections.ExpiredConnectionStays | containers/closed_connections.go:46-64 | That is reached: for any address, two fds and times there is a run of two opens, a close and a collection that leaves a connection closed for longer than the grace period behind its fd |
| Connections.GcIsForget | containers/container.go:1654-1677 | Deleting the entry of a stamp without looking whose it is deletes the own entry of the connection |
| Connections.OpenConnectionsOwnTheirFd | containers/container.go:833-838 | In every run a tracked connection that is open owns its fd, so no two open ones share one |
| ConnectionLife.ClosedAsTheEventsSay | containers/container.go:824-896 | In every run, by the events alone and for every connection, stamped or not, that nothing has dropped: it is open, or closed at the time the events say; it owns its fd until that is used again and its addresses until they are taken; and it is found by its stamp |
| ConnectionLife.OpenIffNothingEndedIt | containers/container.go:833-896 | It is open if and only if there was no close of its fd with its stamp (or none), no other open of its fd and, if it has a stamp, no collection after its addresses were taken |
| ConnectionLife.ClosedAtTheFirst | containers/container.go:833-896 | Its closing time is that of the first such event, or that of the first open of its fd if there was one, which sets it again |
| ConnectionLife.ReopenClosesAgain | containers/container.go:833-838 | A run in which it is set again: an open, a close and an open on the same fd, for any times |
| ConnectionLife.FoundUntilDropped | containers/container.go:997-1034 | An event with its stamp finds it until a collection more than five seconds after its closing time, or a sweep that finds it with its addresses and not established or closed for longer than the interval; and nothing afterwards, whatever opens and closes come |
| ConnectionLife.FoundByItsFd | containers/container.go:997-1034 | An event without a stamp finds it if and only if its fd was not used again |
| ConnectionTable.Indexes.constructor | containers/container.go:257-259 | No connections |
| ConnectionTable.Indexes.OnOpen | containers/container.go:824-842 | A new connection takes over its fd and its addresses, and the owner of the fd is closed |
| ConnectionTable.Indexes.OnClose | containers/container.go:881-896 | A close with another stamp is ignored, and a connection is closed once; over runs, ConnectionLife.ClosedAsTheEventsSay |
| ConnectionTable.Indexes.Find | containers/container.go:997-1034 | The lookup of an outbound event |
| ConnectionTable.Indexes.ForgetConnection | containers/closed_connections.go:72-87 | A connection leaves all its indexes, and entries that belong to others stay |
| ConnectionTable.Indexes.CollectAddressed | containers/closed_connections.go:35-46 | The first pass forgets what has expired and counts the rest, in whatever order the map is visited |
| ConnectionTable.Indexes.CollectAllLost | containers/closed_connections.go:51-64 | The second pass closes, counts and forgets what has lost its address |
| ConnectionTable.Indexes.CollectClosed | containers/closed_connections.go:32-67 | What is returned counts what is left: the open ones, and together with the closed ones all distinct connections in the two indexes |
| ConnectionTable.Indexes.Sweep | containers/container.go:1654-1677 | What is not established, or was closed long ago, is dropped |
| Uprobes.StepKeeps | ebpftracer/tracer.go:218-274 | Whoever takes a step, the count of a uprobe is the number of its keys that are in hand, with a process or on their way back, no key is left with a closed process, and a link is closed at most once |
| Uprobes.EveryRunKeeps | ebpftracer/tracer.go:218-274 | The same in every state of every interleaving of acquiring, handing over, closing and releasing |
| Uprobes.StepMovesKeys | containers/process.go:286-308 | A key given to a process is with it or on its way back, Close sends everything owned on its way, and a release takes exactly what one AddUprobeKey or Close handed out |
| Uprobes.KeysAreReturnedOnce | containers/process.go:286-308 | In every state of every run and for every key: the count of the tracer is the number of keys out, and the key was acquired as often as it is counted and was released |
| Uprobes.NothingIsLeftBehind | containers/process.go:297-308 | When all processes are closed and nothing is under way, every key has been released as often as it was acquired and no uprobe counts as used |
| Uprobes.HeldLinksStayOpen | ebpftracer/tracer.go:262-274 | In every run the links of a key that is out are not closed within five minutes, whatever happens to it after that |
| UprobeLife.ProcessesHaveWhatTheyWereGiven | containers/process.go:286-308 | In every run a process that was not closed has exactly the keys it was given, in order, and a closed one none |
| UprobeLife.ClosingGivesBack | containers/process.go:286-308 | Closing a process sends exactly what it was given back, and a key given to it later goes back at once |
| UprobeLife.AcquireSucceedsIff | ebpftracer/tracer.go:218-239 | A uprobe is handed out if and only if it can be attached, or is in use, or was within the last five minutes |
| UprobeLife.IdleIsDetached | ebpftracer/tracer.go:262-274 | In every run, a uprobe nobody has used for five minutes is detached and its link closed by the next acquire or release |
| Uprobes.SharedUprobes.constructor | ebpftracer/tracer.go:218-237 | No uprobes |
| Uprobes.SharedUprobes.DetachIdleUprobes | ebpftracer/tracer.go:264-274 | Exactly the uprobes without users for five minutes are detached, and their links closed once |
| Uprobes.SharedUprobes.AcquireUprobe | ebpftracer/tracer.go:218-239 | A uprobe is attached or counted, after the idle ones are gone |
| Uprobes.SharedUprobes.ReleaseUprobes | ebpftracer/tracer.go:245-260 | Each key is counted down, and the time of the last use is noted |
| Uprobes.Process.constructor | containers/process.go:286-295 | A new process owns no keys |
| Uprobes.Process.AddUprobeKey | containers/process.go:286-295 | The step AddKey of the system: a key is owned, or given back if the process is closed |
| Uprobes.Process.Close | containers/process.go:297-308 | The step Shut of the system: what was owned is given back, and nothing is owned afterwards |
| QueueBudget.StepKeeps | tracing/queue_budget.go:35-57 | Ending, queueing, batching and exporting keep the reserved bytes and spans those of the spans on their way, within both limits |
| QueueBudget.BudgetIsExact | tracing/queue_budget.go:35-132 | In every run the reserved bytes are the sizes of the spans not yet exported, within the limits, zero when there are none, and an SDK queue of maxSpans never has to drop a reserved span |
| QueueBudget.TakenIffThereIsRoom | tracing/queue_budget.go:35-46 | In every run a sampled span is taken if and only if the spans on their way leave room for one more and for its size, and is counted as dropped otherwise |
| QueueBudget.EverySpanIsAccountedFor | tracing/queue_budget.go:35-132 | In every run every sampled span that ended is on its way, exported or counted as dropped |
| QueueBudget.Budget.constructor | tracing/queue_budget.go:31-33 | Nothing is reserved |
| QueueBudget.Budget.Reserve | tracing/queue_budget.go:35-46 | A span is reserved if both limits allow it, and dropped and counted otherwise |
| QueueBudget.Budget.Release | tracing/queue_budget.go:48-57 | The sizes and the number of the exported spans are given back |
| QueueBudget.SizeOfSpan | tracing/queue_budget.go:65-72 | The loop adds up the overhead, the name, the attributes and the names and attributes of the events |
| QueueBudget.SizeOfAttributes | tracing/queue_budget.go:74-96 | The loops add up the keys and the values, by their types |
| QueueBudget.SizeCountsEveryBody | tracing/queue_budget.go:65-96 | Every attribute, a captured body included, is in the size of its span with its key and its value |
| QueueBudget.SizeIsTheSum | tracing/queue_budget.go:65-72 | A span counts 512 bytes, its name, the keys and values of its attributes, and the names, keys and values of its events |
| QueueBudget.ValueIsTheSum | tracing/queue_budget.go:74-96 | A value counts the sum of its widths: a byte for each byte of a string or flag of a list, 8 for each number and for any other value |

## Left out

- Http1Conversation.EveryExchangeIsReported: a response that starts before the header block of its request is complete is not covered.
- Http1CutTrailer.ReportedIffNoTrailerCut: where data of a response begins with "HTTP/1." or its trailer with "HTTP/", the condition is sufficient and not always necessary, because such data can be taken for the response that was dropped.
- Http2Exchange.BodiesAreOwnData: one call; over whole runs it is `Http2Bodies.ReturnedAsHeard`.
- Http2Exchange.ReturnedIsItsOwn: one call; over whole runs it is `Http2Bodies.ReturnedAsHeard`, and that calls do not matter `Http2Cuts.CutsDoNotShow`.
- Http2Cuts.CutsDoNotShow: the two runs have the parts of frames of both sides in the same order, last less than ten minutes, release the stream by no flush, and decode a header block alike whether or not the event before it ended; with a second final status or a gRPC status in an interim response it does show which frames come together.
- Http1Walk.Walker.WalkBuffer: buffers above 2^20 bytes are not covered, the bound of the header loop.
- RingBuffer.NextRecord: no producer acts between its reads; `RingSystem` is where they do.
- RingBuffer.Drain: stops where the loop of run would sleep and look again; with producers the loop is `RingSystem.System.Step`.
- Uprobes.HeldLinksStayOpen: before the tracer itself is closed, which closes every link.
- PruneCode.PruneProfile: a nil profile, which is returned as it is, and locations that share an id, which a valid profile does not have.
- Responses with interim status, pipelined requests, bodies that end with the connection and encodings such as "gzip, chunked" in the end-to-end result for HTTP/1: the code does not pair them. What the kernel side makes of the first, the third and the fourth is `Http1EndToEnd.InterimWalk`, `Http1EndToEnd.CloseDelimitedWalk` and `Http1Fields.ScanReadsFields`.
- The iovec helpers and block reads of http1.c: a buffer is contiguous here. Reads of the application's memory that fail, and retries of them.
- Eviction of entries of BPF maps, and the ordering of memory accesses by the CPU; a record that a full ring drops is not an event.
- The positions of a ring as 64-bit numbers that wrap around, and the mask: a position is taken modulo the size.
- The frame walker http2.c, which cuts frames to fit the limits of the verifier in the kernel.
- HPACK, parseHttp1Headers, Decide and looksLikeText: parameters of the model.
- Counters (BodyStats, Http1Stats, spans exported and failed), and the map of body holders.
- Rebuilding the connection maps to give memory back: it changes no entry.
- Traffic statistics, DNS and the inbound side of a container, and everything a connection holds besides its identity.
- TLS write paths and rustls plain text in the write replay; several threads writing to one connection.
- Overflow of 64-bit sums in a profile, and samples whose values are not as many as the sample types.
- The other protocols (Postgres, MySQL, Redis, Memcached, Mongo, Zookeeper, DNS, ClickHouse, FoundationDB): long lists of fields, branch by branch.
- Container discovery, cgroups, /proc, runtime clients, cloud metadata, GPU, JVM, .NET, journald, log tailing, metrics: input and output.
