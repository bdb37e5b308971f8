# hwnet verified

A Dafny model of the parts of hwnet, a C++ network library with a bundled
hiredis and http_parser, in which correctness spans many steps: two resumable
parsers, a socket whose worker races with user threads and a poller, a timer
heap and its scheduler, and the queues and tables behind the asynchronous Redis
client. `dafny verify dfyconfig.toml` checks the whole project.

**RESP.** `RespGrammar` is a recursive-descent parser for a whole stream, with
the leniencies of `read.c`: the two bytes behind a bulk payload are not looked
at, a malformed length reads as -1, and an array header is refused at depth 8
before its count is read. `RespReader` is the task-stack reader that can stop at
any byte; its main theorem is `FeedAll`. `RespEncode` is the protocol from the
sender's side: how every reply tree is written, and that it is read back as itself.
`RespFormat` has the command formatters
and `nextArgument`, with print and parse round trips over the same bytes.
`RespCommand` is `redisvFormatCommand`: which arguments a format string and its
values make. `RespPipeline` sends written replies and commands, cut anywhere,
through the reader.

**HTTP.** `HttpSyntax`, `HttpMachine` and `HttpExecute` are `http_parser_execute`:
one pass through its switch is a function, and the class `HttpParser` runs the
loop with marks, jumps back to the same byte, and bulk body steps. `HttpSplit`
and `HttpBatch` prove that a call on a buffer is the calls on its bytes, hence
that buffers can be cut anywhere; callback traces are compared with adjacent
data callbacks merged and empty ones dropped. `HttpInvariant` shows that no
assertion in the code can fail. `HttpBody` and `HttpChunked` say what reaches
`on_body`. `HttpUrl` is the grammar of the URLs that are taken. `HttpRequestLine`,
`HttpStatusLine` and `HttpHeaders` follow one call over a printed header; `HttpHead`
reads off the text of that header what frames the body and whether another message
may follow, and proves that the parser does as it says. `HttpPacket` and
`HttpRoundTrip` print a request or a response, parse it and rebuild the packet.
`HttpMessage` puts headers and bodies together to streams of messages, for any
division into calls. `HttpLeniency` is what the parser forgives: bare line feeds,
empty lines, folded values, short first lines.

**Sockets.** `SocketModel` interleaves user threads, a pool worker and the poller
thread, step by step, with `writev` and `read` outside the lock; `SocketProofs`
proves what every step keeps and what follows for every run. `SendList` is the
linked list of send contexts, `SocketClass` the locked methods; both refine the
functions of `SocketModel`. `SocketHistory` and `SocketProgress` say in terms of the
steps of a run which sends are accepted, when a flush or an error closes the socket,
in which order buffers are filled, and when a worker stops. `PollerModel` is adding and removing channels while
a batch of raw pointers is dispatched.

**Timers.** `HeapOrder` and `TimerHeap` are the indexed heap with back-pointers
and the scheduler that re-arms timers in its own loop. `TimerCancel` interleaves
`cancel` with the scheduler over the status word.

**Redis client.** `RedisQueue` and `RedisConn` are the callback queue of
`async.c` together with the queue of functions that `RedisConn` keeps beside it.
`RedisControl` says what each call and event does to the state that decides when
the context ends; the class refines it. `RedisDrain` says when a connection that is
being closed ends, by counting the commands unanswered and unsent.
`DictTable`, `Dict` and `DictIteration` are the chained hash table and its
iterator. `SdsQuote` and `SdsSplit` are quoting, splitting and joining; `SdsWords`
is how lines are written for `sdssplitargs`, and which it refuses.

## What turned out otherwise

- Canceling a timer does not always stop it. `Schedule` claims the status word
  before it releases the lock and calls the callback; a cancel in between returns
  `doing_callback_in_other_thread`, and the callback begins afterwards
  (`TimerCancel.CancelTooLate`). A cancel is sure to stop its timer if and only if
  it is called on the scheduler's thread (`CancelStopsExactly`). From elsewhere the
  result tells: all but that one mean that no callback begins any more
  (`CancelStops`).
- `Timer::cancel` may use a null manager. It changes the status word first and
  reads `mMgr` later, without a lock. `pop` resets `mMgr`, and `Schedule` resets the
  status of a periodic timer before `insert` sets `mMgr` again. So a cancel meets
  null exactly if a pop falls between its change and its read, or if its change
  falls into that re-arm window and its read too (`ManagerMetNull`; runs are
  `CancelOvertaken` and `CancelInWindow`). It cannot happen if and only if the
  cancel is called on the scheduler's thread (`ManagerFoundExactly`).
- `Poller::Enable` and `Disable` look up the descriptor, not the channel. Called
  with a stale channel whose descriptor is in use again, they leave epoll with a
  pointer that it returns when nothing holds it: at once, or after one more batch
  if the channel was just removed. It is never returned unheld if and only if it is
  the registered channel (`PollerModel.StaleModify`; `StaleCall` is a call with
  another one in a reachable state). `TCPSocket` closes its descriptor only when it is
  destroyed, and `TCPConnector` and `SSLHandshake` call neither, so they cannot hold
  such a channel; a `RedisConn` can, because it takes the descriptor from a context
  that may be gone (next point).
- `RedisConn::OnActive` calls the write handler after the read handler on the same
  context. On a connected context the write handler uses it after its end exactly if
  the event is for both and reading ends it: reading fails, or a reply is an error
  that no command waits for, or goes to a function that frees the context, or the
  replies end in an error, or with nothing pending and nothing to send while
  disconnecting. While connecting, a connect callback that ends the context, which
  it does exactly if it frees it, or disconnects with no command pending, leads there
  too. `RedisControl.DanglesExactly` is the whole condition, decided before the call;
  `DanglingRun` is a run from a new connection.
- A check that finds the socket still connecting leaves an error in the context.
  Once it has connected, the same event ends the context for that error
  (`RedisControl.ConnectingLost`).
- `redisFormatSdsCommandArgv` cuts lengths to 32 bits. Its output is that of
  `redisFormatCommandArgv` if and only if every length is below 2^32
  (`RespFormat.SdsBulksSame`). The assertion at its end, on the number of bytes
  written, misses some of the other lengths: it holds if and only if each length is
  below 2^32, or below 10^10 with a cut form of 10^9 or more
  (`RespFormat.SdsAssertion`).
- A response without a reason makes no status callback, so a session never hears its
  status code (`HttpRoundTrip.RoundTrip`). A parser for responses makes a
  message_begin callback for each empty line between messages
  (`HttpLeniency.EmptyLine`). A header value that is folded onto a second line loses
  what it said before the fold, such as chunked (`HttpLeniency.FoldForgets`).
- The comment of `sdssplitlen` promises NULL for an empty string; the code
  returns an empty array, and so does the model.

## Assumptions

- Callbacks of `http_parser` return 0 and do not pause; `HTTP_PARSER_STRICT` is 1.
- `writev` on a non-empty vector returns at least 1 or an error; version counters
  are unbounded; `SetHighWater` is called before `Start`; the thread pool is open
  and runs each posted task once.
- `Poller::Remove` is called with the channel registered under its descriptor.
- The disconnect callback of a Redis connection does nothing: `closed` is set
  before it is called, and calls of `RedisConn` are refused then. A reply that is
  not an error, for which no command waits, stops the model where the code has an
  assertion.
- Strings handed over as C strings hold no NUL; `isprint` and `isspace` are those
  of the C locale; key comparison in a dictionary is equality.

## Model

| member | source | states |
|---|---|---|
| RespGrammar.UnwindNext | src/redis/hiredis/read.c:190-213 | finishing an element and moving to the next task continues the same recursive-descent parse |
| RespGrammar.UnwindOpen | src/redis/hiredis/read.c:302-365 | opening an array turns the rest of the parse into that of its elements under one more frame |
| RespGrammar.LineLengthStable | src/redis/hiredis/read.c:120-145 | a line that is complete stays the same when more bytes arrive |
| RespReader.DenotesUnique | src/redis/hiredis/hiredis.c:102-189 | the objects built in the element arrays denote one reply tree |
| RespReader.SeekNewline | src/redis/hiredis/read.c:120-145 | the position of the first CR LF, or none if there is none |
| RespReader.ReadLongLong | src/redis/hiredis/read.c:148-173 | the number on a line, -1 for anything malformed |
| RespReader.Reader.CreateObject | src/redis/hiredis/hiredis.c:102-189 | a new object is stored in its parent's element slot and nothing else changes |
| RespReader.Reader.MoveToNextTask | src/redis/hiredis/read.c:190-213 | the tasks left are exactly the open ends of the unfinished trees |
| RespReader.Reader.ProcessLineItem | src/redis/hiredis/read.c:215-247 | a line item is read as the grammar reads it, or nothing is consumed for want of bytes |
| RespReader.Reader.ProcessBulkItem | src/redis/hiredis/read.c:249-300 | a bulk item is read as the grammar reads it, its trailing two bytes unchecked |
| RespReader.Reader.ProcessMultiBulkItem | src/redis/hiredis/read.c:302-365 | an array header opens a level, finishes an empty array, or is refused at depth 8 |
| RespReader.Reader.ProcessItem | src/redis/hiredis/read.c:367-414 | one item does to stack, tree and bytes what the grammar's continuation says |
| RespReader.Reader.Feed | src/redis/hiredis/read.c:445-475 | unread bytes grow by exactly the bytes fed, unless there is an error |
| RespReader.Reader.GetReply | src/redis/hiredis/read.c:477-525 | the next reply of the rest of the stream, or its error, or nothing yet |
| RespReader.Reader.Drain | src/redis/hiredis/read.c:477-525 | all replies that the bytes so far complete, in order |
| RespReader.Reader.FeedAll | src/redis/hiredis/read.c:190-525 | for any stream and any division into feeds, replies and final error are those of the recursive-descent parser on the whole |
| RespFormat.CountDigits | src/redis/hiredis/hiredis.c:193-204 | the length of the decimal notation |
| RespFormat.NumberOfDecimal | src/redis/hiredis/hiredis.c:193-204 | reading back a decimal notation gives the number |
| RespFormat.BulkParses | src/redis/hiredis/hiredis.c:206-208 | a printed bulk string parses to its bytes, whatever they are |
| RespFormat.CommandParses | src/redis/hiredis/hiredis.c:530-566 | a printed command parses to the array of exactly its arguments |
| RespFormat.PipelineParses | src/redis/hiredis/hiredis.c:530-566 | any number of commands one after the other parse to their arrays in order |
| RespFormat.BulkLen | src/redis/hiredis/hiredis.c:206-208 | the length of a printed bulk string |
| RespFormat.WriteCommand | src/redis/hiredis/hiredis.c:399-413 | the command's bytes, exactly as many as its length, and a NUL |
| RespFormat.FormatCommandArgv | src/redis/hiredis/hiredis.c:530-566 | the command of the arguments; the length computed beforehand is the number of bytes written |
| RespFormat.UnsignedToString | src/redis/hiredis/sds.c:461-489 | the decimal notation, by digits in reverse |
| RespFormat.FormatSdsCommandArgv | src/redis/hiredis/hiredis.c:477-519 | the command, with lengths cut to 32 bits |
| RespFormat.SdsBulksSame | src/redis/hiredis/hiredis.c:477-519 | the two formatters agree if and only if all lengths are below 2^32 |
| RespFormat.SdsAssertion | src/redis/hiredis/hiredis.c:505-519 | the assertion on the bytes written holds if and only if each length is below 2^32 or printed with ten digits before and after the cut |
| RespFormat.StrToL | src/redis/hiredis/async.c:566-578 | strtol on the length of a bulk string gives that length |
| RespFormat.NextArgument | src/redis/hiredis/async.c:566-578 | the next argument of a command and where the one after it is, even with dollar signs or CR in arguments |
| RespFormat.CollectArguments | src/redis/hiredis/async.c:566-578 | going through a formatted command gives its arguments, all and in order |
| RespEncode.NumberReads | src/redis/hiredis/read.c:148-173 | the number of any line: a sign or none, digits, and -1 if something other than a CR follows them |
| RespEncode.EncodeParses | src/redis/hiredis/read.c:215-414 | every reply tree, written byte by byte, parses to itself and leaves what follows; it is refused if and only if its arrays nest deeper than 8 |
| RespEncode.StreamParses | src/redis/hiredis/read.c:477-525 | written trees, one behind the other, parse to those trees in order, up to the first that nests too deep |
| RespEncode.FirstByte | src/redis/hiredis/read.c:367-414 | the first byte alone decides on a wrong type, and on the depth of an array |
| RespEncode.BulkLenient | src/redis/hiredis/read.c:249-300 | a bulk string ends at its length whatever the two bytes behind it are, and any negative length is nil |
| RespEncode.ArrayLenient | src/redis/hiredis/read.c:302-365 | an array without elements is nil only for the length -1 |
| RespEncode.PrefixWaits | src/redis/hiredis/read.c:477-525 | nothing is answered before the last byte of a tree |
| RespPipeline.ReadReplies | src/redis/hiredis/read.c:190-525 | however written reply trees are divided into feeds, the reader returns exactly those trees, up to the first that nests too deep |
| RespPipeline.ReadPipeline | src/redis/hiredis/read.c:190-525 | however printed commands are divided into feeds, the reader returns exactly their arrays |
| RespCommand.CString | src/redis/hiredis/hiredis.c:260-265 | a value for %s ends at its first NUL |
| RespCommand.WordEnds | src/redis/hiredis/hiredis.c:232-251 | what lies between spaces is one argument, even if its values are all empty |
| RespCommand.ReadFormat | src/redis/hiredis/hiredis.c:226-394 | the arguments are the runs of the format without a space, with values for %s and %b; and the space they take |
| RespCommand.FormatCommand | src/redis/hiredis/hiredis.c:210-417 | the command of those arguments; the length added up on the way is the number of bytes written |
| RespCommand.ArgumentCount | src/redis/hiredis/hiredis.c:231-391 | the format alone fixes the number of arguments, whatever spaces or line ends the values hold |
| RespCommand.SpelledReads | src/redis/hiredis/hiredis.c:231-380 | any bytes but spaces, and any values, can be written in a format and are read back from it |
| RespCommand.DirectivesRead | src/redis/hiredis/hiredis.c:259-274 | %s takes a value up to its first NUL, %b the whole of it, and a percent sign that ends the format stands for itself |
| RespCommand.SpreadWords | src/redis/hiredis/hiredis.c:232-251 | any number of spaces around arguments changes nothing |
| RespCommand.FormatParses | src/redis/hiredis/hiredis.c:210-417 | a command written in a format parses to the array of exactly the arguments meant |
| HttpSyntax.NextGuessAgrees | src/net/http/http_parser.c:949-1032 | a changed guess of the method agrees with the letters read and with the new one |
| HttpExecute.HttpParser.constructor | src/net/http/http_parser.c:1975-1984 | a new parser starts in the state of its type, without error |
| HttpExecute.HttpParser.OnePass | src/net/http/http_parser.c:617-663 | marks, callbacks and position after one pass |
| HttpExecute.HttpParser.ReexecuteByte | src/net/http/http_parser.c:662-1889 | the passes over one byte end, and leave the call where the specification goes on |
| HttpExecute.HttpParser.ExecuteBuffer | src/net/http/http_parser.c:617-1922 | the loop over a buffer does what the specification of a call says |
| HttpExecute.HttpParser.Execute | src/net/http/http_parser.c:576-1922 | registers, callbacks, return value and error of a call; nothing happens after an error |
| HttpSplit.PassHeld | src/net/http/http_parser.c:617-638 | in every state, a pass sets and clears only the mark that belongs to the state |
| HttpSplit.PassPlain | src/net/http/http_parser.c:662-1889 | outside the three bulk states a pass does not depend on how many bytes are left |
| HttpSplit.SwitchTogether | src/net/http/http_parser.c:663-1883 | a byte inside a buffer does what it does in a call of its own |
| HttpBatch.BulkFeed | src/net/http/http_parser.c:1719-1760 | body bytes taken in bulk come through as they do one at a time |
| HttpBatch.BatchIsBytes | src/net/http/http_parser.c:576-1922 | a call on any buffer, in any state, is the calls on its bytes: registers, count, error, callbacks |
| HttpBatch.FeedConcat | src/net/http/http_parser.c:576-1922 | executing bytes composes |
| HttpBatch.SplitInvariance | src/net/http/http_parser.c:617-662 | executing a and then b is executing a + b, for the callbacks unless there is an error |
| HttpBatch.RunAllIsFeed | src/net/http/http_parser.c:576-1922 | any sequence of calls is the calls on the single bytes |
| HttpBatch.AnyDivision | src/net/http/http_parser.c:617-662 | two divisions of a stream into calls end in the same state after the same callbacks, also before an error unless it falls into data |
| HttpBatch.ExecuteChunks | src/net/http/http_parser.c:590-615 | calls with buffers that are not empty are those of the divisions above; an empty one ends the stream |
| HttpInvariant.PassKept | src/net/http/http_parser.c:663-1883 | every pass keeps the invariant and fails no assertion |
| HttpInvariant.AccumulateExact | src/net/http/http_parser.c:1502-1525 | an accepted digit gives exactly base times length plus digit, below the value that stands for no length |
| HttpInvariant.RunsSafe | src/net/http/http_parser.c:576-1922 | over any run of calls on a new parser, ends of the stream included, no assertion fails and the invariant holds |
| HttpInvariant.MethodPrefix | src/net/http/http_parser.c:949-1032 | inside a method, the bytes last read are the first letters of the guessed method |
| HttpBody.FeedStep | src/net/http/http_parser.c:663-1883 | what one more byte adds to the trace, outside bulk states |
| HttpBody.LengthValue | src/net/http/http_parser.c:1448-1525 | the digits of a Content-Length give its value exactly, or are refused when too large |
| HttpBody.LengthBody | src/net/http/http_parser.c:1676-1754 | with a length of n exactly the next n bytes reach on_body, in order, before one message_complete, for any division |
| HttpChunked.SizeLineRead | src/net/http/http_parser.c:1767-1845 | a chunk size line, with extension, is read as the coding says |
| HttpChunked.DecodeTells | src/net/http/http_parser.c:1767-1883 | for every byte string after a chunked header, on_body gets the body of section 4.1 of RFC 7230, and the parser accepts, waits or fails as the decoder does |
| HttpChunked.ChunkedBody | src/net/http/http_parser.c:1767-1883 | the same for any division into calls, with the rest of the stream going on behind the last chunk |
| HttpChunked.TrailerEnds | src/net/http/http_parser.c:1628-1637 | the blank line after the trailer completes the message |
| HttpChunked.CodingDecodes | src/net/http/http_parser.c:1767-1883 | a written chunked coding, with hexadecimal sizes, decodes to its body, whatever follows |
| HttpTrailer.TrailerRuns | src/net/http/http_parser.c:1581-1637 | a trailer makes the callbacks of its lines and one message_complete |
| HttpTrailer.NextWhole | src/net/http/http_parser.c:1950-1967 | the lines of header and trailer together decide whether another message may follow |
| HttpRequestLine.MethodQuiet | src/net/http/http_parser.c:949-1032 | every method name, spelled out, is recognised |
| HttpRequestLine.PathOk | src/net/http/http_parser.c:428-574 | a path of URL characters is accepted as a URL |
| HttpUrl.UrlGrammar | src/net/http/http_parser.c:428-574 | the URL states take exactly the paths, absolute URLs and, for CONNECT, authorities of the grammar |
| HttpUrl.UrlAccepted | src/net/http/http_parser.c:1034-1105 | a string between the method and the next space is taken if it is a URL of the grammar, and refused as an invalid URL if not |
| HttpRequestLine.RequestLineLoop | src/net/http/http_parser.c:908-1227 | a printed request line gives its method, its URL in one callback, and its version |
| HttpStatusLine.NumberQuiet | src/net/http/http_parser.c:755-868 | versions and status codes of up to three digits are read into their registers |
| HttpStatusLine.StatusLineLoop | src/net/http/http_parser.c:696-906 | a printed status line gives its version and code, and its reason in one callback unless it is empty |
| HttpHeaders.HeaderRecognised | src/net/http/http_parser.c:1284-1383 | a header name selects its special treatment exactly when it is that name in any case |
| HttpHeaders.LengthLoop | src/net/http/http_parser.c:1448-1525 | a Content-Length line sets exactly the value of its digits |
| HttpHeaders.HeaderLine | src/net/http/http_parser.c:1229-1626 | a header line gives one callback with the name and one with the value, also if it is empty, and sets chunked, keep-alive, close, upgrade and length exactly as its text says, in any case |
| HttpHead.FlagsText | src/net/http/http_parser.c:1581-1626 | after header lines each flag is set if and only if one of them says so |
| HttpHead.LengthText | src/net/http/http_parser.c:1448-1525 | the length in force is that of the last Content-Length |
| HttpHead.NextIsText | src/net/http/http_parser.c:1924-1967 | whether the connection stays open is what version and Connection lines say, and whether a response needs the end of the stream what its status and framing lines say |
| HttpHead.EndIsText | src/net/http/http_parser.c:1628-1717 | what follows the header, and when the message is over, is what the text of its lines says |
| HttpHead.HeadRuns | src/net/http/http_parser.c:667-1717 | a printed header of a request or response, on any parser between messages: exactly the callbacks of its parts, and the state behind it |
| HttpPacket.HttpPacket.constructor | src/net/http/Http.h:49-49 | a new packet is empty, for version 1.1 |
| HttpPacket.HttpPacket.MakeHeader | src/net/http/Http.cpp:6-26 | the printed start line and headers, of a request or a response |
| HttpPacket.HttpPacket.Store | src/net/http/Http.cpp:131-154 | a pending field goes into the map with its value |
| HttpPacket.HttpSession.OnMessageBegin | src/net/http/Http.cpp:112-116 | a new message begins with a new packet |
| HttpPacket.HttpSession.OnEvent | src/net/http/Http.cpp:118-186 | each callback changes the packet as the specification says; a complete message is let go |
| HttpRoundTrip.HearPrinted | src/net/http/Http.cpp:112-157 | the callbacks of a printed header rebuild its URL or its status, its version and its header map |
| HttpRoundTrip.PrintedRuns | src/net/http/http_parser.c:667-1717 | one call on a printed request or response makes exactly the callbacks of its parts |
| HttpRoundTrip.RoundTrip | src/net/http/Http.cpp:6-26 | print and parse, on any parser between messages: for a request the same method and URL, for a response the same reason and status code, for both version and headers, all bytes taken |
| HttpMessage.MessageFeeds | src/net/http/http_parser.c:667-1883 | a whole message, without a body, with a length or chunked: the callbacks of its header, exactly its body, the lines of its trailer, one message_complete |
| HttpMessage.ConnectionDecides | src/net/http/http_parser.c:1950-1967 | behind a request of version 1.1 or more no further one is taken if and only if a line says close, in any case; behind one of version 1.0 a further one if and only if a line says keep-alive |
| HttpMessage.StreamHeard | src/net/http/http_parser.c:576-1922 | any number of printed messages that leave the connection open, divided into calls in any way: the callbacks of each in turn, then the rest of the stream |
| HttpMessage.ClosedStream | src/net/http/http_parser.c:667-673 | behind a message that closes the connection, anything but a line end is an error, after all callbacks of the messages |
| HttpMessage.SwitchLeaves | src/net/http/http_parser.c:1683-1689 | a CONNECT request or an upgrade line ends the call behind the header, whatever follows |
| HttpMessage.ChunkedMessage | src/net/http/http_parser.c:667-1883 | header and any bytes behind it, chunked: accepted, waited for or refused as the decoder says |
| HttpMessage.ChunkedWhole | src/net/http/http_parser.c:667-1883 | for a whole coding, with extensions or without, and its trailer: the callbacks of the header, exactly the decoded body, those of the trailer, one message_complete, then the rest of the stream |
| HttpMessage.UntilEof | src/net/http/http_parser.c:590-603 | a response without a length: every byte behind the header is body, and the end of the stream completes it |
| HttpMessage.StreamEnds | src/net/http/http_parser.c:590-615 | the stream may end between messages, and is an error within a header |
| HttpLeniency.LfEndsLine | src/net/http/http_parser.c:1060-1227 | a bare LF ends a line as CR LF does |
| HttpLeniency.LfEndsValue | src/net/http/http_parser.c:1476-1580 | so it does behind a header value |
| HttpLeniency.LfEndsHeader | src/net/http/http_parser.c:1628-1637 | so does the blank line behind a header |
| HttpLeniency.ShortLines | src/net/http/http_parser.c:1072-1080 | a request line without version is one of version 0.9; a status line may lack its reason |
| HttpLeniency.SpacesSkipped | src/net/http/http_parser.c:1034-1036 | further spaces in front of URL, version and status code are skipped |
| HttpLeniency.NumbersBegin | src/net/http/http_parser.c:1144-1190 | versions and status codes begin with a digit, the version of a request not with 0 |
| HttpLeniency.NumbersLimited | src/net/http/http_parser.c:1153-1226 | and go up to 999 |
| HttpLeniency.EmptyLine | src/net/http/http_parser.c:667-732 | empty lines between messages are skipped |
| HttpLeniency.NameAlone | src/net/http/http_parser.c:1391-1401 | a header name may stand alone on its line |
| HttpLeniency.BlanksSkipped | src/net/http/http_parser.c:1407-1408 | blanks in front of a value are skipped, as is a space within a length |
| HttpLeniency.LengthNeedsDigit | src/net/http/http_parser.c:1448-1456 | a length has to begin with a digit |
| HttpLeniency.FoldForgets | src/net/http/http_parser.c:1581-1605 | a folded value goes on with its blank, and what it said before is forgotten |
| HttpLeniency.BothRequest | src/net/http/http_parser.c:675-693 | a parser for both kinds of message goes on as one for requests from any first letter but H |
| HttpLeniency.BothSettles | src/net/http/http_parser.c:695-710 | from "HT" it goes on as one for responses, from "HE" as one for requests, and it refuses any other word with H |
| HttpLeniency.HeaderLimit | src/net/http/http_parser.c:648-660 | header bytes are taken up to a count of 80 * 1024 |
| HttpLeniency.TokenCharacters | src/net/http/http_parser.c:155-189 | the characters of a token are those of section 2.2 of RFC 2616, in lower case |
| HttpLeniency.UserinfoCharacters | src/net/http/http_parser.c:365-380 | those of user information are those of section 3.2.2 of RFC 2396 |
| SocketModel.Advance | src/net/TCPSocket.cpp:747-762 | taking off written bytes leaves a shorter or equal list |
| SocketModel.AdvanceFlat | src/net/TCPSocket.cpp:747-762 | what is left after a partial write is exactly the unwritten bytes |
| SocketProofs.StepKept | src/net/TCPSocket.cpp:302-1060 | every step of every thread keeps the invariant |
| SocketProofs.RunKept | src/net/TCPSocket.cpp:302-1060 | so does every run |
| SocketProofs.SentInOrder | src/net/TCPSocket.cpp:691-829 | in every interleaving the kernel holds a prefix of what was accepted; written, detached and queued make up the whole, and bytes4Send counts the rest |
| SocketProofs.OneTask | src/net/TCPSocket.cpp:302-355 | at most one task is active; while open there is one if doing is set, else none |
| SocketProofs.NoLostWakeup | src/net/TCPSocket.cpp:489-527 | an idle open socket can neither read nor write, and whatever it waits for has a wakeup coming; in every state a registered open socket is writeable or has a write wakeup coming |
| SocketProofs.FlushMeansWritten | src/net/TCPSocket.cpp:764-816 | flush and close-on-flush are chosen only when everything accepted is written |
| SocketProofs.WorkerNeverStuck | src/net/TCPSocket.cpp:715-762 | writev always gets a non-empty vector, and its result can be accounted for |
| SocketHistory.AcceptedExactly | src/net/TCPSocket.cpp:400-418 | in every run a send is refused if and only if a shutdown or a send with close-on-flush came before it or the socket is closed; all other data is accepted, in order |
| SocketHistory.NothingAfter | src/net/TCPSocket.cpp:400-418 | after a shutdown, a send with close-on-flush or a close nothing more is ever accepted |
| SocketHistory.NothingRefused | src/net/TCPSocket.cpp:400-418 | without those steps all data sent is accepted, and without errors the socket is never closed |
| SocketHistory.FlushExactly | src/net/TCPSocket.cpp:735-772 | the flush callback is chosen if and only if everything accepted is written and it is set; with a close if and only if an accepted send asked for it |
| SocketHistory.FlushWaits | src/net/TCPSocket.cpp:800-816 | the worker stays on its way to the flush, whatever others do |
| SocketHistory.FlushCloses | src/net/TCPSocket.cpp:807-815 | its next step then closes the socket exactly if a send asked for it |
| SocketHistory.CloseIsSeen | src/net/TCPSocket.cpp:1028-1060 | a close leaves a task that goes on to doClose, unless none runs and there is no close callback; epoll forgets the socket |
| SocketHistory.FilledInOrder | src/net/TCPSocket.cpp:939-1010 | without an error, receive buffers are filled in the order in which they were handed over, and none is lost |
| SocketProgress.WriteAgainStops | src/net/TCPSocket.cpp:775-781 | after EAGAIN the socket counts as writeable if and only if an event said so since the list was detached; else write interest is enabled next |
| SocketProgress.ReadAgainStops | src/net/TCPSocket.cpp:984-989 | the same for reading |
| SocketProgress.WriteErrorCloses | src/net/TCPSocket.cpp:782-827 | an error of writev marks the socket, and closes it exactly if there is no error callback |
| SocketProgress.ReadErrorCloses | src/net/TCPSocket.cpp:990-1006 | so does an error of read |
| SocketProgress.HighWaterExactly | src/net/TCPSocket.h:343-345 | the mark is exceeded exactly when more accepted bytes than that are not accounted for as written |
| SocketProgress.TurnTaken | src/net/TCPSocket.cpp:312-353 | a task does its work in each of ten rounds, and then posts itself anew |
| SendList.LinkList.PushBack | src/net/TCPSocket.h:143-150 | the list grows by one at its end |
| SendList.LinkList.PopFront | src/net/TCPSocket.h:132-141 | the first entry leaves |
| SendList.LinkList.Clear | src/net/TCPSocket.h:152-162 | the list is empty |
| SendList.LinkList.AddFront | src/net/TCPSocket.h:169-180 | another list is put in front, which leaves it empty |
| SendList.LinkList.FillIovec | src/net/TCPSocket.cpp:722-729 | the vector is the first 128 entries of the list |
| SendList.LinkList.DropSent | src/net/TCPSocket.cpp:747-762 | the list is what is left after so many bytes |
| SocketClass.TCPSocket.Send_ | src/net/TCPSocket.cpp:400-418 | the locked part of Send refines the model's |
| SocketClass.TCPSocket.Recv_ | src/net/TCPSocket.cpp:357-379 | the locked part of Recv refines the model's |
| SocketClass.TCPSocket.OnActive_ | src/net/TCPSocket.cpp:489-527 | the locked part of OnActive refines the model's |
| SocketClass.TCPSocket.Close_ | src/net/TCPSocket.cpp:1028-1060 | the locked part of Close refines the model's |
| SocketClass.TCPSocket.SendBegin | src/net/TCPSocket.cpp:703-720 | refines the model's first critical section of sendInWorker: nothing, the high-water callback, or the queued list handed to this worker and the empty one put in its place |
| SocketClass.TCPSocket.SentSome | src/net/TCPSocket.cpp:737-773 | after a write, counter and lists are those of the model, the rest spliced back in front |
| SocketClass.TCPSocket.SentNothing | src/net/TCPSocket.cpp:775-781 | after EAGAIN, the whole detached list is back in front |
| SocketClass.TCPSocket.SendFailed_ | src/net/TCPSocket.cpp:782-789 | after an error, the socket is marked and the lists are as in the model |
| PollerModel.StepKept | src/net/Poller.cpp:90-162 | every step of adding, removing, notifying and dispatching keeps the invariant |
| PollerModel.DeferredRelease | src/net/Poller.cpp:103-118 | until a batch is finished, each raw pointer in it, dispatched or not, is held by the map, by waitRemove or by an Add in progress |
| PollerModel.ReleaseComes | src/net/Poller.cpp:146-162 | channels wait for release exactly while they are counted, and a sleeping poller will be woken for them |
| PollerModel.MapIsRegistered | src/net/Poller.cpp:90-118 | between calls epoll knows exactly the channels of the map, even after a registration that failed |
| PollerModel.StaleModify | src/net/linux/Epoll.cpp:68-105 | after Enable or Disable in any state, epoll returns the channel of the call only while it is held, if and only if it is the registered one |
| PollerModel.StaleCall | src/net/Poller.cpp:120-136 | a reachable state and a call with another channel, after which epoll returns what nothing holds |
| HeapOrder.StepDown | src/util/Timer.h:173-199 | a step down moves the disorder down and mends what was above |
| HeapOrder.StepUp | src/util/Timer.h:201-214 | a step up moves the disorder up |
| HeapOrder.RootLeast | src/util/Timer.h:216-222 | the root of an ordered heap is a minimum |
| TimerHeap.TimerMgr.Swap | src/util/Timer.h:161-171 | two slots change places, and their timers know it |
| TimerHeap.TimerMgr.Down | src/util/Timer.h:173-199 | from any single disorder, either nothing moves or the heap is ordered |
| TimerHeap.TimerMgr.Up | src/util/Timer.h:201-214 | the heap is ordered |
| TimerHeap.TimerMgr.Change | src/util/Timer.h:153-159 | after any change of one expiry time the heap is ordered again |
| TimerHeap.TimerMgr.Top | src/util/Timer.h:216-222 | a timer that expires first, null only if there is none |
| TimerHeap.TimerMgr.Pop | src/util/Timer.h:224-235 | exactly the first timer leaves |
| TimerHeap.TimerMgr.Insert | src/util/Timer.h:242-272 | exactly this timer is added; refused for another manager's or a misplaced timer |
| TimerHeap.TimerMgr.Remove | src/util/Timer.h:274-304 | exactly this timer leaves, and the result says whether it was there |
| TimerHeap.TurnsLess | src/util/Timer.cpp:60-72 | re-arming leaves a periodic timer one turn less at the same time |
| TimerHeap.TimerMgr.Turn | src/util/Timer.cpp:40-75 | one turn of the scheduler takes the first timer and brings back only a periodic one |
| TimerHeap.TimerMgr.Schedule | src/util/Timer.cpp:38-77 | it ends with every timer later than now; callbacks in order of expiry; each due timer is called once, or (now - exp) / timeout + 1 times when compensating; new expiry times |
| TimerCancel.StepKept | src/util/Timer.cpp:13-77 | every step of cancel calls and scheduler keeps the invariant |
| TimerCancel.OneCancel | src/util/Timer.cpp:13-36 | at most one cancel of a timer returns anything but invaild_timer |
| TimerCancel.OneShot | src/util/Timer.cpp:46-74 | the callback of a one-shot timer begins at most once, whatever cancels run beside |
| TimerCancel.CancelStopsExactly | src/util/Timer.cpp:13-36 | a cancel is sure to stop its timer, one-shot or periodic, if and only if it is called on the scheduler's thread |
| TimerCancel.CancelStops | src/util/Timer.cpp:13-36 | after a return other than invaild_timer and doing_callback_in_other_thread no callback begins; after the latter at most the one claimed before; and it is never returned on the scheduler's thread |
| TimerCancel.PendingBegins | src/util/Timer.cpp:46-58 | a claimed callback can still begin, whatever a cancel returned |
| TimerCancel.CancelTooLate | src/util/Timer.cpp:46-56 | a run in which a callback begins after its cancel returned |
| TimerCancel.ManagerMetNull | src/util/Timer.cpp:28-31 | a cancel that wins the status meets a null manager exactly if the timer is popped before the read, or if both fall between the reset of the status and the insertion |
| TimerCancel.CancelOvertaken | src/util/Timer.h:224-235 | a run in which it is popped before the read |
| TimerCancel.CancelInWindow | src/util/Timer.cpp:60-70 | a run in which a periodic timer is canceled while it is re-armed, and the manager is null though the pop came before |
| TimerCancel.ManagerFoundExactly | src/util/Timer.cpp:28-31 | a cancel is sure to find its manager if and only if it is called on the scheduler's thread |
| DictTable.MaskIsModulo | src/redis/hiredis/dict.c:328-328 | masking a hash with a power of two less one is the remainder |
| DictTable.LinkFirst | src/redis/hiredis/dict.c:145-152 | a table stays well formed with one more entry in its slot |
| DictTable.Search | src/redis/hiredis/dict.c:190-208 | the first entry with the key in its chain, and the one before it |
| DictTable.Unlink | src/redis/hiredis/dict.c:193-205 | a table stays well formed without the entry |
| DictTable.MoveChain | src/redis/hiredis/dict.c:109-124 | a whole chain moves to the new table |
| Dict.NextPower | src/redis/hiredis/dict.c:306-315 | the least power of two, 4 or more, that is at least the size |
| Dict.Dict.Rehash | src/redis/hiredis/dict.c:102-126 | all entries move, and the assertion that none is left holds |
| Dict.Dict.Expand | src/redis/hiredis/dict.c:88-132 | the same map in a table at least as large as asked; refused only if it holds more entries |
| Dict.Dict.ExpandIfNeeded | src/redis/hiredis/dict.c:295-303 | the same map, with room for one more entry |
| Dict.Dict.Find | src/redis/hiredis/dict.c:243-256 | the entry of the key, null if there is none |
| Dict.Dict.KeyIndex | src/redis/hiredis/dict.c:320-337 | the slot for a new key, or -1 exactly if the key is there |
| Dict.Dict.Add | src/redis/hiredis/dict.c:135-154 | the map with the key added; it fails only on a key that is there |
| Dict.Dict.Replace | src/redis/hiredis/dict.c:160-179 | the map with the key set, and whether it is new |
| Dict.Dict.Delete | src/redis/hiredis/dict.c:182-210 | the map without the key, and whether it was there |
| Dict.Dict.UsedCounts | src/redis/hiredis/dict.h:60-67 | used is the number of keys |
| DictIteration.DictIterator.constructor | src/redis/hiredis/dict.c:258-266 | an iterator has every entry ahead |
| DictIteration.DictIterator.Next | src/redis/hiredis/dict.c:268-286 | an entry not returned before, null only if none is left |
| DictIteration.DeleteReturned | src/redis/hiredis/dict.c:278-283 | the iterator goes on unharmed when the entry it returned is deleted |
| DictIteration.VisitAll | src/redis/hiredis/dict.c:268-286 | every entry is returned exactly once, whichever of them are deleted on the way |
| RedisQueue.CallAt | src/redis/hiredis/async.c:265-272 | each command that has a function gets exactly one call, at its place in the order |
| RedisConn.RedisConn.RedisAsyncCommand | src/redis/RedisCli.cpp:121-140 | a command is accepted exactly if nothing is closing, and both queues grow together |
| RedisConn.RedisConn.GetCallback | src/redis/RedisCli.cpp:112-119 | the front function is that of the command answered; whatever it does, the queues agree when it is gone |
| RedisConn.RedisConn.RunCallback | src/redis/hiredis/async.c:265-272 | a command is told once, if it has a function |
| RedisConn.RedisConn.ShiftCallback | src/redis/hiredis/async.c:249-263 | the callback shifted is that of the first command still pending |
| RedisConn.RedisConn.AsyncFree_ | src/redis/hiredis/async.c:275-318 | every pending command is called with NULL, and none can be added meanwhile |
| RedisConn.RedisConn.RedisAsyncFree | src/redis/hiredis/async.c:323-328 | inside a callback only a flag, else the end of the context |
| RedisConn.RedisConn.AsyncDisconnect_ | src/redis/hiredis/async.c:331-349 | its assertion that a clean disconnect has no pending callbacks holds |
| RedisConn.RedisConn.RedisAsyncDisconnect | src/redis/hiredis/async.c:357-362 | inside a callback only a flag; outside, the end if nothing is pending |
| RedisConn.RedisConn.ProcessCallbacks | src/redis/hiredis/async.c:411-489 | each reply goes to the command it answers, until the input, or the context, ends; what is left of the context is as specified |
| RedisConn.RedisConn.HandleRead | src/redis/hiredis/async.c:516-535 | reading keeps the queues in agreement, or ends the context with every command told, and which of them is as specified |
| RedisConn.RedisConn.HandleWrite | src/redis/hiredis/async.c:537-562 | so does writing |
| RedisConn.RedisConn.Connects | src/redis/hiredis/async.c:494-511 | a connect callback that issues, disconnects or frees keeps the queues in agreement, and does to the context what its actions do |
| RedisConn.RedisConn.HandleConnect | src/redis/hiredis/async.c:494-511 | checking a connecting socket: what is left of the context, and whether it is used after the connect callback ended it |
| RedisConn.RedisConn.OnActive | src/redis/RedisCli.cpp:64-76 | both handlers in one event do to queues and context what the specification of an event says, uses after the end included |
| RedisControl.ActionsEnd | src/redis/hiredis/async.c:323-362 | actions outside a reply end the context exactly if one frees it, or disconnects with nothing pending |
| RedisControl.RepliesEndExactly | src/redis/hiredis/async.c:411-489 | processing replies ends the context exactly if one of them does, or what is left when they are exhausted |
| RedisControl.DanglesExactly | src/redis/RedisCli.cpp:64-76 | an event uses the context after its end exactly in cases that are decided before the call |
| RedisControl.DanglesConnected | src/redis/RedisCli.cpp:64-76 | on a connected context, an event for one handler never does; one without replies exactly if it is for both and reading fails, or the reader does, or a disconnect is due |
| RedisControl.DanglingRun | src/redis/RedisCli.cpp:64-76 | a run from a new connection that does |
| RedisControl.ConnectingLost | src/redis/hiredis/net.c:235-251 | an error left by a check of a connecting socket ends the context once it has connected |
| RedisConn.RunEvents | src/redis/hiredis/async.c:227-362 | over any run, with functions that issue, disconnect or free: the k-th reply goes to the k-th command, each function is called once, redisFns holds those pending, and the context ends when specified |
| RedisDrain.DrainExactly | src/redis/hiredis/async.c:411-426 | over any events, a connection that is being closed ends exactly when, reading, all commands are answered and sent; functions may do anything but free it |
| RedisDrain.CloseDrains | src/redis/hiredis/async.c:357-426 | the same from Close or redisAsyncDisconnect on, with commands pending |
| RedisDrain.LastReplyEnds | src/redis/hiredis/async.c:411-426 | with all sent, n replies end a connection with n commands pending and fewer do not; else a later read does, once all is sent |
| RedisDrain.UnsentStays | src/redis/hiredis/async.c:421-426 | a command issued before the close has to be written first |
| RedisDrain.ErrorsEnd | src/redis/hiredis/async.c:516-562 | an error of the context, of reading or of writing ends a connected context at once; a write that succeeds does not |
| RedisDrain.StaysInUse | src/redis/hiredis/async.c:411-461 | a connection that nobody closes stays, even with nothing pending |
| RedisDrain.RunAndClose | src/redis/hiredis/async.c:227-434 | the same for the class, over a run: the context is freed exactly when so drained, with every command told |
| SdsQuote.CatRepr | src/redis/hiredis/sds.c:856-879 | the string with the quoted form appended |
| SdsQuote.ReadToken | src/redis/hiredis/sds.c:942-1019 | one argument and where it ends, or an error |
| SdsQuote.SplitArgs | src/redis/hiredis/sds.c:931-1039 | the arguments of a line, or NULL for badly closed quotes |
| SdsQuote.QuotingRoundTrip | src/redis/hiredis/sds.c:931-1039 | splitting quoted strings joined by spaces gives exactly the list of strings |
| SdsWords.SplitWritten | src/redis/hiredis/sds.c:931-1039 | words written bare, in double or in single quotes, with any blanks around them, are split into exactly those words |
| SdsWords.BadRefused | src/redis/hiredis/sds.c:966-996 | a line with a quote that is never closed, or closed in front of something else, gives NULL |
| SdsWords.EscapesRead | src/redis/hiredis/sds.c:947-966 | what each escape in double quotes stands for |
| SdsSplit.SplitLen | src/redis/hiredis/sds.c:793-840 | tokens that join to the string, hold no separator, and are cut leftmost first; None only for an empty separator |
| SdsSplit.SplitUnique | src/redis/hiredis/sds.c:793-840 | there is only one such list of tokens |
| SdsSplit.JoinSds | src/redis/hiredis/sds.c:1078-1087 | the strings with the separator between them |
| SdsSplit.SplitThenJoin | src/redis/hiredis/sds.c:793-840 | joining what was split gives the string back |

## Left out

- Sockets, epoll and kqueue calls, SSL, DNS, connection setup, `TCPConnector`, `TCPListener`: only their nondeterministic results are modelled.
- The SSL send path, the gather-receive build, send and receive timeouts, the closures run in `Do`, and what happens to queued bytes after `Shutdown`.
- `ThreadPool`, `sendContextPool`, `Buffer`, `Addr`, `any`: executors, free lists and simple members; nodes are freshly allocated.
- The printf formats that `redisvFormatCommand` hands on: of its directives, %s, %b and %% are modelled, and a percent sign that ends the format.
- MONITOR and subscriptions in `async.c`, and the replies queue there as linked nodes: it is a sequence in the model.
- `http_parser_parse_url`, `F_SKIPBODY`, pausing, and callbacks that return an error.
- `sdsrange`, `sdsll2str` and the memory layout of sds strings.
- Memory exhaustion, shared pointer counts, and integer overflow on lengths above 2^31.
- RespReader.ReadLongLong: does not model overflow of the 64-bit number, because the line would need twenty digits.
- HttpExecute.HttpParser.Execute: does not model the registers exactly after an error, because the parser takes no further input then.
- HttpBatch.SplitInvariance: does not equate callbacks after an error, because the code drops data under a mark when it fails.
- Dict.Dict.Add: does not model tables of 2^31 slots or more, where the slot number, an `int`, is negative or the -1 that stands for a key that is there, nor full tables of LONG_MAX / 2 slots or more, whose size cannot double.
- Dict.Dict.Expand: does not model sizes of LONG_MAX or more, where the size is no power of two, because no such table can be allocated.
- Dict.Dict.ExpandIfNeeded: does not model full tables of LONG_MAX / 2 slots or more, for the reason given for Add.
- Dict.Dict.KeyIndex: does not model the `int` that holds the slot number, which matters from 2^31 slots on, nor full tables of LONG_MAX / 2 slots or more.
- Dict.Dict.Replace: does not model tables of 2^31 slots or more, for the reasons given for Add.
- TimerHeap.TimerMgr.Schedule: does not model callbacks that add, remove or cancel timers; cancel is in `TimerCancel`.
