# A verified model of the flkeeper network library and its file server

The repository is a reactor in the style of muduo (one event loop per thread,
callbacks, non-blocking sockets) with an HTTP file server on top. This project
models the parts of it that are state machines or that are easy to get wrong,
and proves what holds of them on every input, every run and every interleaving.

A component has a model on values (a state, the steps that change it, an
invariant, and theorems about whole runs) and, beside it, objects whose methods
have the fields, branches and loops of the program and are proved to make exactly
those steps. The theorems about runs therefore speak about the methods.

| file | what it models |
|---|---|
| Options, Integers | an optional value; division and the cuts to fewer bits as in C++ |
| Bytes | searching in byte strings |
| HttpParser, ParserDriver, ParserCalls, ParserExamples, RequestText, KeepAlive, HttpContext | the incremental HTTP/1.1 parser (sections 3, 5 and 6.2 of RFC 9112), its loop, its calls as messages arrive, with concrete streams, what it makes of the text of a request, the reuse of its context, and its objects |
| Conversation | several requests on one connection |
| HttpServer, Upload, UploadText, UploadHandler | the server's message callback, the streamed upload, and their objects |
| NetBuffer, LinkedBuffer, BufferRuns | the contiguous byte buffer, the block list, and both on the same run |
| ConnectionModel, ConnectionWrites, ShutdownRace, CloseRace, Download, TcpConnection | the output side of a connection, its callbacks and failures, calls of other threads that race with its shutdown and its close, the download pump on it, and their objects |
| TimerModel, TimerRuns, TimerQueue | the timer queue, what becomes of a timer, and its object |
| LoggingModel, AsyncLogging | the asynchronous log and its object |
| WaitQueueModel, BlockingQueues | the bounded blocking queue and the thread pool |
| PollerModel, Pollers | the two pollers and the channels |
| EventLoopModel, EventLoop | queued functors, wakeup and quit |
| JulianDay | Gregorian dates and day numbers |
| LogStream | integers as text, and the fixed buffer they go to |

What the world does is a parameter: the result of each `write` and `readv`, the
events of `poll`, the time at which a timer batch is taken, the address at which
a timer is allocated, which waiter a notification wakes, when a wait ends for no
reason, and what lies in memory behind the bytes of a buffer. A stretch of code
that runs under a lock, or between two points where other threads can come in, is
one step. A call in another thread that tests the state of a connection, sets it and
queues a functor is three. A byte is a `char`, and a position equal to the length stands for "not
found".

Some things that the program's own comments, names or assertions promise do not
hold of the code as it is. Each is stated with the exact condition under which it
does:

- How a stream is cut into messages does not matter, over all cuts whose calls
  return or abort, unless the stream starts with one of two things
  (`ParserCalls.OutcomeIff`). One is a header block whose last header is a
  Content-Length with a blank value, with only spaces from there to the end of the
  block: `atoi` then reads behind the block, where later bytes of the stream are, or
  memory that was never received (`ParserExamples.BlankLengthOpen`). The other is a
  refused request line of a known method with something behind it.
- With several requests in a stream it matters also, because a request that came in
  one message with the end of another waits for the next message: the replies are
  the same for all such cuts if and only if nothing that could be replied to follows
  the first request (`Conversation.SameTalkIff`).
- After a refused line the server only shuts its write side, so the next message
  parses that line again; a call aborts in the assertion of `setMethod` exactly when
  the line's method is known (`ParserCalls.AssertionIff`, `ParserCalls.AbortsIff`,
  and "GET /" as an example in `ParserExamples.GetAborts`).
- `parseRequest` does not return when the header block is incomplete or the
  request already complete (`ParserDriver.ReturnsIff`, for example
  `ParserExamples.LineAloneSpins`); the comment on `processHeaders` says that it
  waits for more data. What is said above about cuts,
  and below about uploads, is about messages whose calls return.
- An upload of one part is always reported once its request is complete. Exactly one
  upload is reported, by its closing delimiter and with the right file and count, if
  and only if the header block is in the first piece handed over and the whole
  delimiter in the last one (`UploadText.StreamedUpload`, `Upload.ReportsAre`).
  A delimiter that was cut in two gives a wrong file (`Upload.CutDelimiter`); one that
  ends before the last piece, if only by a line break, gives a second upload. The file
  keeps the line break before the delimiter, unlike section 5.1.1 of RFC 2046
  (`Upload.KeepsLineBreak`).
- After `reset()` the raw query is that of a fresh context exactly when the new request
  line has one or the old path was empty (`KeepAlive.QueryIff`); `getQuery` answers as
  in a fresh context always (`KeepAlive.SameAnswers`).
- A cancellation that overtakes the addition of its timer, which two threads can
  bring about, is lost (`TimerModel.CancelIff`).
- From the moment another thread sets the state in `shutdown`, the write side is shut
  at most once if and only if nothing is ahead of that call: no bytes buffered, queued
  or being sent, no sender between its test of the state and its push, and no second
  call of `shutdown` past its test. No message is lost to it if and only if at most one
  thing is ahead and no sender is between test and push (`ShutdownRace.ShutOnceIff`,
  `ShutdownRace.NothingLostIff`, with an example in `ShutdownRace.SenderBetween`).
- A closed connection stays closed, and is closed once, if and only if no other thread
  is in `shutdown` or `forceClose` between testing the state and setting it
  (`CloseRace.StaysClosedIff`, `CloseRace.ClosedOnceIff`). Otherwise it is half open
  again, and bytes left in its buffer are not watched for; that it asks for write
  events exactly while bytes are buffered holds on a run if and only if no state is set
  that late (`ConnectionModel.WatchedIff`).
- The log drops lines of a batch exactly when it has more than 25 buffers, and then
  all but those of the first two (`LoggingModel.MissingFromFile`). That takes as many
  bytes between two swaps as twelve and a half buffers hold, or more
  (`LoggingModel.BacklogNeeds`).
- The day number of a date and the date of a day number are inverse exactly from
  1 March -4800 on and while the year fits 16 bits (`JulianDay.DateRoundTripIff`,
  `JulianDay.NumberRoundTripIff`).
- Up to the first poll the loop is told of something exactly when another thread has
  queued a functor or woken it to quit; functors queued in the loop thread before
  `loop()` do not wake it (`EventLoopModel.FirstPollToldIff`).
- A channel with no events can be removed from the array poller exactly when its
  events were set to none after its registration (`PollerModel.RemovableIff`).
- The fixed buffer of the log stream cuts the length of a text to 32 bits before it
  compares it with the room left; `LogStream.OverrunIff` says for which lengths the
  copy then leaves the array, for example two gigabytes.

`dafny verify dfyconfig.toml` checks the whole project.

## Model

| member | source | states |
|---|---|---|
| ParserCalls.OutcomeIff | src/network/http/HttpContext.cpp:40-169 | For every context between two calls, part of a line or of a header block already unread or not, and every byte stream: over all ways to cut the stream into messages whose calls return or abort, with any memory behind each message, the outcome (context, unread bytes, or abort) is the same if and only if what is unread and the stream start neither with an accepted request line and an open-ended header block, whose last header is a Content-Length with a blank value and only spaces from there to the end of the block, nor with a refused line of a known method that is complete before the last byte. Excepted is only a context in which a whole open-ended block is unread already |
| ParserCalls.SameUnless | src/network/http/HttpContext.cpp:40-169 | The same in one direction, with no exception |
| ParserCalls.ReturningAgree | src/network/http/HttpContext.cpp:105-169 | Without an open-ended block, calls that all return leave what one pass over the whole stream leaves, whatever lay in memory behind the messages |
| ParserCalls.AbortsIff | inc/network/http/HttpRequest.hpp:38-55 | A call for a request aborts in `setMethod` if and only if the stream starts with a refused line whose method is known and that line had arrived before the last message |
| ParserCalls.AssertionIff | inc/network/http/HttpRequest.hpp:38-39 | The assertion of `setMethod` holds in the next call, whatever bytes it brings, if and only if no method is set in a context that expects a request line |
| ParserCalls.RefusedAgain | src/network/http/HttpServer.cpp:46-50 | After a refusal the connection goes on reading, and a line with an unknown method is parsed and refused again with every message, with nothing changed but the bytes behind it |
| ParserCalls.CallIsRun | src/network/http/HttpContext.cpp:104-169 | A call that returns makes every turn its bytes allow and leaves a context from which the next call can start, also after a refusal |
| ParserCalls.OpenWitness | src/network/http/HttpContext.cpp:52-58 | With an open-ended block, a cut right behind it, whose calls all return, makes the content length any digit that lies in memory there |
| ParserExamples.GetAborts | src/network/http/HttpContext.cpp:9-38 | For example "GET /" and a line end, then one byte in a second message: the first call refuses the line, the second aborts |
| ParserExamples.LineAloneSpins | src/network/http/HttpContext.cpp:129-154 | For example a message that ends behind "GET / HTTP/1.1": the call does not return |
| ParserExamples.BlankLengthOpen | src/network/http/HttpContext.cpp:52-58 | For example a request whose only header is "Content-Length:": cuts, and memory, give different outcomes |
| Conversation.SameTalkIff | src/network/http/HttpServer.cpp:35-86 | Several requests on one connection, at most one answered a message: over all cuts of a stream whose calls return or abort the server decides on the same replies if and only if, in one pass over it, no header block is open-ended in a message that is not chunked, nothing follows a refused line, and what follows an answered request can itself be neither answered nor refused |
| Conversation.SecondDiffers | src/network/http/HttpServer.cpp:78-83 | If a second request behind an answered one can be answered, one message gets one reply, and a cut is given that gets two |
| Conversation.TalkOf | src/network/http/HttpServer.cpp:35-86 | Otherwise every such cut gets the one refusal, the one answer, or none, that one pass over the stream gives |
| Conversation.HeadsShape | src/network/http/HttpContext.cpp:44-63 | What lies in memory, or arrives later, behind a header block matters for the content length alone |
| HttpParser.SplitIndependentIff | src/network/http/HttpContext.cpp:44-63 | Of the turns alone, as if every call went on to its end: on which streams the memory behind a piece can reach the content length at all |
| HttpParser.FeedRun | src/network/http/HttpContext.cpp:105-169 | Parsing what has arrived and the rest later is parsing both at once, from every well-formed state |
| HttpParser.LengthStops | src/network/http/HttpContext.cpp:54-57 | A value that starts with something other than a space makes `atoi` stop before the end of its line, whatever follows in memory |
| HttpParser.RequestLine | src/network/http/HttpContext.cpp:9-38 | An accepted line has a known method and version; the body and the headers are untouched; a path without a question mark stays without one; the query is the old one or starts with the question mark |
| HttpParser.HeaderLine | src/network/http/HttpContext.cpp:44-70 | A header line leaves the state and the received count; only a Content-Length line changes the length, to the number read from its value |
| HttpParser.Step | src/network/http/HttpContext.cpp:110-166 | One turn of the loop within a call keeps the context well-formed and lowers a lexicographic measure of state and unread bytes |
| HttpParser.Run | src/network/http/HttpContext.cpp:105-169 | The turns of one call until none is possible: the result is well-formed and no turn is left in it |
| ParserDriver.ReturnsIff | src/network/http/HttpContext.cpp:105-169 | A call of the parser returns if and only if its starting state and buffer allow it, read off before the call, and then within three iterations |
| ParserDriver.ReturnedMeansRun | src/network/http/HttpContext.cpp:105-169 | A returned call has made every turn the bytes allow, is not left in the header block, and its result names the state it is left in |
| ParserDriver.Spins | src/network/http/HttpContext.cpp:132-154 | With headers missing, or with the request complete, no number of iterations makes the call return |
| ParserDriver.HeaderLoop | src/network/http/HttpContext.cpp:40-82 | The header loop makes turns of the parser only, and leaves the header block for the state its length and encoding ask for |
| ParserDriver.HeaderLoopEnds | src/network/http/HttpContext.cpp:40-82 | The header loop leaves the header block if and only if a line without a colon is there |
| KeepAlive.LikeFresh | inc/network/http/HttpContext.hpp:69-78 | After any history of arrivals, drained pieces, answers and resets the next request is parsed as by a fresh context, up to a query that `getQuery` ignores |
| KeepAlive.SameAnswers | inc/network/http/HttpRequest.hpp:134-176 | ... so method, path, headers and body are equal, and every `getQuery` answers the same, although the swap leaves the old path behind as the query |
| KeepAlive.QueryIff | inc/network/http/HttpRequest.hpp:134-142 | The raw query, which one handler reads, is that of a fresh context if and only if the new request line has a query or the path before was empty; otherwise it is that path |
| KeepAlive.ServePathUnmarked | src/network/http/HttpContext.cpp:17-23 | A stored path never contains a question mark, over every history |
| KeepAlive.RunAlike | src/network/http/HttpContext.cpp:105-169 | Parsing does not look at the query |
| HttpObjects.HttpRequest.SetMethod | inc/network/http/HttpRequest.hpp:38-82 | Succeeds if and only if the name is what `methodString` gives for some known method, and then the method is the one whose string it is |
| HttpParser.MethodNames | inc/network/http/HttpRequest.hpp:38-82 | `setMethod` and `methodString` are inverse: the name of every known method is read as that method, and no other text is read as one |
| RequestText.LineReads | src/network/http/HttpContext.cpp:9-38 | For every known method, path without space or question mark, query that is empty or starts with a question mark, and minor version 0 or 1: the line "METHOD path+query HTTP/1.x" is accepted, and the request gets exactly these words; a query already there stays if the line has none |
| RequestText.OnlySuchLines | src/network/http/HttpContext.cpp:9-38 | No other line is accepted |
| RequestText.OneLine | src/network/http/HttpContext.cpp:9-38 | For example "GET /a?x=1 HTTP/1.0" |
| RequestText.AtoiReads | src/network/http/HttpContext.cpp:57 | The decimal text of any integer, behind any of the six space characters and in front of anything but a digit, is read by `atoi` as that integer if an int holds it, as the 64-bit integer cut to 32 bits if only a long does, and as -1 or 0 beyond that |
| RequestText.LengthReads | src/network/http/HttpContext.cpp:52-58 | The content length is the number whose text the value is, whatever lies in memory behind its line; a negative one becomes what the cast to an unsigned 64-bit size makes of it |
| RequestText.HeaderReads | src/network/http/HttpContext.cpp:44-70 | A line "name: value" stores the value without the spaces around it under the name and leaves all other headers; it is a Content-Length line, or makes the request chunked, if and only if name and value say so in letters of either case |
| RequestText.WholeRequest | src/network/http/HttpContext.cpp:40-169 | End to end over calls that return: a request that is not chunked has the words of its first line, and, with n the decimal number in its last Content-Length header, it is complete exactly when n bytes have come behind the header block; these are its body, and what follows stays unread |
| RequestText.WholeHeaders | src/network/http/HttpContext.cpp:44-70 | Of each header name the last line counts, and no name is there that no line has |
| HttpObjects.HttpRequest.AddHeader | inc/network/http/HttpRequest.hpp:108-121 | The two trimming loops store the value without the spaces before and behind it |
| HttpObjects.HttpRequest.Swap | inc/network/http/HttpRequest.hpp:134-142 | All fields that a parser fills are exchanged, but each path ends up as the query of the other side of the swap; the path parameters stay where they are |
| HttpObjects.HttpRequest.SplitParams | inc/network/http/HttpRequest.hpp:153-161 | The loop gives parameters without an ampersand that, joined with ampersands, are the query |
| KeepAlive.JoinSplits | inc/network/http/HttpRequest.hpp:153-161 | There is only one way to take a query apart like that |
| HttpObjects.HttpRequest.GetQuery | inc/network/http/HttpRequest.hpp:145-176 | The value of the first parameter that names the key |
| KeepAlive.QueryAnswer | inc/network/http/HttpRequest.hpp:145-176 | For any text that is a question mark and parameters joined with ampersands: the answer is the decoded value v of the first parameter of the form key=v, "true" if the key by itself comes first, and the default if no parameter names the key |
| KeepAlive.NoAnswer | inc/network/http/HttpRequest.hpp:145-176 | Without the question mark, or with an equals sign in the key, the answer is the default |
| KeepAlive.QueryExample | inc/network/http/HttpRequest.hpp:145-176 | For example "?x=1&code=abc" |
| HttpObjects.HttpContext.ProcessRequestLine | src/network/http/HttpContext.cpp:9-38 | Aborts exactly when the line has a space and a method is already set; otherwise does to the request what the function on values does, also when the line is refused |
| HttpObjects.HttpContext.TakeHeader | src/network/http/HttpContext.cpp:48-69 | A header line changes headers, length and encoding as the function on values says, with `atoi` started in the array of the buffer |
| HttpObjects.HttpContext.ProcessHeaders | src/network/http/HttpContext.cpp:40-82 | The loop over the buffer is the header loop on the contents, and the bytes behind the contents stay as they are |
| HttpObjects.HttpContext.ProcessBody | src/network/http/HttpContext.cpp:84-101 | Moves what is missing, or what is there, from the buffer to the body, and reports completion |
| HttpObjects.HttpContext.ParseRequest | src/network/http/HttpContext.cpp:104-169 | From every context a call can find, a refused one included: aborts exactly when the assertion of `setMethod` fails, and otherwise the loop over the four states does what the driver on values does, result, context and buffer alike |
| HttpObjects.HttpContext.Reset | inc/network/http/HttpContext.hpp:69-78 | What the parser fills is as in a fresh context except for the query; the path parameters survive, until the router sets them for the next handler |
| UploadText.StreamedUpload | src/network/http/HttpServer.cpp:35-89 | End to end from the text that TCP carries to the uploads reported, when every call returns: "POST /upload", with or without a query, headers, and n bytes of a one-part body. The request is answered, all pieces but the last have at least 1048576 bytes, and exactly one upload is reported, by its closing delimiter, if and only if the first piece holds the header block of the part and the last one the whole delimiter, and then its file and count are those of the data; and if that header block, and the delimiter with what follows it, are shorter than 1048576 bytes, exactly one upload with the right file and count is reported if and only if the last piece holds the whole delimiter |
| UploadText.UploadArrives | src/network/http/HttpServer.cpp:52-83 | What such a text makes the server do with its messages undrained: answer when n bytes are there, else hand over a piece of 1048576 bytes or more, else wait |
| UploadText.UploadWaits | src/network/http/HttpServer.cpp:62-72 | Until the request is complete, less than 1048576 bytes of its body wait after any message, every piece handed over has at least as many, and together they are what has come |
| UploadText.OtherRequest | src/network/http/HttpServer.cpp:58 | A stream that starts with the line of any other request, in any messages: nothing but the complete request is handed over, and no upload is reported |
| UploadText.TiedAction | src/network/http/HttpServer.cpp:52-83 | In every context that a stream with a given first line leads to, drained or not, the action follows from the words of that line, the phase and the number of bytes |
| HttpServerModel.SessionReports | src/network/http/HttpServer.cpp:52-84 | What a session reports is what the handler reports of the pieces one by one, with the context cleared at each completion and the body emptied each time |
| HttpServerModel.DrainedBody | src/network/http/HttpServer.cpp:52-85 | Over any messages of a request whose calls return: the pieces handed over and what is still in the request are the undrained body; the request is answered if and only if it is complete; the last piece comes with the complete request and all others have a megabyte |
| HttpServerModel.CallsLonger | src/network/http/HttpContext.cpp:84-101 | Emptying the body between two messages changes neither which calls return nor what is parsed afterwards |
| HttpServerModel.PiecesHaveBytes | src/network/http/HttpServer.cpp:62-64 | No piece of a body that is not empty is empty |
| HttpServerModel.MessageParsed | src/network/http/HttpServer.cpp:44-85 | When a call returns, the tests of result, state, path, method and size choose the action that the parsed context alone determines |
| Upload.ReportsAre | app/HttpUploader.hpp:399-581 | For every way to cut a one-part body into pieces: one empty upload is reported when the header block is not in the first piece; the data, and nothing else, when the closing delimiter is in the last piece; the data and then a second upload when it is in an earlier one, since the completion clears the context; and one upload that has not found it when it is cut in two |
| Upload.ReportedIff | app/HttpUploader.hpp:534-581 | Exactly one upload is reported by its closing delimiter if and only if the header block is in the first piece and the whole delimiter in the last |
| Upload.RightFileIff | app/HttpUploader.hpp:399-581 | With a header block, and a delimiter and what follows it, shorter than the large pieces: exactly one upload is reported, with the right file and count, if and only if the last piece holds the whole delimiter; otherwise the file is wrong or a second upload is reported |
| Upload.ReportsFrom | app/HttpUploader.hpp:440-581 | The same from any piece on, with the file so far |
| Upload.Misreported | app/HttpUploader.hpp:534-581 | Behind the closing delimiter, or after it was cut in two, the pieces that remain lead to exactly one more report, of an upload that found no delimiter |
| Upload.FirstOf | app/HttpUploader.hpp:399-429 | What the first piece leaves in the file and the state, by where it is cut |
| Upload.KeepsLineBreak | app/HttpUploader.hpp:406-419 | The line break before the closing delimiter stays at the end of the file, other than in section 5.1.1 of RFC 2046 |
| Upload.CutDelimiter | app/HttpUploader.hpp:446-520 | For example a delimiter cut in two: the upload reported has not found it |
| Upload.WholeDelimiter | app/HttpUploader.hpp:399-419 | And the same body in one piece: the data between the blank line and the delimiter |
| Upload.NextPart | app/HttpUploader.hpp:459-478 | A further part: the file gets what is in front of its delimiter once its header block is there |
| Upload.ContentPiece | app/HttpUploader.hpp:488-505 | Inside a further part a piece goes to the file whole, or up to the next delimiter |
| Upload.Counted | app/FileUploadContext.hpp:64-76 | The count is the length of the file in every upload that is ever reported |
| UploadObjects.FileUploadContext.WriteData | app/FileUploadContext.hpp:64-76 | Appends to the file and counts the bytes |
| UploadObjects.FileUploadContext.TakeFirst | app/HttpUploader.hpp:399-429 | The handler on the first piece does what the function on values does; a closing delimiter before the end of the header block makes the write fail, and nothing is written |
| UploadObjects.FileUploadContext.TakeLater | app/HttpUploader.hpp:440-520 | The handler on a later piece, state by state, does what the function on values does |
| UploadObjects.HandleFileUpload | app/HttpUploader.hpp:391-588 | Creates the context on the first piece, uses it on the others, empties the body, and on completion, by state or because the request is complete, reports the upload and clears the context: slot, body and report are those of the function on values |
| UploadObjects.OnMessage | src/network/http/HttpServer.cpp:35-89 | In every context a message can find, after a refusal too: aborts exactly when the assertion of `setMethod` fails; when the parser returns, what is answered, handed over, reported or reset is decided by what parsing all the bytes leaves, and the next message can come |
| NetBuffer.Buffer.FindCRLF | src/network/Buffer.cpp:11-14 | The first CR LF of the readable bytes |
| NetBuffer.Buffer.MakeSpace | src/network/Buffer.cpp:89-102 | Keeps the readable bytes, by a new array or by moving them in place, and leaves room for the bytes asked for; both assertions in it hold |
| NetBuffer.Buffer.CheckWritableSpace | src/network/Buffer.cpp:47-52 | Room for the bytes asked for; nothing moves when there was enough behind, and there is no new array while the free bytes in front and behind leave 8 |
| NetBuffer.Buffer.Append | src/network/Buffer.cpp:65-69 | The queue with the bytes behind |
| NetBuffer.Buffer.Prepend | src/network/Buffer.cpp:75-80 | The queue with the bytes in front |
| NetBuffer.Buffer.Retrieve | inc/network/Buffer.hpp:67-74 | The queue without its first bytes |
| NetBuffer.Buffer.RetrieveAsString | inc/network/Buffer.hpp:95-100 | Gives the first bytes of the queue and takes them out |
| NetBuffer.Buffer.RetrieveAll | inc/network/Buffer.hpp:84-87 | The empty queue |
| NetBuffer.Buffer.HasWritten | inc/network/Buffer.hpp:132-135 | The bytes that lie behind the readable ones become readable, in order, and the readable ones stay |
| NetBuffer.Buffer.UnWrite | inc/network/Buffer.hpp:137-140 | The queue without its last bytes |
| NetBuffer.Buffer.Shrink | src/network/Buffer.cpp:82-87 | The same queue in a new array with the room asked for |
| NetBuffer.Buffer.Swap | src/network/Buffer.cpp:54-59 | The two queues are exchanged, with the room of each and the bytes behind it |
| NetBuffer.Buffer.ReadFd | src/network/Buffer.cpp:107-136 | The queue with everything one scattered read brought, in the array and beside it, in order |
| LinkedBlocks.LinkedBuffer.Append | inc/network/LinkedBuffer.hpp:245-265 | The joined blocks with the bytes behind, over as many new blocks as needed |
| LinkedBlocks.LinkedBuffer.Retrieve | inc/network/LinkedBuffer.hpp:167-186 | The joined blocks without their first bytes |
| LinkedBlocks.LinkedBuffer.RetrieveAsString | inc/network/LinkedBuffer.hpp:220-242 | The bytes given out and the joined blocks left are the joined blocks before |
| LinkedBlocks.LinkedBuffer.RetrieveAll | inc/network/LinkedBuffer.hpp:209-212 | No bytes left |
| LinkedBlocks.LinkedBuffer.Shrink | inc/network/LinkedBuffer.hpp:282-306 | The same bytes without empty blocks, and, if any block is left, the free room asked for |
| LinkedBlocks.LinkedBuffer.WritableBytes | inc/network/LinkedBuffer.hpp:91-97 | The sum of the free bytes of all blocks |
| LinkedBlocks.LinkedBuffer.WriteFd | inc/network/LinkedBuffer.hpp:356-374 | What one gathered write took and the joined blocks left are the joined blocks before |
| LinkedBlocks.Block.Shrink | inc/network/LinkedBuffer.hpp:62-71 | The same readable bytes with one byte free, the parts still adding up to the capacity |
| BufferRuns.RunBoth | inc/network/LinkedBuffer.hpp:167-306 | On every legal run of appends, retrievals, shrinking and writes both buffers give out the same bytes and end with the same contents, those of a plain queue |
| BufferRuns.RunFlat | src/network/Buffer.cpp:47-136 | The contiguous buffer on every run of appends, retrievals, bytes put in front, bytes taken back, shrinking and scattered reads in which no call breaks its own assertion: the outputs and the contents of a queue with front insertion, and exactly the free room in front and behind that decides which calls may come next |
| BufferRuns.CommonRun | inc/network/Buffer.hpp:67-100 | On the operations both buffers have, that is a plain queue |
| BufferRuns.FlatStep | src/network/Buffer.cpp:65-136 | One such call |
| BufferRuns.RunLinked | inc/network/LinkedBuffer.hpp:167-306 | The block list on every run of the operations both buffers have |
| BufferRuns.FirstInFirstOut | inc/network/Buffer.hpp:67-116 | What was there and what came in is, in order, what left followed by what is there |
| Bytes.Search | src/network/Buffer.cpp:11-14 | The first occurrence, or the length when there is none |
| ConnectionModel.OutputConserved | src/network/TcpConnection.cpp:43-160 | On every run of sends, shutdowns and closings in any thread, each cut into its test of the state, its setting of it and its push, with any write outcomes: wire and buffer together are the accepted messages in order; write events are asked for only while bytes are buffered; and until the connection has been closed it asks for them exactly then, and with its write side shut every accepted byte is on the wire |
| ConnectionModel.WatchedIff | src/network/TcpConnection.cpp:140-160 | At every point of a run the open connection asks for write events exactly while bytes are buffered, and has none buffered with its write side shut, if and only if in that run no thread sets the state of a connection that was closed, with bytes left, after that thread tested it |
| ConnectionModel.ShutOnce | src/network/TcpConnection.cpp:140-152 | Unless another thread calls shutdown, the write side is shut at most once, and then every accepted byte is on the wire |
| ShutdownRace.ShutOnceIff | src/network/TcpConnection.cpp:140-152 | From the moment another thread sets the state in `shutdown`, the write side is shut at most once on every continuation if and only if nothing is ahead of it: no bytes buffered, queued or being sent, no sender between its test and its push, and no other call of shutdown past its test |
| ShutdownRace.NothingLostIff | src/network/TcpConnection.cpp:43-66 | And no message is lost to it on any continuation if and only if at most one thing is ahead of it, the buffer, one queued message, or what the loop thread is in the middle of, and no sender is between its test and its push |
| ShutdownRace.SenderBetween | src/network/TcpConnection.cpp:56-66 | For example, with nothing to send and one sender between test and push, the write side can be shut twice, and the message can be lost |
| CloseRace.StaysClosedIff | src/network/TcpConnection.cpp:140-160 | A closed connection stays closed on every continuation if and only if no other thread is in shutdown or forceClose between testing the state and setting it |
| CloseRace.ClosedOnceIff | src/network/TcpConnection.cpp:162-167 | And the close callback is not called a second time under exactly the same condition |
| CloseRace.StaysWatchedIff | src/network/TcpConnection.cpp:204-243 | Closed with bytes left, it keeps asking for write events whenever it is open with bytes buffered, under exactly the same condition |
| ConnectionModel.Uninterrupted | src/network/TcpConnection.cpp:43-66 | A send or shutdown in the loop thread that no other thread interrupts is the test and the rest in one |
| ConnectionWrites.CallbacksIff | src/network/TcpConnection.cpp:85-138 | A message on an open connection has the high-water callback queued, with the size, if and only if what its direct write left makes the buffer reach the mark from below; and the write-complete callback if and only if no byte is left in the buffer |
| ConnectionWrites.GivenUpIff | src/network/TcpConnection.cpp:91-122 | A message is given up if and only if the connection is closed, or nothing was buffered and the write found the peer gone |
| ConnectionWrites.FailedWrite | src/network/TcpConnection.cpp:204-243 | A failed write from the buffer closes the connection if the peer is gone and changes nothing otherwise; one that takes bytes never closes it |
| ConnectionModel.StepInv | src/network/TcpConnection.cpp:43-256 | Every step keeps the account of the bytes and the agreement of state, write events and buffer |
| ConnectionModel.WireOnlyGrows | src/network/TcpConnection.cpp:85-243 | No step takes a byte off the wire, and none adds one after the write side was shut |
| ConnectionModel.PlayKeeps | src/network/TcpConnection.cpp:85-256 | The invariant and the account of accepted bytes over whole runs |
| ConnectionObjects.TcpConnection.SendInLoop | src/network/TcpConnection.cpp:85-138 | The direct write, the buffering with the high-water functor, and the second write are the send of the state machine |
| ConnectionObjects.TcpConnection.HandleWrite | src/network/TcpConnection.cpp:204-243 | The write from the buffer, what is queued after it, the shutdown or the close are the flush of the state machine; the assertion in the close holds |
| ConnectionObjects.TcpConnection.Send | src/network/TcpConnection.cpp:56-66 | Sends on a connected connection only |
| ConnectionObjects.TcpConnection.TestSend | src/network/TcpConnection.cpp:56-66 | A send in another thread up to its test, which succeeds on a connected connection only |
| ConnectionObjects.TcpConnection.QueueSend | src/network/TcpConnection.cpp:60-64 | ... and its push, whatever the state is by then |
| ConnectionObjects.TcpConnection.SetShutdown | src/network/TcpConnection.cpp:140-145 | Likewise for shutdown: the state is set, whatever it is by then |
| ConnectionObjects.TcpConnection.QueueForceClose | src/network/TcpConnection.cpp:154-160 | Likewise for forceClose: the close is queued |
| ConnectionObjects.TcpConnection.Shutdown | src/network/TcpConnection.cpp:140-152 | Disconnecting at once, and the write side shut only if nothing waits to be written |
| ConnectionObjects.TcpConnection.ForceClose | src/network/TcpConnection.cpp:154-160 | Disconnecting, with the close queued |
| ConnectionObjects.TcpConnection.RunFunctor | src/network/TcpConnection.cpp:140-167 | The functor at the head of the queue makes the step of the state machine |
| Download.WholeFile | app/HttpUploader.hpp:957-972 | The whole download, for every sequence of partial or blocked writes: exactly one of buffered, callback pending and shut down holds; at most a fixed number of steps has an effect; the wire is a beginning of what was there, header and file from the start position to its end, and all of it once the write side is shut, which is once |
| Download.NextPumps | app/HttpUploader.hpp:958-972 | Every event keeps exactly that situation and the account of the bytes |
| Download.EffectOf | app/HttpUploader.hpp:958-972 | An event that moves no byte changes nothing but the queue of functors; every other one lowers the measure of unread and buffered bytes |
| Download.NeverStuck | app/HttpUploader.hpp:958-972 | Until it has finished, some possible sequence of events moves a byte |
| Download.StartPumps | app/HttpUploader.hpp:926-956 | Installing the callback and sending the header puts the pump to work on any open connection |
| ConnectionObjects.FileDownContext.SeekTo | app/FileDownloadContext.hpp:38-45 | What is still to be read is the file from the position on, also after the end was reached |
| ConnectionObjects.FileDownContext.ReadNextChunk | app/FileDownloadContext.hpp:48-71 | The chunk is the file between the old and the new position, a megabyte unless the file ends there; no chunk comes if and only if the end was reached |
| ConnectionObjects.OnWriteComplete | app/HttpUploader.hpp:958-972 | The callback reads and sends the next chunk or shuts down, as in the state machine |
| ConnectionObjects.StartDownload | app/HttpUploader.hpp:957-972 | Opening, seeking, installing the callback and sending the header start the pump |
| TimerModel.OnEveryRun | src/network/TimerQueue.cpp:91-202 | On every run, with freed addresses reused: the two sets have the same size; every timer ever made is on its way, waiting, in the batch, or freed, in exactly one of these and freed once; a one-shot timer runs at most once and any timer once a batch |
| TimerModel.StepGood | src/network/TimerQueue.cpp:91-202 | Every event keeps the sets in bijection with matching expirations, the ownership, the counting, the cancellations and the history |
| TimerModel.SameSize | src/network/TimerQueue.cpp:102-114 | The sizes of the two sets are equal, as the assertions in the source say |
| TimerModel.InOnePlace | src/network/TimerQueue.cpp:100-176 | Every timer ever made is in exactly one place |
| TimerModel.OneShotOnce | src/network/TimerQueue.cpp:127-129 | Two runs of the same timer are those of a repeating one, in a later batch |
| TimerModel.CancelIff | src/network/TimerQueue.cpp:80-115 | A timer whose cancellation has been executed can still run in a later batch if and only if its addition had not been executed before |
| TimerModel.CancelledNeverRunsAgain | src/network/TimerQueue.cpp:100-115 | After the cancellation of a timer that was added no run of events runs it in a later batch |
| TimerModel.EarlyCancelIsLost | src/network/TimerQueue.cpp:104-113 | A cancellation that overtakes the addition changes nothing the timer depends on |
| TimerModel.StaleKey | src/network/TimerQueue.cpp:103-113 | A TimerId whose timer is gone removes nothing, also when its address holds another timer |
| TimerModel.CancelOnlyNamed | src/network/TimerQueue.cpp:103-113 | A TimerId removes no timer but its own |
| TimerModel.ArmedInTime | src/network/TimerQueue.cpp:91-186 | Outside handleRead the timerfd is set whenever a timer waits, for no later than the earliest, over every run |
| TimerModel.Insert | src/network/TimerQueue.cpp:178-202 | The ordered set with the entry in its place, and at the front exactly when it is the earliest |
| TimerModel.Erase | src/network/TimerQueue.cpp:106-110 | The ordered set without the entry |
| TimerModel.ExpiredSplits | src/network/TimerQueue.cpp:138-142 | The entries taken have expired and the next one has not |
| TimerRuns.MadeRuns | src/network/TimerQueue.cpp:80-153 | In every run in which a timer is made for a time and added, and not cancelled between then and the first batch taken at that time or later: up to that batch it waits for exactly that time, and when that batch has ended its callback has been run in it |
| TimerRuns.RunsOnTime | src/network/TimerQueue.cpp:117-153 | The same from any state in which it waits; and until then it is not run |
| TimerRuns.MadeWaits | src/network/TimerQueue.cpp:80-98 | Between its making and its addition nothing reaches a timer, and then it waits for the time it was made for |
| TimerRuns.BatchEnds | src/network/TimerQueue.cpp:155-167 | At the end of a batch each of its timers that repeats and was not cancelled waits again, under its sequence number, for exactly its interval after the time the batch was taken, and is not freed; every other one is freed |
| TimerRuns.NeverFreed | src/network/TimerQueue.cpp:155-167 | Over every run: a repeating timer that is never cancelled is never freed |
| TimerRuns.ArmedExactly | src/network/TimerQueue.cpp:91-176 | When the timerfd is set it is set to the earliest timer, by an addition exactly when that becomes the earliest, and at the end of a batch |
| TimerObjects.TimerQueue.AddTimer | src/network/TimerQueue.cpp:80-85 | A timer at an address that is free, with the next sequence number, which the id carries |
| TimerObjects.TimerQueue.Insert | src/network/TimerQueue.cpp:178-202 | Into both sets, and whether the timer is now the earliest; the assertions on the sizes hold |
| TimerObjects.TimerQueue.AddTimerInLoop | src/network/TimerQueue.cpp:91-98 | The step of the state machine, with the timerfd set when the timer is the earliest |
| TimerObjects.TimerQueue.CancelInLoop | src/network/TimerQueue.cpp:100-115 | The step of the state machine; the erase finds its entry and the sizes agree before and after |
| TimerObjects.TimerQueue.GetExpired | src/network/TimerQueue.cpp:135-153 | The timers that are due leave both sets |
| TimerObjects.TimerQueue.BeginRead | src/network/TimerQueue.cpp:117-125 | handleRead up to the callbacks |
| TimerObjects.TimerQueue.RunCallback | src/network/TimerQueue.cpp:127-129 | One callback of the batch, on a timer that is still live |
| TimerObjects.TimerQueue.ResetFirst | src/network/TimerQueue.cpp:158-167 | A timer of the batch goes back into both sets, or is deleted |
| TimerObjects.TimerQueue.Restart | src/network/TimerQueue.cpp:160-163 | The next time is the time of the batch and the interval |
| TimerObjects.TimerQueue.EndRead | src/network/TimerQueue.cpp:130-176 | handleRead after the callbacks, with the timerfd set to the earliest timer |
| LoggingModel.LinesConserved | src/utils/log/AsyncLogging.cpp:17-113 | In every interleaving of appends with the writing thread: the batches taken and the lines still buffered are the lines offered, whole and in order, and the file is what is kept of each finished batch |
| LoggingModel.NothingDropped | src/utils/log/AsyncLogging.cpp:17-88 | If between any two swaps fewer bytes are offered than twelve and a half buffers hold, the file and the buffered lines are all lines offered |
| LoggingModel.BacklogNeeds | src/utils/log/AsyncLogging.cpp:17-83 | On every run a batch of more than 25 buffers was preceded by that many bytes since the swap before it |
| LoggingModel.NewBufferIff | src/utils/log/AsyncLogging.cpp:20-33 | On every run an append puts the current buffer away exactly when it, with the line, would have no byte left free |
| LoggingModel.SpansAreAll | src/utils/log/AsyncLogging.cpp:17-71 | The lines offered between one swap and the next are, one after the other, all lines offered |
| LoggingModel.BatchLeaves | src/utils/log/AsyncLogging.cpp:73-88 | A batch of at most 25 buffers leaves all its lines, and a larger one a notice with the number of buffers without the first two, and the lines of these |
| LoggingModel.MissingFromFile | src/utils/log/AsyncLogging.cpp:17-88 | Over every run, between two batches: the lines offered are, as a multiset, those in the file, those still buffered, and of each batch with more than 25 buffers, and of no other, those of the third buffer and the later ones |
| LoggingModel.AssertionsHold | src/utils/log/AsyncLogging.cpp:52-107 | The assertions of the writing thread hold on every run, those of the recycling included, because a missing spare buffer means that a full one waits |
| LoggingModel.StepInv | src/utils/log/AsyncLogging.cpp:17-111 | Every step of either side keeps that |
| LoggingModel.PlayFits | src/utils/log/AsyncLogging.cpp:20-33 | No buffer is ever filled to its last byte |
| LoggingModel.AppendResidual | src/utils/log/AsyncLogging.cpp:17-36 | A line goes behind all buffered lines, or, when no buffer can hold it, nowhere |
| LoggingObjects.AsyncLogging.Append | src/utils/log/AsyncLogging.cpp:17-36 | The step of the state machine, in any situation of the three buffers |
| LoggingObjects.AsyncLogging.SwapBuffers | src/utils/log/AsyncLogging.cpp:63-71 | The swap under the lock, after which there is something to write |
| LoggingObjects.AsyncLogging.Enter | src/utils/log/AsyncLogging.cpp:52-69 | From the head of the loop to the wait or through the swap; the three assertions there hold |
| LoggingObjects.AsyncLogging.WriteBatch | src/utils/log/AsyncLogging.cpp:74-88 | The loop writes every line of the batch, or a notice and the first two buffers |
| LoggingObjects.AsyncLogging.RecycleBuffers | src/utils/log/AsyncLogging.cpp:90-109 | Two empty spare buffers again; both assertions hold |
| WaitQueueModel.NoLostWakeup | inc/utils/datastructures/BoundedBlockingQueue.hpp:44-89 | On every run of any number of threads: items come out in the order they went in and once; a consumer waiting unsignalled beside an item has a signalled one ahead of it, and more signalled ones than items; the same for producers and free slots |
| WaitQueueModel.StopFreesAll | src/utils/thread/ThreadPool.cpp:40-51 | After stop nobody waits and nobody ever waits again; every thread that was waiting comes back at its next step, and nothing is put in |
| WaitQueueModel.StepInv | inc/utils/datastructures/BoundedBlockingQueue.hpp:44-89 | Every critical section and every wakeup for no reason keeps that |
| WaitQueueModel.PutInv | src/utils/thread/ThreadPool.cpp:58-73 | So does putting, with or without a wait, on a bounded, unbounded or stopped queue |
| WaitQueueModel.TakeInv | src/utils/thread/ThreadPool.cpp:75-91 | And taking |
| BlockingQueues.BoundedBlockingQueue.Put | inc/utils/datastructures/BoundedBlockingQueue.hpp:44-54 | One stretch of put under the mutex; it waits exactly when the queue is full |
| BlockingQueues.BoundedBlockingQueue.Take | inc/utils/datastructures/BoundedBlockingQueue.hpp:77-89 | One stretch of take; it gives the oldest item not taken yet, or waits |
| BlockingQueues.ThreadPool.Run | src/utils/thread/ThreadPool.cpp:58-73 | One stretch of run; its assertion holds, and a stopped pool takes no task |
| BlockingQueues.ThreadPool.Take | src/utils/thread/ThreadPool.cpp:75-91 | One stretch of take; the oldest task, or none from a stopped empty pool |
| BlockingQueues.ThreadPool.Stop | src/utils/thread/ThreadPool.cpp:40-46 | Everybody is signalled |
| PollerModel.SameWatched | src/network/poller/PollPoller.cpp:49-104 | After every legal sequence of updates and removals both pollers watch the same descriptors for the same events, those asked for |
| PollerModel.PollStep | src/network/poller/PollPoller.cpp:49-104 | Every legal call meets the assertions of the array poller and keeps array, map and channel indices inverse to each other |
| PollerModel.PollRemove | src/network/poller/PollPoller.cpp:81-104 | ... also through the swap with the last entry |
| PollerModel.PollRefines | src/network/poller/PollPoller.cpp:49-104 | An entry of the array that counts is there if and only if its events were asked for |
| PollerModel.EPollStep | src/network/poller/EPollPoller.cpp:81-133 | Every legal call meets the assertions of the epoll poller, no epoll_ctl fails, and the kernel table holds exactly the added channels with their events |
| PollerModel.RemovableIff | src/network/poller/PollPoller.cpp:81-104 | In every state that keeps the invariant, a channel with no events meets the assertions of the array poller at its removal if and only if its events were set to none by an update after its registration; in the epoll poller it always does |
| PollerModel.RegisteredIdle | src/network/poller/PollPoller.cpp:91 | So after every legal run a channel registered with no events, and not updated since, fails the assertion when it is removed |
| PollerObjects.PollPoller.UpdateChannel | src/network/poller/PollPoller.cpp:49-79 | The step of the state machine, on the channel object and the array |
| PollerObjects.PollPoller.RemoveChannel | src/network/poller/PollPoller.cpp:81-104 | The step of the state machine, with the index of the channel that moved |
| PollerObjects.PollPoller.FillActiveChannels | src/network/poller/PollPoller.cpp:33-47 | The channels of exactly the marked entries, in order, each with its events; the loop that stops early misses none |
| PollerObjects.EPollPoller.UpdateChannel | src/network/poller/EPollPoller.cpp:81-114 | The step of the state machine |
| PollerObjects.EPollPoller.RemoveChannel | src/network/poller/EPollPoller.cpp:116-133 | The step of the state machine, and the index of a new channel |
| EventLoopModel.NoLostFunctor | src/network/EventLoop.cpp:65-121 | On every run with any number of threads: the functors executed are the first ones queued, once each and in order; once the queue was drained, the loop never polls with functors pending unless the eventfd tells it or a thread is about to; likewise for quit |
| EventLoopModel.FirstPollToldIff | src/network/EventLoop.cpp:65-113 | The exception, exactly: on every run up to the first poll the loop is told of something if and only if another thread has queued a functor or woken it to quit; functors queued in the loop thread before loop() wake nobody |
| EventLoopModel.TurnExecutes | src/network/EventLoop.cpp:160-173 | All functors pending at the swap are executed in that turn, whatever is queued meanwhile |
| EventLoopModel.StepInv | src/network/EventLoop.cpp:65-173 | Every step of every thread keeps that |
| EventLoopObjects.EventLoop.QueueInLoop | src/network/EventLoop.cpp:104-113 | In the loop thread: the push, and the wakeup exactly while functors are being called, so that the eventfd tells of it then |
| EventLoopObjects.EventLoop.QueueFromOther | src/network/EventLoop.cpp:104-109 | In another thread: the push up to its wakeup; from there on the loop is told or about to be |
| EventLoopObjects.EventLoop.Poll | src/network/EventLoop.cpp:69-75 | After the first drain the poll reports the eventfd if functors are pending, unless a thread is about to wake it; likewise for quit |
| EventLoopObjects.EventLoop.HandleRead | src/network/EventLoop.cpp:152-158 | The read resets the counter |
| EventLoopObjects.EventLoop.SwapPending | src/network/EventLoop.cpp:164-167 | What is swapped out is exactly what was queued and has not been executed |
| EventLoopObjects.EventLoop.NextFunctor | src/network/EventLoop.cpp:169-171 | The functor called is the first one queued that has not been called |
| EventLoopObjects.EventLoop.EndPending | src/network/EventLoop.cpp:72-83 | At the end of the drain all functors queued are executed or pending, and the loop is told of those pending; it goes on unless told to quit |
| JulianDay.DateRoundTripIff | src/utils/date/Date.cpp:15-35 | Every date the fields can hold comes back from its day number if and only if it is on or after 1 March -4800 |
| JulianDay.NumberRoundTripIff | src/utils/date/Date.cpp:15-35 | Every number in reach of the arithmetic comes back, by way of a date that exists, if and only if it is between that day and the last one the 16-bit year can hold |
| JulianDay.NextDayNumber | src/utils/date/Date.cpp:15-20 | The next calendar day, under the leap-year rule, has the next number |
| JulianDay.SameOrder | src/utils/date/Date.cpp:15-20 | Numbers are ordered as dates are |
| JulianDay.NegativeDecodes | src/utils/date/Date.cpp:22-35 | Before that range the day of the month that comes out is never positive |
| JulianDay.DecodedDate | src/utils/date/Date.cpp:22-35 | The date that comes out is the one with the year and day of year in which the number lies, its year cut to 16 bits |
| JulianDay.Anchored | src/utils/date/Date.cpp:15-20 | 1 January 2000 has the number 2451545 |
| LogStream.TextRoundTrip | src/utils/log/LogStream.cpp:19-40 | The text of every integer is read back as that integer, and has no superfluous zero |
| LogStream.ReadRoundTrip | src/utils/log/LogStream.cpp:19-40 | And every such text is the text of what it is read as |
| LogStream.TextFits | src/utils/log/LogStream.cpp:144-149 | The text of every 64-bit value, signed or not, with its terminator is shorter than the room asked for |
| LogStream.HexFits | src/utils/log/LogStream.cpp:108-120 | So is a pointer in hexadecimal with its prefix |
| LogStream.NumeralReads | src/utils/log/LogStream.cpp:42-58 | A numeral in either base is read back, and starts with a zero only if it is zero |
| LogStream.SignedDigit | src/utils/log/LogStream.cpp:12-30 | The table gives the right digit for remainders of either sign, and the quotient loses exactly that digit |
| LogStream.Convert | src/utils/log/LogStream.cpp:19-40 | The digit loop and the reversal in place leave the text and its terminator in the array, and nothing before them changes |
| LogStream.ConvertHex | src/utils/log/LogStream.cpp:42-58 | The same in base 16 |
| LogStream.ReverseInPlace | src/utils/log/LogStream.cpp:37 | The stretch of the array is reversed and the rest is as before |
| LogStream.FixedBuffer.Append | inc/utils/log/LogStream.hpp:23-28 | With the length cut to 32 bits as in the source: bytes that leave one byte free are taken whole, and others not at all, unless the copy would overrun the array, which needs a text of two gigabytes or more |
| LogStream.Stream.FormatInteger | src/utils/log/LogStream.cpp:144-149 | The text of the value behind the contents, or nothing when less than 48 bytes are free |
| LogStream.Stream.FormatPointer | src/utils/log/LogStream.cpp:108-120 | The prefix and the hexadecimal numeral behind the contents, or nothing |

## Left out

- ParserCalls.OutcomeIff: the receive time stored with a request is not modelled; it does differ with the cut. Cuts at which a call does not return have no outcome; `ParserDriver.ReturnsIff` says which those are. When a whole open-ended header block is unread already, behind an answered request, the bytes that come next decide, and only `ParserCalls.SameUnless` is stated.
- HttpParser.SplitIndependentIff: speaks of the turns alone; the cut that shows a difference lies in the header block, where the program's call would not return.
- HttpParser.HeaderLine: `atoi` beyond the range of `long` is undefined in C++; it saturates to 64 bits and is cut to 32, as in glibc.
- HttpObjects.HttpContext.ParseRequest: since the loop may not return, it is followed for a given positive number of iterations; the source's loop body is split into one method a state. Assertions are switched on, as the build files leave them.
- HttpParser.Run: chunked bodies are not read, as in the source, where they are a TODO.
- RequestText.WholeRequest: header lines with a NUL byte or a bare carriage return in them, a blank Content-Length and lengths of 2^31 and more are left to the other theorems on the parser; `RequestText.AtoiReads` covers all numbers.
- KeepAlive.SameAnswers: `urlDecode` is any function of the text; only that the same text reaches it is proved. A history is made of the turns of the parser; in the program it ends at a call that aborts or does not return. The path parameters are no part of it: the router sets them before it calls a handler.
- Conversation.SameTalkIff: starts with nothing unread and follows requests that are no uploads, which `UploadText.StreamedUpload` does. A reply is what the server decides on; a connection that shuts its write side after a refusal, or at the wish of the request, sends later ones no more.
- UploadText.StreamedUpload: the responses sent, the session check, the database and the shutdown after the response are not modelled; the boundary, which a regular expression takes from the Content-Type header, and whether the file name comes with a header field, are parameters. The session is followed up to the answer of its request.
- UploadObjects.HandleFileUpload: the checks before the body is looked at (session, Content-Type, boundary, file name) are taken as passed, except that an empty first piece gives no file name; disk errors are left out but for one: a closing delimiter before the end of the header block makes the length of the write wrap around, which is modelled as the failed write of a negative length that it is in libstdc++.
- UploadObjects.OnMessage: answers other than those of the upload handler are not modelled; the request that the router gets is.
- NetBuffer.Buffer: the constructor's argument is not modelled; the source ignores it when it allocates, so any other than the default fails its own assertion. `findEOL` is not modelled.
- LinkedBlocks.Block: the bytes of a block are a sequence held by the block object, not an array of its own, so sharing of that memory is not modelled; `prepend`, `readFd`, `retrieveUntil` and the searches of the block list are not modelled, since they are not operations on the queue of bytes.
- BufferRuns.RunBoth: prepending, taking back written bytes and scattered reads are part of the runs of the contiguous buffer only.
- ConnectionModel.OutputConserved: a step of the loop thread is atomic but for the test in `send` and `shutdown`: what another thread sets or queues in the middle of one comes before or behind it, and only user callbacks that the step queues can change places with it. `connectDestroyed` is not modelled. Once the write side is shut, a write finds the pipe broken. The high-water mark is any number.
- Download.WholeFile: all senders are in the loop thread, no second request arrives during the download, the request did not ask to close the connection, and no write finds the peer gone. The end of a range is only printed in the header; the bytes sent run to the end of the file, as in the source.
- TimerModel.OnEveryRun: times are integers, of which only the order matters; the interval is a whole number of microseconds, and the constructor of a time from a number, which discards its argument, is not modelled. Arming needs times after the epoch.
- TimerObjects.TimerQueue: timers are held in a map from addresses instead of behind pointers, and the ordered set is a sorted sequence.
- LoggingModel.LinesConserved: lines still buffered when the thread stops are the residual of the law; the loop may end without a last swap. The text of the notice, rolling and flushing are not modelled.
- LoggingObjects.AsyncLogging: a buffer is the sequence of lines in it, held by value; the source's unique pointers leave no room for sharing.
- LogStream.FixedBuffer.Append: what the copy of a text that overruns the array does to memory is not modelled, only that it happens. `double` and the format class are not modelled.
- WaitQueueModel.NoLostWakeup: a thread is a number and its program is any sequence of calls; the mutex is the atomicity of a step. A pool without threads, which runs a task at once, is not modelled.
- PollerModel.SameWatched: a legal run removes a channel only after its events were set to none by an update after the registration, and does not register the same channel object again after a removal from the array poller, which leaves the old index in it.
- PollerObjects.PollPoller.RemoveChannel: the source erases the channel inside an `assert`; the model has assertions switched on.
- EventLoopModel.NoLostFunctor: the timeout of the poll is not modelled as a wakeup, and a loop that has ended is not started again.
- JulianDay.NumberRoundTripIff: the range of numbers excludes those for which the 64-bit arithmetic overflows. The day of the week and the constructor with an empty body are not modelled.
- The order of callbacks in `Channel::handleEventWithGuard`, the connection table of `TcpServer` and the acceptor: a fixed chain of tests, a map insertion and erasure, and a loop over `accept`, with no state of their own beyond that.
- The response, the router, sessions, passwords, sharing, deletion, the database, JSON and HTML: calls into foreign code.
- `PMutex`, `PCondition`, `CountDownLatch`, `Thread`, `LogFile`, `ProcessInfo`, `Connector` and `TcpClient`: thin wrappers, or not used by the server.
