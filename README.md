# ssec: a verified model of the streaming core

ssec is a client for Server-Sent Events. It opens a streaming HTTP request, checks
that the response really is an event stream, cuts the body text into lines, runs the
lines through the event-stream field parser, and hands the dispatched events to the
caller. When the transport fails it reconnects with exponential backoff, replaying
the last event id in a `Last-Event-ID` header, and gives up after a bounded number of
consecutive failures.

This project models that core in Dafny and proves properties of the model:

- `constants.dfy` (module `Constants`) holds the delimiter, the media type, the request headers, the status codes and the defaults.
- `events.dfy` (module `Events`) holds the `Event` value, with type `"message"` when none is named.
- `common.dfy` (module `Common`) holds the three helpers of `src/ssec/common.py`:
  - `check_response` is the function `CheckResponse`.
  - `extract_lines` is the imperative `ExtractLines`, proved against the framing function `Frame`. `Frame` is the model of `str.splitlines(keepends=True)` and comes with its inverse `Unframe`.
  - `parse_events` is the imperative `ParseEvents`, which writes into the shared record, the class `Config`. It is proved against the pure left fold `Parse`/`Step` of the field parser.
- `stream.dfy` (module `Stream`) holds the supervision loop of `stream` and `stream_async`:
  - It is modelled as one supervisor with a flag for the loop bound: `<` for the synchronous entry point and `<=` for the asynchronous one.
  - The network is replaced by the sequence of what each connection attempt produced: a transport failure, or a response with a status, a content type, the body chunks and how the body ended.
  - The observable behaviour is the trace of requests sent (with their headers), waits and yielded events, plus how the stream ends.
  - The imperative `Supervise` loop and its body `AttemptOnce` are proved equal to the function `Run`. The properties are lemmas about `Run`.

The model follows the code where the event-stream interpretation rules of the HTML
Living Standard say otherwise:

- After a dispatch the accumulators are not reset. The defaulted type and the stripped data are written back into them, so later events in the same call extend earlier data (`Common.DataCarriesOver`).
- `rstrip("\n")` removes every trailing line feed, not only one, so an empty `data:` line just before the blank line is lost (`Common.EveryTrailingLfStripped`).
- The `retry` field is stored in the record but never read. Every wait uses the caller's reconnect timeout and backoff delay (`Stream.RetryNeverRead`).
- The field accumulators start empty for every chunk, so fields do not carry across chunk boundaries (`Stream.FieldsDoNotCrossChunks`).
- A CRLF split across two chunks counts as two line terminators: the CR completes the line, and the LF then reads as a blank line that dispatches an extra event (`Stream.SplitCrLfIsTwoTerminators`).

For a non-negative maximum, when every attempt fails to connect, the asynchronous entry point makes one more attempt than the synchronous one, and the model keeps that difference (`Stream.AsyncMakesOneMoreAttempt`). With a negative maximum neither makes any attempt. The two entry points also differ on a negative wait, which the model does not capture (see "Left out").

## Model

| member | source | states |
|---|---|---|
| `Common.TrimEnd` | src/ssec/common.py:87 | `rstrip`: the result is a prefix of the input; it does not end in a stripped character; every removed character is one |
| `Common.RemovePrefix` | src/ssec/common.py:61 | `removeprefix`: when the prefix is present, prefix plus result is the input; otherwise the input is returned unchanged |
| `Common.Partition` | src/ssec/common.py:96 | `partition(":")`: the three parts concatenate to the line; the name holds no colon; the separator is empty exactly when the line has no colon |
| `Common.Contains` | src/ssec/common.py:37 | definition: `part in s`, some position of `s` starts with `part`; `Common.CheckResponse` is stated with it |
| `Common.CheckResponse` | src/ssec/common.py:18-39 | accepted iff the status is 200 and the content type is present and contains `text/event-stream`; the status is checked first; a missing header is a content-type error |
| `Common.Frame` | src/ssec/common.py:56-57 | definition of `splitlines(keepends=True)` restricted to CR and LF: cut at the first CR or LF, taking CRLF as one terminator, and keep the unterminated tail as the remainder; pinned down by `FrameRoundTrip`, `FrameUnframe`, `FrameIsClean`, `CrLfIsOneTerminator` and `TrailingCrCompletesLine` |
| `Common.FrameRoundTrip` | src/ssec/common.py:56-61 | re-joining the framed lines with their terminators, then the remainder, gives back the buffer |
| `Common.FrameUnframe` | src/ssec/common.py:56-61 | framing inverts re-joining for any clean framing in which no lone CR line is followed by an empty LF line |
| `Common.FrameIsClean` | src/ssec/common.py:56-60 | no extracted line and no remainder contains a CR or an LF |
| `Common.CrLfIsOneTerminator` | src/ssec/common.py:56-57 | `\r\n` ends one line, not two |
| `Common.TrailingCrCompletesLine` | src/ssec/common.py:56-57 | a CR at the very end of the buffer already completes a line, with an empty remainder |
| `Common.FrameRestIsSuffix` | src/ssec/common.py:61-62 | the remainder returned is a suffix of the buffer |
| `Common.TrimTerminator` | src/ssec/common.py:58-60 | stripping the trailing CR/LF run of a terminated line leaves exactly its text |
| `Common.ExtractStep` | src/ssec/common.py:56-61 | one turn of the loop cuts exactly the first framed line, strips its terminator and drops it from the front of the buffer |
| `Common.ExtractLines` | src/ssec/common.py:42-62 | the lines returned are the framed lines without terminators, in order; the buffer returned is the unterminated remainder |
| `Common.FindLineBreak` | src/ssec/common.py:56 | finds the first CR or LF, or the end of the text |
| `Common.IsAsciiDigits` | src/ssec/common.py:125 | definition of `value.isdigit()` on ASCII text: non-empty and made only of `0`-`9` |
| `Common.DecimalValue` | src/ssec/common.py:126 | definition of `int(value)` on a digit string, read in base ten from the left; `DecimalString` and `DecimalRoundTrip` show it is onto the naturals |
| `Common.DecimalString` | src/ssec/common.py:125 | every natural number has a spelling that `isdigit` accepts |
| `Common.DecimalRoundTrip` | src/ssec/common.py:125-126 | `int` of that spelling is the number back |
| `Common.Step` | src/ssec/common.py:80-129 | definition of one turn of the loop: a blank line dispatches and writes the defaulted type and stripped data back; a line starting with `:` is skipped; otherwise the `event`, `data`, `id` and digit-only `retry` fields update their accumulator and every other field is ignored; pinned down line by line by `EventLine`, `DataLine`, `IdLine`, `RetryLine`, `BlankLine` and `StepFields` |
| `Common.Parse` | src/ssec/common.py:78-90 | definition of the loop as a left fold of `Step` over the lines; pinned down by `ParseAppend`, `OneEventPerBlankLine`, `EventsAccumulate` and `ReconnectionFields`, and `ParseEvents` is proved equal to it |
| `Common.ParseAppend` | src/ssec/common.py:80 | parsing a concatenation is parsing the second part from the state the first part leaves |
| `Common.OneEventPerBlankLine` | src/ssec/common.py:80-90 | exactly one event per blank line; earlier events are kept as a prefix |
| `Common.DispatchAccumulates` | src/ssec/common.py:82-89 | a dispatch keeps every event's data a prefix of the accumulator and of the new event's data |
| `Common.StepAccumulates` | src/ssec/common.py:80-129 | every line keeps that invariant |
| `Common.EventsAccumulate` | src/ssec/common.py:78-89 | every event has a non-empty type and present data without a trailing LF, and each event's data extends the previous one's, because the accumulators are never reset |
| `Common.IgnoredLinesChangeNothing` | src/ssec/common.py:92-129 | comments, unknown fields and non-digit `retry` values can be dropped without changing the result |
| `Common.StepFields` | src/ssec/common.py:111-126 | a line sets the id exactly when it is an `id` line, and the reconnection time exactly when it is an all-digit `retry` line |
| `Common.ReconnectionFields` | src/ssec/common.py:111-126 | after a call, the id is the value of the last `id` line (empty values included), and the reconnection time is the value of the last well-formed `retry` line |
| `Common.FieldOf` | src/ssec/common.py:96-99 | the field name holds no colon; a line without a colon is all name with an empty value; otherwise the line is the name and a colon followed either by a space and the value, or by the value alone when that does not start with a space (`removeprefix(" ")`) |
| `Common.FieldLine` | src/ssec/common.py:96-99 | `name: value` with a colon-free name splits into that name and value, one leading space dropped |
| `Common.EventLine` | src/ssec/common.py:102-105 | an `event` line sets the type accumulator |
| `Common.DataLine` | src/ssec/common.py:106-110 | a `data` line appends its value and one LF to the data accumulator |
| `Common.IdLine` | src/ssec/common.py:111-118 | an `id` line sets the record's last event id |
| `Common.RetryLine` | src/ssec/common.py:119-126 | a `retry` line sets the reconnection time when its value is ASCII digits, and otherwise changes nothing |
| `Common.TrimLfRun` | src/ssec/common.py:87 | `rstrip("\n")` removes a whole run of trailing line feeds, however long, and nothing before it |
| `Common.BlankLine` | src/ssec/common.py:82-89 | a blank line dispatches the data with its whole run of trailing LFs removed (none, one or many, so also when no data line was seen), with type `message` when none was set, and writes the stripped data back |
| `Common.EveryTrailingLfStripped` | src/ssec/common.py:86-87 | `data: a`, an empty `data:` line and a blank line dispatch `a` itself: both line feeds are stripped |
| `Common.NamedEvent` | src/ssec/common.py:80-110 | `event: t`, `data: d` and a blank line give exactly one event `(t, d)` |
| `Common.DataLinesJoined` | src/ssec/common.py:106-110 | two data lines are joined with one LF |
| `Common.CommentAndId` | src/ssec/common.py:93-118 | a comment is ignored; an `id` line sets the id, and a blank line then dispatches an empty `message` |
| `Common.DataThenBlank` | src/ssec/common.py:82-110 | a data line and a blank line dispatch the accumulated data extended by the value, and write the defaulted type back |
| `Common.DataCarriesOver` | src/ssec/common.py:78-89 | two events in one call: the second event's data starts with the first's |
| `Common.Config.constructor` | src/ssec/stream.py:79-82 | the record starts with the caller's reconnect timeout, an empty id and no reconnection time |
| `Common.ParseEvents` | src/ssec/common.py:65-129 | the events yielded and the id and time written to the record are those of the fold from fresh accumulators; the reconnect timeout is untouched |
| `Stream.RequestHeaders` | src/ssec/stream.py:86-88 | every request has `Accept: text/event-stream` and `Cache-Control: no-store`; `Last-Event-ID` is present exactly when an id is held |
| `Stream.Receive` | src/ssec/stream.py:101-105 | definition of reading one body: each chunk is appended to the buffer, the complete lines are framed off and parsed by a fresh call with empty accumulators, and the tail is kept; `ReadBody` is proved equal to it, and `IdChunk`, `DataInOneChunk`, `DataAcrossChunks`, `FieldsDoNotCrossChunks`, `SplitCrLfIsTwoTerminators` and `ReceiveIgnoresRetry` pin it down |
| `Stream.ReadBody` | src/ssec/stream.py:101-105 | reading a body chunk by chunk yields the events of `Receive`, and leaves the record's fields as `Receive` says |
| `Stream.WaitingPeriod` | src/ssec/stream.py:110-112 | definition of the wait after a failure: the reconnect timeout, plus the backoff delay to the power of the counter once the counter is above 0; pinned down by `BackoffGrows` and `DefaultFailureTrace` |
| `Stream.PassOf` | src/ssec/stream.py:85-122 | definition of one loop body: the request, then a stored failure with a wait and a count, a 204 or invalid response that leaves the loop, or a validated body that clears the error, resets the counter and yields its events, with a wait and a count of 1 when the body drops; `AttemptOnce` is proved equal to it, and `PassRequests`, `PassLeaves`, `PassStores` and `PassIgnoresRetry` pin it down |
| `Stream.AttemptOnce` | src/ssec/stream.py:85-122 | one loop body: its actions and new counter, error and record are those of `PassOf`, or it leaves the loop as `PassOf` says with the record unchanged |
| `Stream.Continue` | src/ssec/stream.py:84 | definition of the loop guard: `connect_attempt < max_connect_attempts` for the synchronous loop, and `<=` as at line 178 for the asynchronous one; `BudgetGuard` reduces both to one budget |
| `Stream.Run` | src/ssec/stream.py:84-125 | definition of the whole loop: passes follow one another while the guard holds, and after it the stored failure is raised; `Supervise` is proved equal to it, and `RequestsPerAttempt`, `RejectionEndsRun`, `RaisedFailureOccurred`, `TransportFailuresExhaustBudget` and `RetryNeverRead` pin it down |
| `Stream.Supervise` | src/ssec/stream.py:77-125 | the loop's trace and ending are exactly `Run` from the initial state |
| `Stream.PassRequests` | src/ssec/stream.py:86-90 | each pass sends exactly one request, with the headers for the id held when it starts |
| `Stream.RequestsPerAttempt` | src/ssec/stream.py:84-90 | every request asks for an event stream and never sends an empty `Last-Event-ID`; at most one request per attempt, and exactly one while the run goes on |
| `Stream.PassLeaves` | src/ssec/stream.py:91-95 | leaving a pass sends only its request; a validation ending comes from that response; a raised ending is the stored failure |
| `Stream.PassStores` | src/ssec/stream.py:97-108 | a stored failure is always the failure of the attempt just made |
| `Stream.RejectionEndsRun` | src/ssec/stream.py:95 | a validation failure ends the run right after a request, with no wait after it |
| `Stream.RejectionJudgesAResponse` | src/ssec/common.py:33-39 | a validation failure is `check_response`'s verdict on one of the responses |
| `Stream.RaisedFailureOccurred` | src/ssec/stream.py:124-125 | a raised failure is the one stored at the start or a failure of one of the attempts |
| `Stream.BudgetGuard` | src/ssec/stream.py:84 | the loop guard holds exactly while the counter is below the budget |
| `Stream.TransportFailuresExhaustBudget` | src/ssec/stream.py:84-125 | when every attempt fails to connect, the run makes exactly budget-many requests, each followed by the wait for its count (`WaitingPeriod`), which grows when the backoff delay is above 1 (`BackoffGrows`), then raises the last failure (or ends silently with no budget) |
| `Stream.FailureTraceRequests` | src/ssec/stream.py:84-122 | that trace holds one request per failed attempt |
| `Stream.AsyncMakesOneMoreAttempt` | src/ssec/stream.py:178 | for a non-negative maximum, when every attempt fails to connect, the asynchronous loop makes one more request and one more wait than the synchronous one |
| `Stream.BackoffGrows` | src/ssec/stream.py:110-112 | with a backoff delay above 1, each further failure waits strictly longer |
| `Stream.StepIgnoresRetry` | src/ssec/common.py:119-126 | a parser step depends on the stored reconnection time only through that field |
| `Stream.ReceiveIgnoresRetry` | src/ssec/stream.py:101-105 | reading a body gives the same events and id whatever reconnection time is stored |
| `Stream.PassIgnoresRetry` | src/ssec/stream.py:110-112 | a pass's actions and ending do not depend on the stored reconnection time |
| `Stream.RetryNeverRead` | src/ssec/stream.py:110-122 | the whole run, every wait included, is the same whatever reconnection time `retry` fields have stored |
| `Stream.RestKeepsBoundaries` | src/ssec/stream.py:103-104 | the remainder fed back keeps the absence of other line boundaries |
| `Stream.IdChunk` | src/ssec/stream.py:102-105 | a chunk holding one `id` line sets the id and yields nothing |
| `Stream.DataInOneChunk` | src/ssec/stream.py:102-105 | a data line and a blank line in one chunk dispatch the data |
| `Stream.DataAcrossChunks` | src/ssec/stream.py:102-105 | a data line in one chunk and the blank line in the next dispatch an empty event |
| `Stream.FieldsDoNotCrossChunks` | src/ssec/stream.py:101-105 | the same text gives different events depending on where the chunk boundary falls, because accumulators start empty for every chunk |
| `Stream.SplitCrLfIsTwoTerminators` | src/ssec/stream.py:101-105 | `data: a` ended by CRLF, then a blank line, dispatches `a` when it arrives in one chunk; when the CR ends the first chunk, it completes the line at once, and the LF that opens the next chunk is a blank line of its own, so two empty events are dispatched |
| `Stream.NoContentStops` | src/ssec/stream.py:91-93 | a first 204 ends silently after one request, whenever at least one attempt is allowed |
| `Stream.NoContentRaisesStored` | src/ssec/stream.py:91-125 | a 204 after a transport failure raises that failure, with no wait after the 204 |
| `Stream.RejectedFirstResponse` | src/ssec/stream.py:95 | an invalid first response ends the run after one request, whatever later attempts would have been |
| `Stream.DefaultFailureTrace` | src/ssec/constants.py:17-23 | with the defaults the waits are 3, 5.5, 9.25 and 18.625 seconds |
| `Stream.DefaultSchedule` | src/ssec/stream.py:107-125 | with the defaults and an unreachable server: three requests with those waits, then the last failure is raised; the asynchronous loop adds a fourth |
| `Stream.DroppedAfterId` | src/ssec/stream.py:97-122 | a connection that delivers an id and then drops resets the counter, keeps the id, waits the base timeout and counts 1 |
| `Stream.ReconnectAfterConnection` | src/ssec/stream.py:84-122 | after such a connection, the next request replays `Last-Event-ID` and backoff starts over |

## Left out

- The HTTP client, session, connect timeout and request method are left out. The network is replaced by the sequence of attempt outcomes (`Stream.Attempt`), and a response is reduced to its status, content-type header, body chunks and how the body ended.
- Sleeping (`time.sleep`, `asyncio.sleep`) and the asynchronous scheduling are not performed. A wait is recorded as a `Sleep` action. Apart from the loop bound, which is modelled, the two entry points differ only in how they sleep (see the `Stream.PassOf` line below).
- The incremental UTF-8 decoder is not modelled, including the state it shares across connections. Chunks arrive as decoded text, and chunk size plays no part.
- Logging is left out: it has no effect on the results.
- Durations are exact reals, not floating point, so rounding in `reconnect_timeout + backoff_delay ** n` is not modelled.
- `Stream.PassOf` and `Stream.WaitingPeriod`: the exceptions of the wait are not modelled. `backoff_delay ** n` raises `OverflowError` once the float result overflows. `time.sleep` raises `ValueError` for a negative period, which ends the synchronous stream since it is not an `httpx` error, while `asyncio.sleep` returns at once. The model records `Sleep(p)` for every period `p` and goes on.
- Events are modelled as a trace that is produced eagerly. Generator laziness, the caller stopping early, cancellation and the release of the connection on every exit path are left out.
- `Stream.Run` ends as `Live` when the given attempts run out while the loop would still go on. The endless stream of a healthy server is not modelled.
- `Common.ExtractLines`, `Stream.ReadBody`, `Stream.AttemptOnce` and `Stream.Supervise`: `str.splitlines` also splits at VT, FF, FS, GS, RS, NEL, U+2028 and U+2029. The model frames only at CR and LF, and requires the text to hold none of the others (`SplitsOnlyAtCrLf`).
- `Common.IsAsciiDigits` and `Common.DecimalValue`: `str.isdigit` also accepts non-ASCII digits. For other scripts' decimal digits (such as U+0663) `int` gives their value, and the source stores it, while the model ignores such a `retry` line; only the record's `reconnection_time` differs, and it is never read (`Stream.RetryNeverRead`). For other digit characters, such as superscripts, `int` raises. Only ASCII digits are modelled. `int` also raises `ValueError` for a digit string longer than the interpreter's integer string conversion limit (4300 digits by default), which ends the stream; the model gives such a `retry` line its value.
- Non-`httpx` exceptions raised while streaming, other than the validation errors, are left out.
