/**
 * The connection-supervision loop shared by `stream` and `stream_async`
 * (src/ssec/stream.py). The HTTP transport is replaced by the sequence of what
 * each connection attempt produced; sleeping is recorded as an action rather
 * than performed, and body chunks arrive already decoded to text.
 */
module Stream {
  import opened Constants
  import opened Events
  import opened Common

  /** A transport-level failure (an `httpx.HTTPError`): retried with backoff. */
  datatype HttpError = HttpError(reason: string)

  /** How a validated response body ended: cleanly, or by a transport failure. */
  datatype BodyEnd = Closed | Dropped(error: HttpError)

  /** What one connection attempt produced. */
  datatype Attempt =
    | ConnectFailed(error: HttpError)
    | Response(status: int, contentType: Option<string>, chunks: seq<string>, end: BodyEnd)

  /** What the supervisor does that the outside can observe, in order. */
  datatype Action =
    | Request(headers: seq<(string, string)>)
    | Sleep(period: real)
    | Yield(event: Event)

  /**
   * How the stream ends: silently, by raising the stored transport failure, by
   * raising a validation failure, or not at all within the given attempts.
   */
  datatype Ending = Finished | Raised(error: HttpError) | Invalid(problem: ResponseError) | Live

  /** The caller's knobs. `inclusiveBound` is false for `stream` and true for `stream_async`. */
  datatype Settings = Settings(maxConnectAttempts: int, reconnectTimeout: real, backoffDelay: real, inclusiveBound: bool)

  /** The loop's state: attempt counter, stored failure and the parser-written fields of the record. */
  datatype Supervisor = Supervisor(attempt: nat, error: Option<HttpError>, lastEventId: string, reconnectionTime: Option<nat>)

  const Initial: Supervisor := Supervisor(0, None, "", None)

  /** The value of header `name`, first occurrence. */
  function Lookup(headers: seq<(string, string)>, name: string): Option<string> {
    if headers == [] then None
    else if headers[0].0 == name then Some(headers[0].1)
    else Lookup(headers[1..], name)
  }

  /** The headers of one request: Last-Event-ID is sent exactly when an id is held. */
  function RequestHeaders(lastEventId: string): (h: seq<(string, string)>)
    ensures Lookup(h, "Accept") == Some(SseContentType)
    ensures Lookup(h, "Cache-Control") == Some(SseCacheControl)
    ensures Lookup(h, LastEventIdHeader) == if lastEventId == [] then None else Some(lastEventId)
  {
    if lastEventId == [] then
      assert Lookup(Headers[1..][1..], LastEventIdHeader) == None;
      assert Lookup(Headers[1..], LastEventIdHeader) == None;
      Headers
    else
      var h := Headers + [(LastEventIdHeader, lastEventId)];
      assert h[1..][1..] == [(LastEventIdHeader, lastEventId)];
      assert Lookup(h[1..][1..], LastEventIdHeader) == Some(lastEventId);
      assert Lookup(h[1..], LastEventIdHeader) == Some(lastEventId);
      h
  }

  function Pow(b: real, n: nat): real {
    if n == 0 then 1.0 else b * Pow(b, n - 1)
  }

  /** The pause after a transport failure seen with the given counter value. */
  function WaitingPeriod(s: Settings, attempt: nat): real {
    if attempt == 0 then s.reconnectTimeout else s.reconnectTimeout + Pow(s.backoffDelay, attempt)
  }

  /** The loop guard: `<` for the synchronous supervisor, `<=` for the asynchronous one. */
  predicate Continue(s: Settings, attempt: nat) {
    if s.inclusiveBound then attempt <= s.maxConnectAttempts else attempt < s.maxConnectAttempts
  }

  /** After the loop: raise the stored failure if there is one. */
  function EndOf(error: Option<HttpError>): Ending {
    match error
    case None => Finished
    case Some(e) => Raised(e)
  }

  /** The actions that hand the events to the caller, in order. */
  function Yields(events: seq<Event>): seq<Action>
  {
    if events == [] then [] else [Yield(events[0])] + Yields(events[1..])
  }

  /** What one connection has produced after some chunks: events, line buffer, record fields. */
  datatype Received = Received(events: seq<Event>, buffer: string, lastEventId: string, reconnectionTime: Option<nat>)

  /**
   * Reading a body: each chunk is appended to the line buffer, the complete
   * lines are framed off and parsed by a fresh call of the parser, and the
   * unterminated tail is kept for the next chunk. The buffer starts empty.
   */
  function Receive(chunks: seq<string>, lastEventId: string, reconnectionTime: Option<nat>): Received
    decreases |chunks|
  {
    if chunks == [] then Received([], "", lastEventId, reconnectionTime)
    else
      var before := Receive(chunks[..|chunks| - 1], lastEventId, reconnectionTime);
      var f := Frame(before.buffer + chunks[|chunks| - 1]);
      var p := Parse(Contents(f.lines), Begin(before.lastEventId, before.reconnectionTime));
      Received(before.events + p.events, f.rest, p.lastEventId, p.reconnectionTime)
  }

  /** The outcome of one pass of the loop: either go round again from a new state, or leave it. */
  datatype Pass =
    | Again(actions: seq<Action>, next: Supervisor)
    | Leave(actions: seq<Action>, ending: Ending)

  /**
   * One pass of the loop body for one attempt: send the request; on a transport
   * failure store it, wait and count it; on 204 leave the loop; on an invalid
   * response leave with that error; otherwise clear the error, reset the counter,
   * yield the body's events, and if the body then drops, wait and count it.
   */
  function PassOf(s: Settings, attempt: Attempt, st: Supervisor): Pass {
    var request := [Request(RequestHeaders(st.lastEventId))];
    match attempt
    case ConnectFailed(e) =>
      Again(request + [Sleep(WaitingPeriod(s, st.attempt))], st.(attempt := st.attempt + 1, error := Some(e)))
    case Response(status, contentType, chunks, end) =>
      if status == StatusNoContent then Leave(request, EndOf(st.error))
      else match CheckResponse(status, contentType)
        case Some(invalid) => Leave(request, Invalid(invalid))
        case None =>
          var got := Receive(chunks, st.lastEventId, st.reconnectionTime);
          var connected := Supervisor(0, None, got.lastEventId, got.reconnectionTime);
          match end
          case Closed => Again(request + Yields(got.events), connected)
          case Dropped(e) =>
            Again(request + Yields(got.events) + [Sleep(WaitingPeriod(s, 0))], connected.(attempt := 1, error := Some(e)))
  }

  /**
   * The supervisor from attempt k on: the actions it takes and how it ends.
   * Attempts past the end of the sequence are not known, so the run stops there as Live.
   */
  function Run(s: Settings, attempts: seq<Attempt>, k: nat, st: Supervisor): (seq<Action>, Ending)
    requires k <= |attempts|
    decreases |attempts| - k
  {
    if !Continue(s, st.attempt) then ([], EndOf(st.error))
    else if k == |attempts| then ([], Live)
    else match PassOf(s, attempts[k], st)
      case Leave(actions, ending) => (actions, ending)
      case Again(actions, next) =>
        var rest := Run(s, attempts, k + 1, next);
        (actions + rest.0, rest.1)
  }

  /** Every chunk of every response splits into lines only at CR and LF. */
  predicate ChunksSplitOnlyAtCrLf(attempts: seq<Attempt>) {
    forall k :: 0 <= k < |attempts| && attempts[k].Response? ==>
      forall j :: 0 <= j < |attempts[k].chunks| ==> SplitsOnlyAtCrLf(attempts[k].chunks[j])
  }

  lemma RestKeepsBoundaries(buffer: string)
    requires SplitsOnlyAtCrLf(buffer)
    ensures SplitsOnlyAtCrLf(Frame(buffer).rest)
  {
    FrameRestIsSuffix(buffer);
    SuffixKeepsBoundaries(buffer, Frame(buffer).rest);
  }

  lemma SuffixKeepsBoundaries(buffer: string, r: string)
    requires SplitsOnlyAtCrLf(buffer) && |r| <= |buffer| && r == buffer[|buffer| - |r|..]
    ensures SplitsOnlyAtCrLf(r)
  {
    forall k | 0 <= k < |r| ensures r[k] !in OtherBoundaries {
      assert r[k] == buffer[|buffer| - |r| + k];
    }
  }

  /**
   * Reads one validated body chunk by chunk, returning the parsed events in
   * order; the record's `id`/`retry` fields are updated as the parser goes.
   */
  method ReadBody(chunks: seq<string>, config: Config) returns (events: seq<Event>)
    requires forall j :: 0 <= j < |chunks| ==> SplitsOnlyAtCrLf(chunks[j])
    modifies config
    ensures var got := Receive(chunks, old(config.lastEventId), old(config.reconnectionTime));
      events == got.events && config.lastEventId == got.lastEventId && config.reconnectionTime == got.reconnectionTime
    ensures config.reconnectTimeout == old(config.reconnectTimeout)
  {
    var buffer := "";
    events := [];
    for j := 0 to |chunks|
      invariant Receive(chunks[..j], old(config.lastEventId), old(config.reconnectionTime))
        == Received(events, buffer, config.lastEventId, config.reconnectionTime)
      invariant SplitsOnlyAtCrLf(buffer)
      invariant config.reconnectTimeout == old(config.reconnectTimeout)
    {
      assert chunks[..j + 1][..j] == chunks[..j];
      buffer := buffer + chunks[j];
      RestKeepsBoundaries(buffer);
      var lines;
      lines, buffer := ExtractLines(buffer);
      var parsed := ParseEvents(lines, config);
      events := events + parsed;
    }
    assert chunks[..|chunks|] == chunks;
  }

  lemma AppendAssoc(a: seq<Action>, b: seq<Action>, c: seq<Action>)
    ensures a + (b + c) == (a + b) + c
  {
  }

  /**
   * One pass of the loop body: send the request with the held id; on a
   * transport failure store it, wait and count it; on 204 or an invalid
   * response leave the loop; otherwise clear the error, reset the counter and
   * stream the body, and if the body drops, store the failure, wait and count
   * it. `leave` holds the ending when the pass leaves the loop.
   */
  method AttemptOnce(s: Settings, attempt: Attempt, config: Config, connectAttempt: nat, error: Option<HttpError>)
    returns (actions: seq<Action>, leave: Option<Ending>, nextAttempt: nat, nextError: Option<HttpError>)
    requires attempt.Response? ==> forall j :: 0 <= j < |attempt.chunks| ==> SplitsOnlyAtCrLf(attempt.chunks[j])
    requires config.reconnectTimeout == s.reconnectTimeout
    modifies config
    ensures config.reconnectTimeout == s.reconnectTimeout
    ensures leave.Some? ==> config.lastEventId == old(config.lastEventId) && config.reconnectionTime == old(config.reconnectionTime)
    ensures var pass := PassOf(s, attempt, Supervisor(connectAttempt, error, old(config.lastEventId), old(config.reconnectionTime)));
      match leave
      case Some(ending) => pass == Leave(actions, ending)
      case None => pass == Again(actions, Supervisor(nextAttempt, nextError, config.lastEventId, config.reconnectionTime))
  {
    ghost var st := Supervisor(connectAttempt, error, config.lastEventId, config.reconnectionTime);
    var headers := Headers;
    if config.lastEventId != [] {
      headers := headers + [(LastEventIdHeader, config.lastEventId)];
    }
    assert headers == RequestHeaders(st.lastEventId);
    actions := [Request(headers)];
    leave, nextAttempt, nextError := None, connectAttempt, error;
    var failure: Option<HttpError> := None;
    match attempt {
      case ConnectFailed(e) =>
        FailurePass(s, e, st);
        failure := Some(e);
      case Response(status, contentType, chunks, end) =>
        if status == StatusNoContent {
          NoContentPass(s, contentType, chunks, end, st);
          leave := Some(EndOf(error));
          return;
        }
        var invalid := CheckResponse(status, contentType);
        if invalid.Some? {
          InvalidPass(s, status, contentType, chunks, end, st);
          leave := Some(Invalid(invalid.value));
          return;
        }
        ConnectedPass(s, status, contentType, chunks, end, st);
        nextError := None;
        nextAttempt := 0;
        var events := ReadBody(chunks, config);
        actions := actions + Yields(events);
        if end.Dropped? {
          failure := Some(end.error);
        }
    }
    if failure.Some? {
      nextError := failure;
      var waitingPeriod := config.reconnectTimeout;
      if nextAttempt > 0 {
        waitingPeriod := waitingPeriod + Pow(s.backoffDelay, nextAttempt);
      }
      assert waitingPeriod == WaitingPeriod(s, nextAttempt);
      actions := actions + [Sleep(waitingPeriod)];
      nextAttempt := nextAttempt + 1;
    }
  }

  /** A 204 response: the pass leaves after its request, and the stored failure decides the ending. */
  lemma NoContentPass(s: Settings, contentType: Option<string>, chunks: seq<string>, end: BodyEnd, st: Supervisor)
    ensures PassOf(s, Response(StatusNoContent, contentType, chunks, end), st)
      == Leave([Request(RequestHeaders(st.lastEventId))], EndOf(st.error))
  {
  }

  /** A response that fails validation: the pass leaves after its request with the validation error. */
  lemma InvalidPass(s: Settings, status: int, contentType: Option<string>, chunks: seq<string>, end: BodyEnd, st: Supervisor)
    requires status != StatusNoContent && CheckResponse(status, contentType).Some?
    ensures PassOf(s, Response(status, contentType, chunks, end), st)
      == Leave([Request(RequestHeaders(st.lastEventId))], Invalid(CheckResponse(status, contentType).value))
  {
  }

  /**
   * A validated response: the pass yields the body's events, clears the stored
   * failure and resets the counter; a dropped body is then stored, waited for
   * with the base timeout and counted.
   */
  lemma ConnectedPass(s: Settings, status: int, contentType: Option<string>, chunks: seq<string>, end: BodyEnd, st: Supervisor)
    requires status != StatusNoContent && CheckResponse(status, contentType).None?
    ensures var got := Receive(chunks, st.lastEventId, st.reconnectionTime);
      var request := [Request(RequestHeaders(st.lastEventId))];
      PassOf(s, Response(status, contentType, chunks, end), st)
        == if end.Closed? then Again(request + Yields(got.events), Supervisor(0, None, got.lastEventId, got.reconnectionTime))
           else Again(request + Yields(got.events) + [Sleep(WaitingPeriod(s, 0))],
                      Supervisor(1, Some(end.error), got.lastEventId, got.reconnectionTime))
  {
  }

  /** Run where the loop guard fails: nothing more happens and the stored failure decides the ending. */
  lemma RunStop(s: Settings, attempts: seq<Attempt>, k: nat, st: Supervisor)
    requires k <= |attempts| && !Continue(s, st.attempt)
    ensures Run(s, attempts, k, st) == ([], EndOf(st.error))
  {
  }

  /** Run where the attempts run out while the guard still holds. */
  lemma RunLive(s: Settings, attempts: seq<Attempt>, st: Supervisor)
    requires Continue(s, st.attempt)
    ensures Run(s, attempts, |attempts|, st) == ([], Live)
  {
  }

  /** Run after a pass that goes round again: that pass's actions, then the run from the next state. */
  lemma RunAgain(s: Settings, attempts: seq<Attempt>, k: nat, st: Supervisor, actions: seq<Action>, next: Supervisor)
    requires k < |attempts| && Continue(s, st.attempt) && PassOf(s, attempts[k], st) == Again(actions, next)
    ensures Run(s, attempts, k, st).0 == actions + Run(s, attempts, k + 1, next).0
    ensures Run(s, attempts, k, st).1 == Run(s, attempts, k + 1, next).1
  {
  }

  /** The loop's account of the run survives a pass that goes round again. */
  lemma Advance(s: Settings, attempts: seq<Attempt>, k: nat, st: Supervisor, actions: seq<Action>, next: Supervisor,
                trace: seq<Action>, whole: (seq<Action>, Ending))
    requires k < |attempts| && Continue(s, st.attempt) && PassOf(s, attempts[k], st) == Again(actions, next)
    requires whole.0 == trace + Run(s, attempts, k, st).0 && whole.1 == Run(s, attempts, k, st).1
    ensures whole.0 == (trace + actions) + Run(s, attempts, k + 1, next).0 && whole.1 == Run(s, attempts, k + 1, next).1
  {
    RunAgain(s, attempts, k, st, actions, next);
    AppendAssoc(trace, actions, Run(s, attempts, k + 1, next).0);
  }

  /** Run after a pass that leaves the loop: that pass's actions and ending. */
  lemma RunLeave(s: Settings, attempts: seq<Attempt>, k: nat, st: Supervisor, actions: seq<Action>, ending: Ending)
    requires k < |attempts| && Continue(s, st.attempt) && PassOf(s, attempts[k], st) == Leave(actions, ending)
    ensures Run(s, attempts, k, st) == (actions, ending)
  {
  }

  /**
   * The supervisor loop: make attempts while the guard allows, leaving on 204
   * or an invalid response. After the loop the stored failure, if any, is raised.
   */
  method Supervise(s: Settings, attempts: seq<Attempt>) returns (trace: seq<Action>, ending: Ending)
    requires ChunksSplitOnlyAtCrLf(attempts)
    ensures trace == Run(s, attempts, 0, Initial).0 && ending == Run(s, attempts, 0, Initial).1
  {
    var config := new Config(s.reconnectTimeout);
    var error: Option<HttpError> := None;
    var connectAttempt: nat := 0;
    var k := 0;
    trace := [];
    ghost var st := Initial;
    ghost var whole := Run(s, attempts, 0, Initial);
    while if s.inclusiveBound then connectAttempt <= s.maxConnectAttempts else connectAttempt < s.maxConnectAttempts
      invariant k <= |attempts|
      invariant config.reconnectTimeout == s.reconnectTimeout
      invariant st == Supervisor(connectAttempt, error, config.lastEventId, config.reconnectionTime)
      invariant whole.0 == trace + Run(s, attempts, k, st).0
      invariant whole.1 == Run(s, attempts, k, st).1
      decreases |attempts| - k
    {
      if k == |attempts| {
        RunLive(s, attempts, st);
        ending := Live;
        return;
      }
      var actions, leave;
      actions, leave, connectAttempt, error := AttemptOnce(s, attempts[k], config, connectAttempt, error);
      if leave.Some? {
        RunLeave(s, attempts, k, st, actions, leave.value);
        trace := trace + actions;
        ending := leave.value;
        return;
      }
      ghost var next := Supervisor(connectAttempt, error, config.lastEventId, config.reconnectionTime);
      Advance(s, attempts, k, st, actions, next, trace, whole);
      trace := trace + actions;
      k, st := k + 1, next;
    }
    RunStop(s, attempts, k, st);
    ending := EndOf(error);
  }

  // ---------------------------------------------------------------------
  // Requests
  // ---------------------------------------------------------------------

  /** The headers of the requests in a trace, in order. */
  function Requests(trace: seq<Action>): seq<seq<(string, string)>> {
    if trace == [] then []
    else (if trace[0].Request? then [trace[0].headers] else []) + Requests(trace[1..])
  }

  lemma {:induction false} RequestsAppend(a: seq<Action>, b: seq<Action>)
    ensures Requests(a + b) == Requests(a) + Requests(b)
    decreases |a|
  {
    if a != [] {
      assert (a + b)[0] == a[0];
      assert (a + b)[1..] == a[1..] + b;
      RequestsAppend(a[1..], b);
    } else {
      assert a + b == b;
    }
  }

  lemma {:induction false} YieldsRequestNothing(events: seq<Event>)
    ensures Requests(Yields(events)) == []
    decreases |events|
  {
    if events != [] {
      YieldsRequestNothing(events[1..]);
    }
  }

  /** One pass sends exactly one request, with the headers for the id held at its start. */
  lemma PassRequests(s: Settings, attempt: Attempt, st: Supervisor)
    ensures Requests(PassOf(s, attempt, st).actions) == [RequestHeaders(st.lastEventId)]
  {
    var request := [Request(RequestHeaders(st.lastEventId))];
    assert Requests(request) == [RequestHeaders(st.lastEventId)];
    match attempt
    case ConnectFailed(e) =>
      RequestsAppend(request, [Sleep(WaitingPeriod(s, st.attempt))]);
    case Response(status, contentType, chunks, end) =>
      if status != StatusNoContent && CheckResponse(status, contentType).None? {
        var got := Receive(chunks, st.lastEventId, st.reconnectionTime);
        YieldsRequestNothing(got.events);
        RequestsAppend(request, Yields(got.events));
        RequestsAppend(request + Yields(got.events), [Sleep(WaitingPeriod(s, 0))]);
      }
  }

  /** The headers every request must carry; an empty Last-Event-ID is never sent. */
  predicate EventStreamRequest(h: seq<(string, string)>) {
    Lookup(h, "Accept") == Some(SseContentType)
    && Lookup(h, "Cache-Control") == Some(SseCacheControl)
    && Lookup(h, LastEventIdHeader) != Some([])
  }

  /**
   * Every request asks for an event stream, forbids caching, and carries a
   * Last-Event-ID header only when a non-empty id is held. Each attempt
   * costs at most one request, and exactly one while the run goes on.
   */
  lemma {:induction false} RequestsPerAttempt(s: Settings, attempts: seq<Attempt>, k: nat, st: Supervisor)
    requires k <= |attempts|
    ensures var r := Run(s, attempts, k, st);
      (forall h :: h in Requests(r.0) ==> EventStreamRequest(h))
      && |Requests(r.0)| <= |attempts| - k
      && (r.1 == Live ==> |Requests(r.0)| == |attempts| - k)
    decreases |attempts| - k
  {
    if !Continue(s, st.attempt) {
      RunStop(s, attempts, k, st);
    } else if k == |attempts| {
      RunLive(s, attempts, st);
    } else {
      PassRequests(s, attempts[k], st);
      match PassOf(s, attempts[k], st)
      case Leave(actions, ending) =>
        RunLeave(s, attempts, k, st, actions, ending);
        PassLeaves(s, attempts[k], st);
      case Again(actions, next) =>
        RunAgain(s, attempts, k, st, actions, next);
        RequestsPerAttempt(s, attempts, k + 1, next);
        RequestsAppend(actions, Run(s, attempts, k + 1, next).0);
    }
  }

  // ---------------------------------------------------------------------
  // How a run ends
  // ---------------------------------------------------------------------

  /** The attempt failed with `e`: it could not connect, or its validated body dropped. */
  predicate FailedWith(attempt: Attempt, e: HttpError) {
    attempt == ConnectFailed(e) || (attempt.Response? && attempt.end == Dropped(e))
  }

  /**
   * A pass that leaves the loop sends its request and nothing else; it leaves
   * with a validation failure only for a response that failed validation, and
   * raises only the failure stored before it.
   */
  lemma PassLeaves(s: Settings, attempt: Attempt, st: Supervisor)
    requires PassOf(s, attempt, st).Leave?
    ensures PassOf(s, attempt, st).actions == [Request(RequestHeaders(st.lastEventId))]
    ensures var e := PassOf(s, attempt, st).ending;
      (e.Invalid? ==> attempt.Response? && CheckResponse(attempt.status, attempt.contentType) == Some(e.problem))
      && (e.Raised? ==> st.error == Some(e.error))
      && e != Live
  {
  }

  /** A pass that goes round again stores a failure only when its attempt failed with it. */
  lemma PassStores(s: Settings, attempt: Attempt, st: Supervisor)
    requires PassOf(s, attempt, st).Again?
    ensures PassOf(s, attempt, st).next.error.Some? ==> FailedWith(attempt, PassOf(s, attempt, st).next.error.value)
  {
  }

  /** The last action of a nonempty trace is a request, and stays last when actions are put before it. */
  lemma EndsWithRequestAfter(actions: seq<Action>, rest: seq<Action>)
    requires rest != [] && rest[|rest| - 1].Request?
    ensures (actions + rest)[|actions + rest| - 1] == rest[|rest| - 1]
  {
  }

  /** A validation failure ends the run right after its request, with no wait. */
  lemma {:induction false} RejectionEndsRun(s: Settings, attempts: seq<Attempt>, k: nat, st: Supervisor)
    requires k <= |attempts|
    ensures var r := Run(s, attempts, k, st);
      r.1.Invalid? ==> r.0 != [] && r.0[|r.0| - 1].Request?
    decreases |attempts| - k
  {
    if !Continue(s, st.attempt) {
      RunStop(s, attempts, k, st);
    } else if k == |attempts| {
      RunLive(s, attempts, st);
    } else {
      match PassOf(s, attempts[k], st)
      case Leave(actions, ending) =>
        RunLeave(s, attempts, k, st, actions, ending);
        PassLeaves(s, attempts[k], st);
      case Again(actions, next) =>
        RunAgain(s, attempts, k, st, actions, next);
        RejectionEndsRun(s, attempts, k + 1, next);
        var rest := Run(s, attempts, k + 1, next);
        if rest.1.Invalid? {
          EndsWithRequestAfter(actions, rest.0);
        }
    }
  }

  /** A validation failure is the verdict on one of the responses. */
  lemma {:induction false} RejectionJudgesAResponse(s: Settings, attempts: seq<Attempt>, k: nat, st: Supervisor)
    requires k <= |attempts|
    ensures var r := Run(s, attempts, k, st);
      r.1.Invalid? ==>
        exists j :: k <= j < |attempts| && attempts[j].Response?
          && CheckResponse(attempts[j].status, attempts[j].contentType) == Some(r.1.problem)
    decreases |attempts| - k
  {
    if !Continue(s, st.attempt) {
      RunStop(s, attempts, k, st);
    } else if k == |attempts| {
      RunLive(s, attempts, st);
    } else {
      match PassOf(s, attempts[k], st)
      case Leave(actions, ending) =>
        RunLeave(s, attempts, k, st, actions, ending);
        PassLeaves(s, attempts[k], st);
      case Again(actions, next) =>
        RunAgain(s, attempts, k, st, actions, next);
        RejectionJudgesAResponse(s, attempts, k + 1, next);
    }
  }

  /** A raised transport failure is the one stored at the start or a failure of one of the attempts. */
  lemma {:induction false} RaisedFailureOccurred(s: Settings, attempts: seq<Attempt>, k: nat, st: Supervisor)
    requires k <= |attempts|
    ensures var r := Run(s, attempts, k, st);
      r.1.Raised? ==> st.error == Some(r.1.error) || exists j :: k <= j < |attempts| && FailedWith(attempts[j], r.1.error)
    decreases |attempts| - k
  {
    if !Continue(s, st.attempt) {
      RunStop(s, attempts, k, st);
    } else if k == |attempts| {
      RunLive(s, attempts, st);
    } else {
      match PassOf(s, attempts[k], st)
      case Leave(actions, ending) =>
        RunLeave(s, attempts, k, st, actions, ending);
        PassLeaves(s, attempts[k], st);
      case Again(actions, next) =>
        RunAgain(s, attempts, k, st, actions, next);
        PassStores(s, attempts[k], st);
        RaisedFailureOccurred(s, attempts, k + 1, next);
    }
  }

  // ---------------------------------------------------------------------
  // The attempt budget
  // ---------------------------------------------------------------------

  /** How many consecutive transport failures the loop guard lets through. */
  function Budget(s: Settings): nat {
    var b := if s.inclusiveBound then s.maxConnectAttempts + 1 else s.maxConnectAttempts;
    if b < 0 then 0 else b
  }

  lemma BudgetGuard(s: Settings, attempt: nat)
    ensures Continue(s, attempt) <==> attempt < Budget(s)
  {
  }

  /**
   * Attempts `from` to `to - 1` all failing to connect: each is a request without
   * an id followed by the wait for its count (`WaitingPeriod`), which grows when
   * the backoff delay is above 1 (`BackoffGrows`).
   */
  function FailureTrace(s: Settings, from: nat, to: nat): seq<Action>
    decreases (to as int) - from
  {
    if to <= from then [] else [Request(Headers), Sleep(WaitingPeriod(s, from))] + FailureTrace(s, from + 1, to)
  }

  predicate AllConnectFailed(attempts: seq<Attempt>) {
    forall k :: 0 <= k < |attempts| ==> attempts[k].ConnectFailed?
  }

  /** How a run of nothing but transport failures ends once the budget is spent. */
  function Exhausted(s: Settings, attempts: seq<Attempt>): Ending
    requires AllConnectFailed(attempts) && Budget(s) <= |attempts|
  {
    if Budget(s) == 0 then Finished else Raised(attempts[Budget(s) - 1].error)
  }

  /** A pass over a transport failure: the request, the wait for the current count, and the count raised by one. */
  lemma FailurePass(s: Settings, e: HttpError, st: Supervisor)
    ensures PassOf(s, ConnectFailed(e), st)
      == Again([Request(RequestHeaders(st.lastEventId)), Sleep(WaitingPeriod(s, st.attempt))], st.(attempt := st.attempt + 1, error := Some(e)))
  {
  }

  lemma {:induction false} FailuresFrom(s: Settings, attempts: seq<Attempt>, k: nat)
    requires AllConnectFailed(attempts) && k <= Budget(s) <= |attempts|
    ensures Run(s, attempts, k, Supervisor(k, if k == 0 then None else Some(attempts[k - 1].error), "", None))
      == (FailureTrace(s, k, Budget(s)), Exhausted(s, attempts))
    decreases Budget(s) - k
  {
    var st := Supervisor(k, if k == 0 then None else Some(attempts[k - 1].error), "", None);
    BudgetGuard(s, k);
    if k == Budget(s) {
      RunStop(s, attempts, k, st);
    } else {
      var next := Supervisor(k + 1, Some(attempts[k].error), "", None);
      var actions := [Request(Headers), Sleep(WaitingPeriod(s, k))];
      FailurePass(s, attempts[k].error, st);
      RunAgain(s, attempts, k, st, actions, next);
      FailuresFrom(s, attempts, k + 1);
    }
  }

  /**
   * When every attempt fails to connect, the supervisor makes exactly Budget(s)
   * attempts, waiting after each, and then raises the last failure; with no
   * budget at all it makes no request and ends silently.
   */
  lemma TransportFailuresExhaustBudget(s: Settings, attempts: seq<Attempt>)
    requires AllConnectFailed(attempts) && Budget(s) <= |attempts|
    ensures Run(s, attempts, 0, Initial) == (FailureTrace(s, 0, Budget(s)), Exhausted(s, attempts))
    ensures |Requests(FailureTrace(s, 0, Budget(s)))| == Budget(s)
  {
    FailuresFrom(s, attempts, 0);
    FailureTraceRequests(s, 0, Budget(s));
  }

  lemma {:induction false} FailureTraceRequests(s: Settings, from: nat, to: nat)
    requires from <= to
    ensures |Requests(FailureTrace(s, from, to))| == to - from
    decreases (to as int) - from
  {
    if from < to {
      var head := [Request(Headers), Sleep(WaitingPeriod(s, from))];
      FailureTraceRequests(s, from + 1, to);
      RequestsAppend(head, FailureTrace(s, from + 1, to));
      assert Requests(head) == [Headers];
    }
  }

  lemma {:induction false} FailureTraceSnoc(s: Settings, from: nat, to: nat)
    requires from <= to
    ensures FailureTrace(s, from, to + 1) == FailureTrace(s, from, to) + [Request(Headers), Sleep(WaitingPeriod(s, to))]
    decreases (to as int) - from
  {
    if from < to {
      FailureTraceSnoc(s, from + 1, to);
    }
  }

  lemma {:induction false} FailureTraceTiming(s: Settings, t: Settings, from: nat, to: nat)
    requires s.reconnectTimeout == t.reconnectTimeout && s.backoffDelay == t.backoffDelay
    ensures FailureTrace(s, from, to) == FailureTrace(t, from, to)
    decreases (to as int) - from
  {
    if from < to {
      FailureTraceTiming(s, t, from + 1, to);
    }
  }

  /**
   * For a non-negative maximum, the two entry points differ by one attempt:
   * when every attempt fails to connect, the asynchronous supervisor, whose
   * guard is `<=`, makes one more request and one more wait before giving up.
   */
  lemma AsyncMakesOneMoreAttempt(s: Settings)
    requires s.maxConnectAttempts >= 0
    ensures Budget(s.(inclusiveBound := true)) == Budget(s.(inclusiveBound := false)) + 1
    ensures FailureTrace(s.(inclusiveBound := true), 0, Budget(s.(inclusiveBound := true)))
      == FailureTrace(s.(inclusiveBound := false), 0, Budget(s.(inclusiveBound := false)))
         + [Request(Headers), Sleep(WaitingPeriod(s, s.maxConnectAttempts))]
  {
    var m := s.maxConnectAttempts;
    FailureTraceTiming(s.(inclusiveBound := true), s, 0, m + 1);
    FailureTraceTiming(s.(inclusiveBound := false), s, 0, m);
    FailureTraceSnoc(s, 0, m);
  }

  // ---------------------------------------------------------------------
  // Waiting periods
  // ---------------------------------------------------------------------

  lemma {:induction false} PowAtLeastOne(b: real, n: nat)
    requires b >= 1.0
    ensures Pow(b, n) >= 1.0
  {
    if n > 0 {
      PowAtLeastOne(b, n - 1);
      assert b * Pow(b, n - 1) >= 1.0 * Pow(b, n - 1);
    }
  }

  /** With a backoff factor above one, each further failure waits strictly longer than the one before. */
  lemma BackoffGrows(s: Settings, attempt: nat)
    requires s.backoffDelay > 1.0
    ensures WaitingPeriod(s, attempt) < WaitingPeriod(s, attempt + 1)
  {
    PowAtLeastOne(s.backoffDelay, attempt);
    assert s.backoffDelay * Pow(s.backoffDelay, attempt) > 1.0 * Pow(s.backoffDelay, attempt);
  }

  /** Two supervisor states that differ at most in the stored reconnection time. */
  predicate SameButRetry(a: Supervisor, b: Supervisor) {
    a.(reconnectionTime := None) == b.(reconnectionTime := None)
  }

  /** One parser step depends on the stored reconnection time only through that field. */
  lemma StepIgnoresRetry(a: Parsed, b: Parsed, line: string)
    requires a.(reconnectionTime := None) == b.(reconnectionTime := None)
    ensures Step(a, line).(reconnectionTime := None) == Step(b, line).(reconnectionTime := None)
  {
    if line != [] && line[0] != Delimiter {
      var f := FieldOf(line);
      if f.0 == "event" {
        assert Step(a, line) == a.(eventType := f.1) && Step(b, line) == b.(eventType := f.1);
      } else if f.0 == "data" {
        assert Step(a, line) == a.(eventData := a.eventData + f.1 + "\n") && Step(b, line) == b.(eventData := b.eventData + f.1 + "\n");
      } else if f.0 == "id" {
        assert Step(a, line) == a.(lastEventId := f.1) && Step(b, line) == b.(lastEventId := f.1);
      } else {
        assert Step(a, line).(reconnectionTime := None) == a.(reconnectionTime := None);
        assert Step(b, line).(reconnectionTime := None) == b.(reconnectionTime := None);
      }
    }
  }

  lemma {:induction false} ParseIgnoresRetry(lines: seq<string>, p: Parsed, r: Option<nat>)
    ensures Parse(lines, p.(reconnectionTime := r)).(reconnectionTime := None) == Parse(lines, p).(reconnectionTime := None)
    decreases |lines|
  {
    if lines != [] {
      var init, last := lines[..|lines| - 1], lines[|lines| - 1];
      assert lines == init + [last];
      ParseIgnoresRetry(init, p, r);
      ParseSnoc(init, last, p);
      ParseSnoc(init, last, p.(reconnectionTime := r));
      StepIgnoresRetry(Parse(init, p.(reconnectionTime := r)), Parse(init, p), last);
    }
  }

  lemma {:induction false} ReceiveIgnoresRetry(chunks: seq<string>, id: string, r: Option<nat>, r': Option<nat>)
    ensures Receive(chunks, id, r).(reconnectionTime := None) == Receive(chunks, id, r').(reconnectionTime := None)
    decreases |chunks|
  {
    if chunks != [] {
      var init := chunks[..|chunks| - 1];
      ReceiveIgnoresRetry(init, id, r, r');
      var b := Receive(init, id, r);
      var b' := Receive(init, id, r');
      var f := Frame(b.buffer + chunks[|chunks| - 1]);
      ParseIgnoresRetry(Contents(f.lines), Begin(b'.lastEventId, b'.reconnectionTime), b.reconnectionTime);
    }
  }

  lemma PassIgnoresRetry(s: Settings, attempt: Attempt, st: Supervisor, st': Supervisor)
    requires SameButRetry(st, st')
    ensures PassOf(s, attempt, st).Leave? == PassOf(s, attempt, st').Leave?
    ensures PassOf(s, attempt, st).actions == PassOf(s, attempt, st').actions
    ensures PassOf(s, attempt, st).Leave? ==> PassOf(s, attempt, st).ending == PassOf(s, attempt, st').ending
    ensures PassOf(s, attempt, st).Again? ==> SameButRetry(PassOf(s, attempt, st).next, PassOf(s, attempt, st').next)
  {
    if attempt.Response? {
      ReceiveIgnoresRetry(attempt.chunks, st.lastEventId, st.reconnectionTime, st'.reconnectionTime);
    }
  }

  /**
   * The reconnection time that `retry` fields store is never read: the whole
   * run, every wait included, is the same whatever value is stored. Only the
   * configured reconnect timeout and backoff set the waits.
   */
  lemma {:induction false} RetryNeverRead(s: Settings, attempts: seq<Attempt>, k: nat, st: Supervisor, st': Supervisor)
    requires k <= |attempts| && SameButRetry(st, st')
    ensures Run(s, attempts, k, st) == Run(s, attempts, k, st')
    decreases |attempts| - k
  {
    if !Continue(s, st.attempt) {
      RunStop(s, attempts, k, st);
      RunStop(s, attempts, k, st');
    } else if k == |attempts| {
      RunLive(s, attempts, st);
      RunLive(s, attempts, st');
    } else {
      PassIgnoresRetry(s, attempts[k], st, st');
      var pass, pass' := PassOf(s, attempts[k], st), PassOf(s, attempts[k], st');
      if pass.Leave? {
        RunLeave(s, attempts, k, st, pass.actions, pass.ending);
        RunLeave(s, attempts, k, st', pass'.actions, pass'.ending);
      } else {
        RunAgain(s, attempts, k, st, pass.actions, pass.next);
        RunAgain(s, attempts, k, st', pass'.actions, pass'.next);
        RetryNeverRead(s, attempts, k + 1, pass.next, pass'.next);
      }
    }
  }

  // ---------------------------------------------------------------------
  // Worked runs
  // ---------------------------------------------------------------------

  lemma CleanField(name: string, value: string)
    requires Clean(name) && Clean(value)
    ensures Clean(name + ": " + value)
  {
    var c := name + ": " + value;
    forall k | 0 <= k < |c| ensures c[k] !in LineBreaks {
      if k >= |name| + 2 { assert c[k] == value[k - |name| - 2]; }
      else if k < |name| { assert c[k] == name[k]; }
    }
  }

  lemma FrameBlank()
    ensures Frame("\n") == Framing([Line("", LF)], "")
  {
    FrameCons("", LF, "");
    assert "" + TerminatorText(LF) + "" == "\n";
  }

  /** A clean text and a line feed frame as one complete line. */
  lemma FrameOneLine(c: string)
    requires Clean(c)
    ensures Frame(c + "\n") == Framing([Line(c, LF)], "")
    ensures Contents(Frame(c + "\n").lines) == [c]
  {
    FrameCons(c, LF, "");
    assert c + "\n" == c + TerminatorText(LF) + "";
    assert Contents([Line(c, LF)]) == [c];
  }

  /** A chunk that is one complete `id` line sets the id and yields nothing. */
  lemma IdChunk(v: string, id: string, rt: Option<nat>)
    requires Clean(v)
    ensures Receive(["id: " + v + "\n"], id, rt) == Received([], "", v, rt)
  {
    var c := "id: " + v;
    assert Frame(c + "\n") == Framing([Line(c, LF)], "") && Contents([Line(c, LF)]) == [c] by {
      CleanField("id", v);
      FrameOneLine(c);
    }
    assert Parse([c], Begin(id, rt)) == Begin(id, rt).(lastEventId := v) by {
      ParseOne(c, Begin(id, rt));
      IdLine(Begin(id, rt), v);
    }
    ReceiveOne(c + "\n", id, rt);
  }

  /** Receiving one more chunk: frame it after the kept tail and parse the complete lines with fresh accumulators. */
  lemma ReceiveSnoc(chunks: seq<string>, chunk: string, id: string, rt: Option<nat>)
    ensures var before := Receive(chunks, id, rt);
      var f := Frame(before.buffer + chunk);
      var p := Parse(Contents(f.lines), Begin(before.lastEventId, before.reconnectionTime));
      Receive(chunks + [chunk], id, rt) == Received(before.events + p.events, f.rest, p.lastEventId, p.reconnectionTime)
  {
    assert (chunks + [chunk])[..|chunks|] == chunks;
  }

  /** Receiving a single chunk: frame it and parse its complete lines from the given id and time. */
  lemma ReceiveOne(chunk: string, id: string, rt: Option<nat>)
    ensures var f := Frame(chunk);
      var p := Parse(Contents(f.lines), Begin(id, rt));
      Receive([chunk], id, rt) == Received(p.events, f.rest, p.lastEventId, p.reconnectionTime)
  {
    assert [chunk][..0] == [];
    assert "" + chunk == chunk;
    assert [] + Parse(Contents(Frame(chunk).lines), Begin(id, rt)).events == Parse(Contents(Frame(chunk).lines), Begin(id, rt)).events;
  }

  /** A clean text followed by two line feeds frames as that line and a blank line. */
  lemma FrameLineAndBlank(c: string)
    requires Clean(c)
    ensures Frame(c + "\n\n") == Framing([Line(c, LF), Line("", LF)], "")
  {
    assert c + "\n\n" == c + TerminatorText(LF) + "\n";
    assert [Line(c, LF)] + [Line("", LF)] == [Line(c, LF), Line("", LF)];
    FrameBlank();
    FrameCons(c, LF, "\n");
  }

  /** A data line and a blank line in one chunk dispatch the data. */
  lemma DataInOneChunk(a: string, id: string, rt: Option<nat>)
    requires Clean(a)
    ensures Receive(["data: " + a + "\n\n"], id, rt).events == [Event(DefaultType, Some(a))]
  {
    assert NoTrailingLf(a) by {
      if a != [] { assert a[|a| - 1] !in LineBreaks; }
    }
    var c := "data: " + a;
    var lines := [Line(c, LF), Line("", LF)];
    assert Frame(c + "\n\n").lines == lines by {
      CleanField("data", a);
      FrameLineAndBlank(c);
    }
    assert Contents(lines) == [c, ""];
    assert Parse([c, ""], Begin(id, rt)).events == [Event(DefaultType, Some(a))] by {
      assert "" + a == a;
      DataThenBlank(Begin(id, rt), a);
    }
    ReceiveOne(c + "\n\n", id, rt);
  }

  /** A chunk that is one complete data line dispatches nothing and leaves no tail. */
  lemma DataLineChunk(a: string, id: string, rt: Option<nat>)
    requires Clean(a)
    ensures Receive(["data: " + a + "\n"], id, rt) == Received([], "", id, rt)
  {
    var c := "data: " + a;
    var p0 := Begin(id, rt);
    assert Frame(c + "\n") == Framing([Line(c, LF)], "") && Contents([Line(c, LF)]) == [c] by {
      CleanField("data", a);
      FrameOneLine(c);
    }
    assert Parse([c], p0) == p0.(eventData := "" + a + "\n") by {
      ParseOne(c, p0);
      DataLine(p0, a);
    }
    ReceiveOne(c + "\n", id, rt);
  }

  /** A data line in one chunk and the blank line in the next dispatch an empty event. */
  lemma DataAcrossChunks(a: string, id: string, rt: Option<nat>)
    requires Clean(a)
    ensures Receive(["data: " + a + "\n", "\n"], id, rt).events == [Event(DefaultType, Some(""))]
  {
    var c := "data: " + a;
    var p0 := Begin(id, rt);
    assert [c + "\n"] + ["\n"] == [c + "\n", "\n"];
    assert Frame("" + "\n") == Framing([Line("", LF)], "") && Contents([Line("", LF)]) == [""] by {
      assert "" + "\n" == "\n";
      FrameOneLine("");
    }
    assert Parse([""], p0).events == [Event(DefaultType, Some(""))] by {
      ParseOne("", p0);
    }
    DataLineChunk(a, id, rt);
    ReceiveSnoc([c + "\n"], "\n", id, rt);
  }

  /**
   * Every chunk is parsed with fresh accumulators: a data line and the blank
   * line that dispatches it give the data when they arrive in one chunk, but
   * an empty event when the blank line arrives in the next chunk.
   */
  lemma FieldsDoNotCrossChunks(a: string, id: string, rt: Option<nat>)
    requires Clean(a)
    ensures Receive(["data: " + a + "\n\n"], id, rt).events == [Event(DefaultType, Some(a))]
    ensures Receive(["data: " + a + "\n", "\n"], id, rt).events == [Event(DefaultType, Some(""))]
  {
    DataInOneChunk(a, id, rt);
    DataAcrossChunks(a, id, rt);
  }

  /** A chunk that is one data line ended by a lone CR dispatches nothing and leaves no tail: the CR already completes the line. */
  lemma DataLineCrChunk(a: string, id: string, rt: Option<nat>)
    requires Clean(a)
    ensures Receive(["data: " + a + "\r"], id, rt) == Received([], "", id, rt)
  {
    var c := "data: " + a;
    var p0 := Begin(id, rt);
    assert c + "\r" == c + TerminatorText(CR) + "";
    assert [Line(c, CR)] + [] == [Line(c, CR)];
    assert Frame(c + "\r") == Framing([Line(c, CR)], "") && Contents([Line(c, CR)]) == [c] by {
      CleanField("data", a);
      FrameCons(c, CR, "");
    }
    assert Parse([c], p0) == p0.(eventData := "" + a + "\n") by {
      ParseOne(c, p0);
      DataLine(p0, a);
    }
    ReceiveOne(c + "\r", id, rt);
  }

  /** A clean text followed by CRLF and LF frames as that line and a blank line. */
  lemma FrameCrLfAndBlank(c: string)
    requires Clean(c)
    ensures Frame(c + "\r\n\n") == Framing([Line(c, CRLF), Line("", LF)], "")
  {
    assert c + "\r\n\n" == c + TerminatorText(CRLF) + "\n";
    assert [Line(c, CRLF)] + [Line("", LF)] == [Line(c, CRLF), Line("", LF)];
    FrameBlank();
    FrameCons(c, CRLF, "\n");
  }

  /** The events of a body that is a single chunk: those of parsing the chunk's complete lines. */
  lemma OneChunkEvents(chunk: string, lines: seq<string>, id: string, rt: Option<nat>)
    requires Contents(Frame(chunk).lines) == lines
    ensures Receive([chunk], id, rt).events == Parse(lines, Begin(id, rt)).events
  {
    ReceiveOne(chunk, id, rt);
  }

  /** A data line ended by CRLF and a blank line in one chunk dispatch the data. */
  lemma CrLfInOneChunk(a: string, id: string, rt: Option<nat>)
    requires Clean(a)
    ensures Receive(["data: " + a + "\r\n\n"], id, rt).events == [Event(DefaultType, Some(a))]
  {
    var c := "data: " + a;
    assert Contents(Frame(c + "\r\n\n").lines) == [c, ""] by {
      CleanField("data", a);
      FrameCrLfAndBlank(c);
      assert Contents([Line(c, CRLF), Line("", LF)]) == [c, ""];
    }
    assert Parse([c, ""], Begin(id, rt)).events == [Event(DefaultType, Some(a))] by {
      assert "" + a == a;
      assert NoTrailingLf(a) by {
        if a != [] { assert a[|a| - 1] !in LineBreaks; }
      }
      DataThenBlank(Begin(id, rt), a);
    }
    OneChunkEvents(c + "\r\n\n", [c, ""], id, rt);
  }

  /** A data line ended by a lone CR, then a chunk of two line feeds: the first LF is a blank line of its own. */
  lemma CrLfAcrossChunks(a: string, id: string, rt: Option<nat>)
    requires Clean(a)
    ensures Receive(["data: " + a + "\r", "\n\n"], id, rt).events == [Event(DefaultType, Some("")), Event(DefaultType, Some(""))]
  {
    var c := "data: " + a;
    assert [c + "\r"] + ["\n\n"] == [c + "\r", "\n\n"];
    assert "" + "\n\n" == "\n\n";
    DataLineCrChunk(a, id, rt);
    TwoBlankLines(id, rt);
    ReceiveSnoc([c + "\r"], "\n\n", id, rt);
  }

  /** Two line feeds with fresh accumulators: two blank lines, each dispatching an empty `message` event. */
  lemma TwoBlankLines(id: string, rt: Option<nat>)
    ensures Parse(Contents(Frame("\n\n").lines), Begin(id, rt)).events == [Event(DefaultType, Some("")), Event(DefaultType, Some(""))]
  {
    assert Contents(Frame("\n\n").lines) == ["", ""] by {
      assert "" + "\n\n" == "\n\n";
      FrameLineAndBlank("");
      assert Contents([Line("", LF), Line("", LF)]) == ["", ""];
    }
    ParseTwoBlanks(Begin(id, rt));
  }

  /** Two blank lines from empty accumulators: the second dispatch sees the defaulted type and the empty data written back by the first. */
  lemma ParseTwoBlanks(p: Parsed)
    requires p.events == [] && p.eventType == [] && p.eventData == []
    ensures Parse(["", ""], p).events == [Event(DefaultType, Some("")), Event(DefaultType, Some(""))]
  {
    var p1 := p.(events := [Event(DefaultType, Some(""))], eventType := DefaultType);
    assert [""] + [""] == ["", ""];
    assert Parse([""], p) == p1 by {
      ParseOne("", p);
    }
    ParseSnoc([""], "", p);
  }

  /**
   * A CRLF is one line terminator only when both characters arrive in the same
   * chunk. Split across chunks, the CR completes the line at once and the LF
   * then reads as a blank line, which dispatches an extra empty event.
   */
  lemma SplitCrLfIsTwoTerminators(a: string, id: string, rt: Option<nat>)
    requires Clean(a)
    ensures Receive(["data: " + a + "\r\n\n"], id, rt).events == [Event(DefaultType, Some(a))]
    ensures Receive(["data: " + a + "\r", "\n\n"], id, rt).events == [Event(DefaultType, Some("")), Event(DefaultType, Some(""))]
  {
    CrLfInOneChunk(a, id, rt);
    CrLfAcrossChunks(a, id, rt);
  }

  /** A 204 on the first attempt ends the loop silently after its one request. */
  lemma NoContentStops(s: Settings, contentType: Option<string>, chunks: seq<string>, end: BodyEnd)
    requires Budget(s) >= 1
    ensures Run(s, [Response(StatusNoContent, contentType, chunks, end)], 0, Initial) == ([Request(Headers)], Finished)
  {
    BudgetGuard(s, 0);
  }

  /** A 204 after a failed connect ends the loop by raising that failure, with no wait after the 204. */
  lemma NoContentRaisesStored(s: Settings, e: HttpError, contentType: Option<string>, chunks: seq<string>, end: BodyEnd)
    requires Budget(s) >= 2
    ensures Run(s, [ConnectFailed(e), Response(StatusNoContent, contentType, chunks, end)], 0, Initial)
      == ([Request(Headers), Sleep(s.reconnectTimeout), Request(Headers)], Raised(e))
  {
    BudgetGuard(s, 0);
    BudgetGuard(s, 1);
    var attempts := [ConnectFailed(e), Response(StatusNoContent, contentType, chunks, end)];
    var next := Supervisor(1, Some(e), "", None);
    assert PassOf(s, attempts[0], Initial) == Again([Request(Headers), Sleep(s.reconnectTimeout)], next);
    assert PassOf(s, attempts[1], next) == Leave([Request(Headers)], Raised(e));
    assert Run(s, attempts, 1, next) == ([Request(Headers)], Raised(e));
    assert Run(s, attempts, 0, Initial) == ([Request(Headers), Sleep(s.reconnectTimeout)] + [Request(Headers)], Raised(e));
    assert [Request(Headers), Sleep(s.reconnectTimeout)] + [Request(Headers)] == [Request(Headers), Sleep(s.reconnectTimeout), Request(Headers)];
  }

  /** An invalid first response ends the run after one request, whatever the later attempts would have been. */
  lemma RejectedFirstResponse(s: Settings, status: int, contentType: Option<string>, chunks: seq<string>, end: BodyEnd, later: seq<Attempt>)
    requires Budget(s) >= 1 && status != StatusNoContent && CheckResponse(status, contentType).Some?
    ensures Run(s, [Response(status, contentType, chunks, end)] + later, 0, Initial)
      == ([Request(Headers)], Invalid(CheckResponse(status, contentType).value))
  {
    BudgetGuard(s, 0);
    var attempts := [Response(status, contentType, chunks, end)] + later;
    assert attempts[0] == Response(status, contentType, chunks, end);
  }

  /**
   * The default synchronous settings against a server that cannot be reached:
   * three requests, waits of 3, 5.5 and 9.25 seconds, then the last failure is
   * raised. The asynchronous supervisor makes a fourth attempt after a wait of
   * 3 + 2.5^3 seconds.
   */
  lemma DefaultSchedule(e1: HttpError, e2: HttpError, e3: HttpError, e4: HttpError)
    ensures Run(Settings(DefaultMaxConnectAttempts, DefaultReconnectTimeout, DefaultBackoffDelay, false),
                [ConnectFailed(e1), ConnectFailed(e2), ConnectFailed(e3)], 0, Initial)
      == ([Request(Headers), Sleep(3.0), Request(Headers), Sleep(5.5), Request(Headers), Sleep(9.25)], Raised(e3))
    ensures Run(Settings(DefaultMaxConnectAttempts, DefaultReconnectTimeout, DefaultBackoffDelay, true),
                [ConnectFailed(e1), ConnectFailed(e2), ConnectFailed(e3), ConnectFailed(e4)], 0, Initial)
      == ([Request(Headers), Sleep(3.0), Request(Headers), Sleep(5.5), Request(Headers), Sleep(9.25),
           Request(Headers), Sleep(18.625)], Raised(e4))
  {
    var sync := Settings(DefaultMaxConnectAttempts, DefaultReconnectTimeout, DefaultBackoffDelay, false);
    var async := sync.(inclusiveBound := true);
    var three := [Request(Headers), Sleep(3.0), Request(Headers), Sleep(5.5), Request(Headers), Sleep(9.25)];
    assert three + [Request(Headers), Sleep(18.625)]
      == [Request(Headers), Sleep(3.0), Request(Headers), Sleep(5.5), Request(Headers), Sleep(9.25), Request(Headers), Sleep(18.625)];
    assert sync.(inclusiveBound := false) == sync;
    assert Budget(sync) == 3 && Budget(async) == 4;
    assert FailureTrace(sync, 0, 3) == three && WaitingPeriod(sync, 3) == 18.625 by {
      DefaultFailureTrace();
    }
    AsyncMakesOneMoreAttempt(sync);
    TransportFailuresExhaustBudget(sync, [ConnectFailed(e1), ConnectFailed(e2), ConnectFailed(e3)]);
    TransportFailuresExhaustBudget(async, [ConnectFailed(e1), ConnectFailed(e2), ConnectFailed(e3), ConnectFailed(e4)]);
  }

  /** The waits of the default settings: 3, 3 + 2.5, 3 + 2.5^2 and 3 + 2.5^3 seconds. */
  lemma DefaultFailureTrace()
    ensures FailureTrace(Settings(DefaultMaxConnectAttempts, DefaultReconnectTimeout, DefaultBackoffDelay, false), 0, 3)
      == [Request(Headers), Sleep(3.0), Request(Headers), Sleep(5.5), Request(Headers), Sleep(9.25)]
    ensures WaitingPeriod(Settings(DefaultMaxConnectAttempts, DefaultReconnectTimeout, DefaultBackoffDelay, false), 3) == 18.625
  {
    var sync := Settings(DefaultMaxConnectAttempts, DefaultReconnectTimeout, DefaultBackoffDelay, false);
    assert WaitingPeriod(sync, 0) == 3.0;
    assert WaitingPeriod(sync, 1) == 5.5;
    assert WaitingPeriod(sync, 2) == 9.25 by {
      assert Pow(2.5, 2) == 6.25;
    }
    assert WaitingPeriod(sync, 3) == 18.625 by {
      assert Pow(2.5, 3) == 15.625;
    }
    assert FailureTrace(sync, 3, 3) == [];
    assert FailureTrace(sync, 2, 3) == [Request(Headers), Sleep(9.25)];
    assert FailureTrace(sync, 1, 3) == [Request(Headers), Sleep(5.5), Request(Headers), Sleep(9.25)];
  }

  /** A validated body that delivers one `id` line and then drops: no events, one base wait, counter at one. */
  lemma DroppedAfterId(s: Settings, e: HttpError, v: string, st: Supervisor)
    requires Clean(v)
    ensures PassOf(s, Response(StatusOk, Some(SseContentType), ["id: " + v + "\n"], Dropped(e)), st)
      == Again([Request(RequestHeaders(st.lastEventId)), Sleep(s.reconnectTimeout)], Supervisor(1, Some(e), v, st.reconnectionTime))
  {
    var request := [Request(RequestHeaders(st.lastEventId))];
    assert request + [] + [Sleep(s.reconnectTimeout)] == [Request(RequestHeaders(st.lastEventId)), Sleep(s.reconnectTimeout)];
    assert Yields([]) == [];
    assert CheckResponse(StatusOk, Some(SseContentType)).None? by {
      assert SseContentType <= SseContentType[0..];
    }
    IdChunk(v, st.lastEventId, st.reconnectionTime);
    ConnectedPass(s, StatusOk, Some(SseContentType), ["id: " + v + "\n"], Dropped(e), st);
  }

  /**
   * A validated connection resets the attempt counter and replays the id it
   * received: after it drops, the next wait is the base timeout again, the next
   * request carries Last-Event-ID, and backoff starts over.
   */
  lemma ReconnectAfterConnection(s: Settings, e1: HttpError, e2: HttpError, e3: HttpError, v: string)
    requires Budget(s) >= 3 && Clean(v) && v != []
    ensures Run(s, [ConnectFailed(e1), Response(StatusOk, Some(SseContentType), ["id: " + v + "\n"], Dropped(e2)), ConnectFailed(e3)], 0, Initial)
      == ([Request(Headers), Sleep(s.reconnectTimeout),
           Request(Headers), Sleep(s.reconnectTimeout),
           Request(Headers + [(LastEventIdHeader, v)]), Sleep(s.reconnectTimeout + s.backoffDelay)], Live)
  {
    var attempts := [ConnectFailed(e1), Response(StatusOk, Some(SseContentType), ["id: " + v + "\n"], Dropped(e2)), ConnectFailed(e3)];
    var st1 := Supervisor(1, Some(e1), "", None);
    var st2 := Supervisor(1, Some(e2), v, None);
    var st3 := Supervisor(2, Some(e3), v, None);
    var a1 := [Request(Headers), Sleep(s.reconnectTimeout)];
    var a2 := [Request(Headers + [(LastEventIdHeader, v)]), Sleep(s.reconnectTimeout + s.backoffDelay)];
    assert a1 + (a1 + (a2 + [])) == [Request(Headers), Sleep(s.reconnectTimeout),
           Request(Headers), Sleep(s.reconnectTimeout),
           Request(Headers + [(LastEventIdHeader, v)]), Sleep(s.reconnectTimeout + s.backoffDelay)];
    BudgetGuard(s, 0);
    BudgetGuard(s, 1);
    BudgetGuard(s, 2);
    assert PassOf(s, attempts[2], st2) == Again(a2, st3) by {
      assert attempts[2] == ConnectFailed(e3);
      assert WaitingPeriod(s, 1) == s.reconnectTimeout + s.backoffDelay by {
        assert Pow(s.backoffDelay, 1) == s.backoffDelay;
      }
      assert RequestHeaders(v) == Headers + [(LastEventIdHeader, v)];
      FailurePass(s, e3, st2);
    }
    assert PassOf(s, attempts[1], st1) == Again(a1, st2) by {
      DroppedAfterId(s, e2, v, st1);
    }
    assert PassOf(s, attempts[0], Initial) == Again(a1, st1) by {
      FailurePass(s, e1, Initial);
    }
    RunLive(s, attempts, st3);
    RunAgain(s, attempts, 2, st2, a2, st3);
    RunAgain(s, attempts, 1, st1, a1, st2);
    RunAgain(s, attempts, 0, Initial, a1, st1);
  }
}
