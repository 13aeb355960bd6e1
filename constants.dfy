/** Constant values shared by the parser and the connection supervisor. */
module Constants {
  /** The delimiter between a field name and its value, and the comment marker. */
  const Delimiter: char := ':'

  /** Media type an event stream must be served with. */
  const SseContentType: string := "text/event-stream"

  /** Cache policy the client asks for. */
  const SseCacheControl: string := "no-store"

  /** Name of the header that replays the last event id on a reconnect. */
  const LastEventIdHeader: string := "Last-Event-ID"

  /** The headers every request carries, in insertion order. */
  const Headers: seq<(string, string)> := [("Accept", SseContentType), ("Cache-Control", SseCacheControl)]

  /** HTTP status codes the client reacts to. */
  const StatusOk: int := 200
  const StatusNoContent: int := 204

  /** Defaults of the two public entry points. */
  const DefaultMaxConnectAttempts: int := 3
  const DefaultReconnectTimeout: real := 3.0
  const DefaultBackoffDelay: real := 2.5
}
