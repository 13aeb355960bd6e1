/** The event value handed to the caller. */
module Events {
  datatype Option<+T> = None | Some(value: T)

  /** Type of an event whose stream did not name one. */
  const DefaultType: string := "message"

  /** A dispatched server-sent event: its type and its (optional) data. */
  datatype Event = Event(eventType: string, data: Option<string>)
}
