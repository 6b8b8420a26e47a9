/** The chat messages the screen renders, as the chat hook hands them over. */
module Messages {
  import opened Wrappers

  /** Milliseconds since the epoch (`Date.now()`, `Date#getTime`). */
  type Timestamp = int

  /** The roles the chat hook's message type admits. */
  datatype Role = System | User | Assistant | Data

  /** A message: only the fields the screen's logic reads. `createdAt` may be
      missing, in which case the screen substitutes the current time. */
  datatype Message = Message(id: string, role: Role, content: string, createdAt: Option<Timestamp>)
}
