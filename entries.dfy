/** The shape of one line of a session log, after JSON decoding, as both session scripts read it. */
module LogEntries {
  import opened Wrappers

  /** The entry's `type` field. */
  datatype Role = User | Assistant | OtherRole

  /** One item of a list-valued `message.content`. */
  datatype Part =
      /** `{"type": "text", "text": ...}`; a missing `text` reads as "". */
    | TextPart(text: string)
      /** `{"type": "tool_use", "name": ..., "input": {...}}`; a missing `input` reads as `{}`. */
    | ToolUse(name: Option<string>, input: map<string, string>)
      /** A bare string item. */
    | StringItem(s: string)
      /** Any other item: a dict of another type, a number, null. */
    | OtherPart

  /** `message.content`: a plain string, a list of items, or anything else (missing included). */
  datatype Content = Text(text: string) | Parts(parts: seq<Part>) | NoContent

  /** A log entry; a missing or empty `timestamp` is `None`, otherwise seconds on a common clock. */
  datatype Entry = Entry(role: Role, timestamp: Option<int>, content: Content)
}
