/** A lexical error record: where scanning failed and a message with its code. */
module ParsingErrors {

  /**
   * The four read-only properties of a parsing error: the absolute offset,
   * the line counter, the position-in-line counter and the message text
   * (which starts with a stable code such as "L001" or "L002").
   */
  datatype ParsingError = ParsingError(position: int, line: int, positionInLine: int, text: string)
}
