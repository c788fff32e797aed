/**
 * The single error type of the data format (`DataError`) and the result type
 * every parsing operation returns.
 *
 * The source carries a formatted message; the model keeps what the message is
 * built from: which message it is, and the reader's row and column when the
 * message embeds them.
 */
module Errors {

  /** The distinct messages the parsers produce. */
  datatype ErrorKind =
    | UnexpectedEndOfString      // nothing but whitespace before the end
    | StringUnexpectedlyEnded    // input ran out inside a map or a list
    | ExpectingOpenBrace         // "Expecting '{'"
    | UnexpectedQuote            // a '"' inside a bare map key
    | UnexpectedCharacter        // map syntax error, and every decoder error
    | ExpectedOpenBracket        // "Expected ["
    | ExpectedCloseBracket       // "Expected ]"

  /** Row and column (both 0-based) when the message reports them. */
  datatype Location = NoLocation | At(row: nat, col: int)

  datatype DataError = DataError(kind: ErrorKind, location: Location)

  datatype Result<+T> = Ok(value: T) | Err(error: DataError)

  /** The decoders' only failure: "Unexpected character", with no position. */
  const UnexpectedChar := DataError(UnexpectedCharacter, NoLocation)
}
