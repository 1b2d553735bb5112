/** Small helper types shared by the other modules. */
module Common {

  /** A value that may be absent (a JavaScript `undefined`). */
  datatype Option<+T> = None | Some(value: T)

  /** The outcome of an awaited call into code outside the model: it returned a value or it threw. */
  datatype Attempt<+T> = Returned(value: T) | Threw

  /**
   * The status and message of an answer: the JSON `c.json({ message }, status)`
   * of a handler, or, for the login 401, the framework's plain-text answer to
   * the re-thrown `HTTPException`, whose message is the text of the body.
   */
  datatype Response = Response(status: int, message: string)
}
