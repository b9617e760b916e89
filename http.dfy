/**
 * The backend seen from the frontend: every HTTP call is an abstract outcome.
 * The shape of a rejected call keeps the three fields the handlers read
 * (`err.response?.data?.error`, `err.response?.data?.message`, `err.message`);
 * the empty string stands for a field that is absent or empty, both of which
 * are falsy for the `||` chains that pick the message to show.
 */
module Http {

  datatype HttpError = HttpError(responseError: string, responseMessage: string, message: string)

  datatype Outcome<+T> = Success(value: T) | Failure(error: HttpError)

  /** JavaScript's `a || b` on strings: `a` unless it is empty. */
  function OrElse(a: string, b: string): (r: string)
    ensures r == a || r == b
    ensures r == "" ==> a == "" && b == ""
  {
    if a != "" then a else b
  }
}
