/** The exceptions the client can raise, as values. */
module Failures {

  /** The four backend calls, for errors that name the call that failed. */
  datatype Operation = OpenSession | CloseSession | ComputeOutputs | ComputeExport

  datatype Error =
    /** TypeError: a string key applied to a JSON value that is not an object. */
    | NotSubscriptable
    /** KeyError: the object has no member with this key. */
    | MissingKey(key: string)
    /** AttributeError: `.items()` on a JSON value that is not an object. */
    | NoItems
    /** `json.loads` or `response.json()` found no JSON document. */
    | InvalidJson
    /** Neither a session-init response nor a ticket was given to the constructor. */
    | NoSessionSource
    /** The backend answered with a status other than the call's success status. */
    | UnexpectedStatus(op: Operation, status: int, text: string)
    /** AttributeError: the session object has no `response` (its constructor failed). */
    | NoResponse
    /** TypeError: the constructor's handler returned a value other than None. */
    | InitReturnedValue
    /** The transport raised instead of answering. */
    | ConnectionFailed(message: string)
    /** Raised by caller-supplied code (a parameter mapper or an exception handler). */
    | CallbackRaised(message: string)
}
