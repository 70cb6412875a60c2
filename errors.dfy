/** The failures the daemon propagates: HTTP client errors wrapped in chains of context labels. */
module Errors {

  /** What the HTTP client reports: a response with an error status, or no usable response at all. */
  datatype RequestError = Status(code: nat) | Transport(message: string)

  /** Where an error chain starts: a failed request, or a body that is not JSON of the expected shape. */
  datatype Cause = Request(request: RequestError) | Malformed

  /** An error and the context labels added on its way up, outermost first. */
  datatype Error = Root(cause: Cause) | Context(message: string, inner: Error)

  /** The failure at the bottom of the chain. */
  function RootCause(e: Error): Cause {
    match e
    case Root(c) => c
    case Context(_, inner) => RootCause(inner)
  }

  /** The context labels of the chain, outermost first, as the error is displayed. */
  function Labels(e: Error): seq<string> {
    match e
    case Root(_) => []
    case Context(message, inner) => [message] + Labels(inner)
  }
}
