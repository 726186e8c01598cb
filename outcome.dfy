/** What the operations of gcp.go return, and the request log they leave. */
module Outcomes {
  import opened Cloud

  /** The distinct errors gcp.go returns. */
  datatype Failure =
    | ServiceError(cause: Error)      // an error from the service or from converting the SSH key, returned unchanged
    | FetchFailed(fetchCause: Error)  // the poller could not fetch the operation
    | OperationFailed(detail: string) // the operation reported an error payload
    | PollTimeout                     // the poller ran out of attempts
    | VtpmUnsupported                 // vTPM requested on an image without UEFI support
    | NestedUnsupported               // nested virtualization on an image without the vmx licence

  /** `Panic` stands for the run-time panic of an unchecked type assertion. */
  datatype Outcome = Pass | Fail(failure: Failure) | Panic

  /** The outcome of an operation together with the requests it issued, in order. */
  datatype Run = Run(outcome: Outcome, calls: seq<Call>)

  function ErrorText(e: Error): string
  {
    e.message
  }

  /** The text of each error, as gcp.go formats it. */
  function Message(f: Failure): string
  {
    match f
    case ServiceError(e) => ErrorText(e)
    case FetchFailed(e) => "error fetching operation status: " + ErrorText(e)
    case OperationFailed(d) => "error running operation: " + d
    case PollTimeout => "timeout waiting for operation to finish"
    case VtpmUnsupported => "cannot use vTPM without UEFI_COMPATIBLE image"
    case NestedUnsupported => "cannot use nested virtualization without enable-vmx image"
  }

  /** The poller's three failures can always be told apart by their text,
      whatever the underlying error or payload says. */
  lemma PollerMessagesDistinct(e: Error, d: string)
    ensures Message(FetchFailed(e)) != Message(OperationFailed(d))
    ensures Message(FetchFailed(e)) != Message(PollTimeout)
    ensures Message(OperationFailed(d)) != Message(PollTimeout)
  {
    assert Message(FetchFailed(e))[6] == 'f';
    assert Message(OperationFailed(d))[6] == 'r';
    assert Message(PollTimeout)[0] == 't';
    assert Message(FetchFailed(e))[0] == 'e';
    assert Message(OperationFailed(d))[0] == 'e';
  }
}
