/** gRPC status codes, the sets of them worth retrying, and the errors they become
    (errors.py). */
module Status {

  datatype Code =
    | Cancelled
    | Unknown
    | InvalidArgument
    | DeadlineExceeded
    | NotFound
    | AlreadyExists
    | PermissionDenied
    | ResourceExhausted
    | FailedPrecondition
    | Aborted
    | OutOfRange
    | Unimplemented
    | Internal
    | Unavailable
    | DataLoss
    | Unauthenticated

  const RETRYABLE_CODES: set<Code> := {Unavailable, DeadlineExceeded, Aborted, ResourceExhausted}

  const KEYLESS_ENQUEUE_RETRYABLE_CODES: set<Code> := {Unavailable, ResourceExhausted}

  const TRANSPORT_CODES: set<Code> := {Unavailable, DeadlineExceeded, Aborted, Cancelled}

  /** What the library raises.  Every one of them is a SeppError. */
  datatype SeppError =
    | TransportError
    | UnauthenticatedError
    | OverloadedError
    | InvalidRequestError
    | ServerInternalError
    | UnexpectedStatusError(code: Code)
    | JobNotFoundError
    | AttemptMismatchError
    | EmptyBatchError
    | BatchResultCountMismatchError(sent: nat, received: nat)
    | MalformedResponseError
    | JobRejectedError
    | UnknownQueuesError

  function ClientErrorFromRpc(code: Code): SeppError {
    if code in TRANSPORT_CODES then TransportError
    else if code in {Unauthenticated, PermissionDenied} then UnauthenticatedError
    else if code == ResourceExhausted then OverloadedError
    else if code == InvalidArgument then InvalidRequestError
    else if code in {Internal, DataLoss, Unknown} then ServerInternalError
    else UnexpectedStatusError(code)
  }

  function LeaseErrorFromRpc(code: Code): SeppError {
    if code == NotFound then JobNotFoundError
    else if code == FailedPrecondition then AttemptMismatchError
    else ClientErrorFromRpc(code)
  }

  function ReserveErrorFromRpc(code: Code): SeppError {
    if code == FailedPrecondition then UnknownQueuesError else ClientErrorFromRpc(code)
  }

  /** The whole table, status by status. */
  lemma ErrorTable(code: Code)
    ensures ClientErrorFromRpc(code) == match code
              case Unavailable => TransportError
              case DeadlineExceeded => TransportError
              case Aborted => TransportError
              case Cancelled => TransportError
              case Unauthenticated => UnauthenticatedError
              case PermissionDenied => UnauthenticatedError
              case ResourceExhausted => OverloadedError
              case InvalidArgument => InvalidRequestError
              case Internal => ServerInternalError
              case DataLoss => ServerInternalError
              case Unknown => ServerInternalError
              case _ => UnexpectedStatusError(code)
    ensures LeaseErrorFromRpc(code) == match code
              case NotFound => JobNotFoundError
              case FailedPrecondition => AttemptMismatchError
              case _ => ClientErrorFromRpc(code)
    ensures ReserveErrorFromRpc(code) == match code
              case FailedPrecondition => UnknownQueuesError
              case _ => ClientErrorFromRpc(code)
    ensures code in RETRYABLE_CODES <==>
              code.Unavailable? || code.DeadlineExceeded? || code.Aborted? || code.ResourceExhausted?
    ensures code in KEYLESS_ENQUEUE_RETRYABLE_CODES <==> code.Unavailable? || code.ResourceExhausted?
  {
  }
}
