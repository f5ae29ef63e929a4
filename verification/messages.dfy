/**
 The envelopes exchanged between the dispatcher and its workers, reduced to
 the fields the dispatcher reads: the correlation id, and on a response the
 optional exception that decides between success and failure.
 */
module Messages {
  import opened Wrappers

  /** The correlation identifier shared by a request and its response. */
  type RequestId = string

  /** An exception object a worker reports in place of a result. */
  datatype Error = Error(message: string)

  /** `ModelRequestMessage`: id plus an opaque payload for the worker. */
  datatype Request = Request(id: RequestId, payload: string)

  /** `ModelResponseMessage`: id, an opaque return value, and the exception, if any. */
  datatype Response = Response(id: RequestId, returnValue: string, exception: Option<Error>)

  /** An item of the shared response queue: a response, or the `END_OF_QUEUE` sentinel. */
  datatype Message = EndOfQueue | Reply(response: Response)
}
