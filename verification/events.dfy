/**
 * model.Event and model.Metadata as the HTTP trigger and the echo service
 * use them, and the ways a service call can end.
 */
module Events {
  import opened Integers

  /** Request or response metadata; the status code is an unsigned 32-bit value. */
  datatype Metadata = Metadata(
    httpMethod: string,
    path: string,
    headers: map<string, string>,
    query: map<string, string>,
    contractIdList: seq<string>,
    statusCode: Uint32,
    status: string)

  const EmptyMetadata := Metadata("", "", map[], map[], [], 0, "")

  /** An event: metadata, the type of its payload, and the payload bytes. */
  datatype Event = Event(metadata: Metadata, typeUrl: string, value: seq<Byte>)

  /** The error a service returns: one of the two context errors, or any other error. */
  datatype Failure =
    | Canceled
    | DeadlineExceeded
    | Other(message: string)
}
