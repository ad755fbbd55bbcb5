/** `ClientRequest`: an immutable request from a client, with its kind and a payload of strings. */
module ClientRequests {
  import opened Wrappers
  import opened RequestCodes

  /**
   * `getType` and `getPayload` are the fields; the stored sequence is a
   * value, so it is the defensive copy the constructor makes.
   */
  datatype ClientRequest = ClientRequest(kind: RequestCode, payload: seq<string>)

  /** The message `Objects.requireNonNull` throws with. */
  const NULL_TYPE: string := "Request Cannot be null"

  /** The constructor: a null type throws; a null payload becomes the empty list. */
  function NewRequest(kind: Option<RequestCode>, payload: Option<seq<string>>): (r: Result<ClientRequest, string>)
    ensures r.Err? <==> kind.None?
    ensures r.Err? ==> r.error == NULL_TYPE
    ensures r.Ok? ==> r.value.kind == kind.value
    ensures r.Ok? && payload.None? ==> r.value.payload == []
    ensures r.Ok? && payload.Some? ==> r.value.payload == payload.value
  {
    match kind
    case None => Err(NULL_TYPE)
    case Some(k) => Ok(ClientRequest(k, match payload case None => [] case Some(p) => p))
  }

  /** Every request is built by the constructor from its own kind and payload. */
  lemma NewRequestFields(r: ClientRequest)
    ensures NewRequest(Some(r.kind), Some(r.payload)) == Ok(r)
  {
  }
}
