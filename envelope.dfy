/**
 * What every handler of the service shares: the request and response
 * envelopes, the error taxonomy and the API version gate.
 */
module Envelope {

  datatype Option<+T> = None | Some(value: T)

  /** The gRPC status codes the handlers produce, and the refusals the cluster's API server reports. */
  datatype Code = Unimplemented | NotFound | Internal | AlreadyExists | Rejected | BadRequest

  datatype Error = Error(code: Code, message: string)

  datatype Result<+T> = Success(value: T) | Failure(error: Error)

  /** The tri-state status every response carries. */
  datatype Status = OK | FAILED | PENDING

  datatype ServiceResponse = ServiceResponse(api: string, status: Status, message: string)

  datatype InfoServiceResponse = InfoServiceResponse(api: string, status: Status, message: string, info: string)

  /** What a handler returns: a response and an error, either of which may be nil (None). */
  datatype Reply<+R> = Reply(response: Option<R>, err: Option<Error>)

  /** The caller's description of one deployed application instance. */
  datatype Instance = Instance(namespace: string, uid: string, domain: string)

  datatype InstanceRequest = InstanceRequest(api: string, deployment: Instance)

  datatype Credentials = Credentials(user: string, password: string)

  datatype InstanceCredentialsRequest = InstanceCredentialsRequest(api: string, instance: Instance, credentials: Credentials)

  /** The API version this service implements. */
  const ApiVersion: string := "v1"

  const NamespaceNotFound: string := "Namespace not found"

  /** The version gate: an empty version always passes, any other must equal `current`. */
  function CheckApi(api: string, current: string): (r: Option<Error>)
    ensures r.None? <==> api == [] || api == current
    ensures r.Some? ==> r.value.code == Unimplemented
  {
    if |api| > 0 && current != api then
      Some(Error(Unimplemented, "unsupported API version: service implements API version '"
        + ApiVersion + "', but asked for '" + api + "'"))
    else
      None
  }

  /** The two cases the repository's own test of the gate exercises. */
  lemma CheckApiCases()
    ensures CheckApi("wrong", "correct").Some?
    ensures CheckApi("correct", "correct").None?
  {
  }

  /** A response always carries the API version this service implements. */
  function PrepareResponse(status: Status, message: string): (r: ServiceResponse)
    ensures r.api == ApiVersion && r.status == status && r.message == message
  {
    ServiceResponse(ApiVersion, status, message)
  }

  function PrepareInfoResponse(status: Status, message: string, info: string): (r: InfoServiceResponse)
    ensures r.api == ApiVersion && r.status == status && r.message == message && r.info == info
  {
    InfoServiceResponse(ApiVersion, status, message, info)
  }

  function Respond(status: Status, message: string, err: Option<Error>): Reply<ServiceResponse>
  {
    Reply(Some(PrepareResponse(status, message)), err)
  }

  function RespondInfo(status: Status, message: string, info: string, err: Option<Error>): Reply<InfoServiceResponse>
  {
    Reply(Some(PrepareInfoResponse(status, message, info)), err)
  }

  /** `reply` carries a response with this status and message, and a non-nil error. */
  predicate FailedWith(reply: Reply<ServiceResponse>, message: string)
  {
    reply.response == Some(PrepareResponse(FAILED, message)) && reply.err.Some?
  }

  /** The status of a reply that has a response. */
  function StatusOf(reply: Reply<ServiceResponse>): Option<Status>
  {
    match reply.response
    case Some(r) => Some(r.status)
    case None => None
  }
}
