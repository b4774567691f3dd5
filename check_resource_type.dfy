/** How the Concourse client's `CheckResourceType`
    (go-concourse/concourse/check_resource_type.go) turns the transport's
    answer into its `(build, found, err)` result. */
module Concourse {
  import opened Wrappers

  const StatusInternalServerError: int := 500

  /** The Go `error` values this code tells apart: the two error types of the
      client's internal package, the client's `GenericError`, and any other
      error (a JSON marshalling failure, say). */
  datatype ClientError =
    | ResourceNotFoundError
    | UnexpectedResponseError(statusCode: int, status: string, body: string)
    | GenericError(errorMessage: string)
    | OtherError(message: string)

  /** `atc.Build`, the value the response body is decoded into. */
  datatype Build = Build(id: int, name: string, status: string)

  /** Go's zero value of `atc.Build`, which `var build atc.Build` holds. */
  const ZeroBuild: Build := Build(0, "", "")

  /** What `team.connection.Send` does: the build it decoded into the result
      slot (possibly still the zero value) and the error it returned. */
  datatype SendOutcome = SendOutcome(decoded: Build, err: Option<ClientError>)

  /** The `(atc.Build, bool, error)` result. */
  datatype CheckResult = CheckResult(build: Build, found: bool, err: Option<ClientError>)

  /** `CheckResourceType`: `marshalErr` is the error of encoding the request
      body; when it is set the request is never sent, so `send` is not used. */
  function CheckResourceType(marshalErr: Option<ClientError>, send: SendOutcome): (r: CheckResult)
    ensures marshalErr.Some? ==> r == CheckResult(ZeroBuild, false, marshalErr)
    ensures marshalErr.None? ==> r.build == send.decoded
    ensures r.found <==> marshalErr.None? && send.err.None?
    ensures r.found ==> r.err.None?
    ensures r.err.None? <==> marshalErr.None? && (send.err.None? || send.err == Some(ResourceNotFoundError))
    ensures marshalErr.None? && send.err == Some(ResourceNotFoundError) ==> !r.found && r.err.None?
    ensures marshalErr.None? && send.err.Some? && send.err.value.UnexpectedResponseError?
            && send.err.value.statusCode == StatusInternalServerError ==>
      r.err == Some(GenericError(send.err.value.body))
    ensures marshalErr.None? && send.err.Some? && send.err.value != ResourceNotFoundError
            && !(send.err.value.UnexpectedResponseError? && send.err.value.statusCode == StatusInternalServerError) ==>
      r.err == send.err
  {
    if marshalErr.Some? then CheckResult(ZeroBuild, false, marshalErr)
    else match send.err
      case None => CheckResult(send.decoded, true, None)
      case Some(ResourceNotFoundError) => CheckResult(send.decoded, false, None)
      case Some(UnexpectedResponseError(statusCode, status, body)) =>
        if statusCode == StatusInternalServerError
        then CheckResult(send.decoded, false, Some(GenericError(body)))
        else CheckResult(send.decoded, false, send.err)
      case Some(e) => CheckResult(send.decoded, false, send.err)
  }
}
