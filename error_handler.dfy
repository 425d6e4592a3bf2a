/** The last stage of the request pipeline: every error a handler passes on
    is turned into an error response, and a request no route matches gets a
    404. */
module ErrorHandler {
  import opened Wrappers
  import opened Schema
  import opened Http

  /** An error value as the handler sees it: its `name`, its `message`, its
      `status` (`None` when unset) and, for a validation error, the failing
      validators in the order they were recorded. */
  datatype Error = Error(name: string, message: string, status: Option<int>, errors: seq<ValidatorError>)

  /** `err.status` is truthy: set and non-zero. */
  predicate HasStatus(err: Error) {
    err.status.Some? && err.status.value != 0
  }

  /** `Object.values(err.errors).map((e) => e.message)`. */
  function Messages(errors: seq<ValidatorError>): (r: seq<string>)
    ensures |r| == |errors|
    ensures forall i :: 0 <= i < |errors| ==> r[i] == errors[i].message
  {
    if errors == [] then [] else [errors[0].message] + Messages(errors[1..])
  }

  /** The error response for `err`. A validation error takes precedence over
      everything else, then a cast error; any other error keeps its own status
      and message when it has them. */
  function HandleError(err: Error): (r: Response)
    ensures r.body.Failed? && r.body.Status() == "error"
    ensures err.name == "ValidationError" ==>
      r.code == 400 && r.body.message == "Validation error" && r.body.details.Some?
      && |r.body.details.value| == |err.errors|
      && forall i :: 0 <= i < |err.errors| ==> r.body.details.value[i] == err.errors[i].message
    ensures err.name == "CastError" ==>
      r.code == 400 && r.body.message == "Invalid ID format" && r.body.details.None?
    ensures err.name != "ValidationError" && err.name != "CastError" ==>
      r.code == (if HasStatus(err) then err.status.value else 500)
      && r.body.message == (if err.message != "" then err.message else "Internal Server Error")
      && r.body.details.None?
  {
    if err.name == "ValidationError" then
      Response(400, Failed("Validation error", Some(Messages(err.errors))))
    else if err.name == "CastError" then
      Response(400, Failed("Invalid ID format", None))
    else
      Response(if HasStatus(err) then err.status.value else 500,
               Failed(if err.message != "" then err.message else "Internal Server Error", None))
  }

  /** An error without a status or a message becomes a generic 500. */
  lemma UnclassifiedIsInternal(err: Error)
    requires err.name != "ValidationError" && err.name != "CastError"
    requires !HasStatus(err) && err.message == ""
    ensures HandleError(err) == Response(500, Failed("Internal Server Error", None))
  {
  }

  /** The response to a request that no route matches. */
  function RouteNotFound(): (r: Response)
    ensures r.code == 404 && r.body.Status() == "error"
    ensures r.body == Failed("Route not found", None)
  {
    Response(404, Failed("Route not found", None))
  }
}
