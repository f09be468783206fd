/**
 * The per-request state the backend's handlers share (apps/backend/src/context.ts)
 * and the shapes of the JSON bodies they receive and send back.
 */
module AppContext {
  import opened Wrappers
  import opened TodoDataAccess

  /** The verified identity token; `sub` is the subject identifier of the caller. */
  datatype JwtPayload = JwtPayload(sub: string, claims: map<string, string>)

  /** A parsed JSON request body. Numbers are kept as integers. */
  datatype Json =
    | JNull
    | JBool(b: bool)
    | JNumber(n: int)
    | JString(s: string)
    | JArray(items: seq<Json>)
    | JObject(fields: map<string, Json>)

  /** Which part of the request a validator rejected. */
  datatype ValidationTarget = JsonBody | PathParam

  /** The JSON (or text) a handler answers with. */
  datatype ResponseBody =
    | TodoJson(todo: Todo)
    | TodoListJson(todos: seq<Todo>)
    | NullJson
    | SuccessJson
    | ErrorJson(error: string)
    | ValidationErrorJson(target: ValidationTarget)
    | NotFoundText

  datatype Response = Response(status: int, body: ResponseBody)

  /** The request context `c`; `c.set('jwtPayload', ...)` writes its one variable. */
  class RequestContext {
    var jwtPayload: Option<JwtPayload>

    /** A fresh request starts with no verified payload. */
    constructor ()
      ensures jwtPayload == None
    {
      jwtPayload := None;
    }
  }
}
