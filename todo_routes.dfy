/**
 * The `/todos` router (apps/backend/src/routes/todos.ts): request validation,
 * the five handlers, and the whole router behind `authMiddleWare`.
 *
 * Every handler takes the owner from `c.jwtPayload.sub`, which only the gate
 * writes; no owner is ever read from the request.
 */
module TodoRoutes {
  import opened Wrappers
  import opened TodoSchema
  import opened TodoDataAccess
  import opened AppContext
  import Auth

  datatype HttpMethod = Get | Post | Put | Delete

  /** `/` or `/:id` under the router's mount point. */
  datatype Path = Root | Item(param: string)

  datatype Request = Request(verb: HttpMethod, path: Path, authorization: Option<string>, body: Json)

  /** zValidator's 400 answers, and Hono's answer for a method the path has no route for. */
  const BadBody := Response(400, ValidationErrorJson(JsonBody))
  const BadParam := Response(400, ValidationErrorJson(PathParam))
  const NoRoute := Response(404, NotFoundText)

  // ---------------------------------------------------------------------
  // Validation schemas
  // ---------------------------------------------------------------------

  /** `z.string().min(1).max(100)`. */
  predicate ValidTitle(s: string) {
    1 <= |s| <= 100
  }

  /** `createTodoSchema`: an object whose `title` is a string of 1 to 100 characters; other keys are stripped. */
  function CreateTodoSchema(body: Json): (title: Option<string>)
    ensures title.Some? <==> body.JObject? && "title" in body.fields && body.fields["title"].JString?
                             && ValidTitle(body.fields["title"].s)
    ensures title.Some? ==> title.value == body.fields["title"].s
  {
    match body
    case JObject(fields) =>
      if "title" in fields && fields["title"].JString? && ValidTitle(fields["title"].s)
      then Some(fields["title"].s) else None
    case _ => None
  }

  /** The fields of a valid PUT body; an absent key stays undefined. */
  datatype UpdateBody = UpdateBody(title: Option<string>, completed: Option<bool>)

  /**
   * `updateTodoSchema`: an object whose `title`, when present, is a string of 1
   * to 100 characters and whose `completed`, when present, is a boolean.
   */
  function UpdateTodoSchema(body: Json): (parsed: Option<UpdateBody>)
    ensures parsed.Some? <==>
              && body.JObject?
              && ("title" in body.fields ==> body.fields["title"].JString? && ValidTitle(body.fields["title"].s))
              && ("completed" in body.fields ==> body.fields["completed"].JBool?)
    ensures parsed.Some? ==>
              parsed.value.title == (if "title" in body.fields then Some(body.fields["title"].s) else None)
    ensures parsed.Some? ==>
              parsed.value.completed == (if "completed" in body.fields then Some(body.fields["completed"].b) else None)
    ensures parsed.Some? && parsed.value.title.Some? ==> ValidTitle(parsed.value.title.value)
  {
    match body
    case JObject(f) =>
      var titleOk := "title" !in f || (f["title"].JString? && ValidTitle(f["title"].s));
      var completedOk := "completed" !in f || f["completed"].JBool?;
      if titleOk && completedOk then
        Some(UpdateBody(if "title" in f then Some(f["title"].s) else None,
                        if "completed" in f then Some(f["completed"].b) else None))
      else None
    case _ => None
  }

  /** The JSON object a client sends for an update: `JSON.stringify` omits undefined fields. */
  function UpdateBodyJson(u: UpdateBody): Json {
    var withTitle := if u.title.Some? then map["title" := JString(u.title.value)] else map[];
    JObject(if u.completed.Some? then withTitle["completed" := JBool(u.completed.value)] else withTitle)
  }

  predicate IsDigit(ch: char) {
    '0' <= ch <= '9'
  }

  predicate AllDigits(s: string) {
    forall i :: 0 <= i < |s| ==> IsDigit(s[i])
  }

  /** The number a string of decimal digits denotes (leading zeros allowed). */
  function DigitsValue(s: string): nat
    requires AllDigits(s)
  {
    if s == [] then 0 else DigitsValue(s[..|s| - 1]) * 10 + (s[|s| - 1] as int - '0' as int)
  }

  /** `getTodoSchema`: `z.coerce.number().int().positive()` on the `:id` segment. */
  function GetTodoSchema(param: string): (id: Option<int>)
    ensures id.Some? <==> param != [] && AllDigits(param) && DigitsValue(param) >= 1
    ensures id.Some? ==> id.value == DigitsValue(param) && id.value >= 1
  {
    if param != [] && AllDigits(param) && DigitsValue(param) >= 1 then Some(DigitsValue(param)) else None
  }

  /** The decimal spelling of `n` a client puts in `/todos/${id}`. */
  function DecimalString(n: nat): (s: string)
    ensures s != [] && AllDigits(s)
  {
    var digit := ('0' as int + n % 10) as char;
    if n < 10 then [digit] else DecimalString(n / 10) + [digit]
  }

  /** Reading back the decimal spelling gives the number. */
  lemma {:induction false} DecimalRoundTrip(n: nat)
    ensures DigitsValue(DecimalString(n)) == n
  {
    var s := DecimalString(n);
    if n >= 10 {
      DecimalRoundTrip(n / 10);
      assert s[..|s| - 1] == DecimalString(n / 10);
    }
  }

  /** Every positive id, spelled in decimal, is accepted as itself. */
  lemma IdParamRoundTrip(n: nat)
    requires n >= 1
    ensures GetTodoSchema(DecimalString(n)) == Some(n)
  {
    DecimalRoundTrip(n);
  }

  /** "0", "00", "" and anything with a sign or a non-digit are refused. */
  lemma IdParamRejects(param: string)
    requires param == [] || !AllDigits(param) || DigitsValue(param) == 0
    ensures GetTodoSchema(param) == None
  {
  }

  /** The request shape the client sends is accepted and read back field for field. */
  lemma UpdateBodyRoundTrip(u: UpdateBody)
    requires u.title.Some? ==> ValidTitle(u.title.value)
    ensures UpdateTodoSchema(UpdateBodyJson(u)) == Some(u)
  {
  }

  /** A create body's other keys, such as a `userId`, are ignored: only `title` is read. */
  lemma CreateBodyIgnoresOtherKeys(fields: map<string, Json>, title: string)
    ensures CreateTodoSchema(JObject(fields["title" := JString(title)])) ==
            (if ValidTitle(title) then Some(title) else None)
  {
  }

  // ---------------------------------------------------------------------
  // Handlers
  // ---------------------------------------------------------------------

  /** `c.json(todo)` for a store result that may be null. */
  function TodoOrNull(todo: Option<Todo>): ResponseBody {
    if todo.Some? then TodoJson(todo.value) else NullJson
  }

  /** The owner a handler acts for: the verified token's subject. */
  function Owner(c: RequestContext): string
    reads c
    requires c.jwtPayload.Some?
  {
    c.jwtPayload.value.sub
  }

  /** POST `/`: a valid `{title}` creates a todo owned by the caller and returns it. */
  method PostTodo(store: TodoStore, c: RequestContext, body: Json) returns (resp: Response)
    requires store.Valid() && c.jwtPayload.Some?
    modifies store
    ensures store.Valid()
    ensures CreateTodoSchema(body).None? ==> resp == BadBody && store.rows == old(store.rows)
    ensures CreateTodoSchema(body).Some? ==>
              && resp.status == 200 && resp.body.TodoJson?
              && resp.body.todo.id == NextId(old(store.rows))
              && resp.body.todo == Todo(resp.body.todo.id, Owner(c), CreateTodoSchema(body).value, false)
              && store.rows == old(store.rows) + [TodoRow(resp.body.todo.id, Owner(c), CreateTodoSchema(body).value, 0)]
  {
    var title := CreateTodoSchema(body);
    if title.None? {
      return BadBody;
    }
    var todo := store.CreateTodo(Owner(c), title.value);
    resp := Response(200, TodoJson(todo));
  }

  /** GET `/:id`: the caller's todo with that id, or a null body; never another owner's todo. */
  method GetTodo(store: TodoStore, c: RequestContext, param: string) returns (resp: Response)
    requires store.Valid() && c.jwtPayload.Some?
    ensures GetTodoSchema(param).None? ==> resp == BadParam
    ensures GetTodoSchema(param).Some? ==>
              resp == Response(200, TodoOrNull(FindTodo(store.rows, Owner(c), GetTodoSchema(param).value)))
    ensures resp.body.TodoJson? ==>
              resp.body.todo.userId == Owner(c) && resp.body.todo.id == GetTodoSchema(param).value &&
              exists row :: row in store.rows && resp.body.todo == ToTodoModel(row)
    ensures resp.body.NullJson? <==>
              GetTodoSchema(param).Some? &&
              forall row :: row in store.rows ==> !Matches(row, Owner(c), GetTodoSchema(param).value)
  {
    var id := GetTodoSchema(param);
    if id.None? {
      return BadParam;
    }
    var todo := store.GetTodoById(Owner(c), id.value);
    resp := Response(200, TodoOrNull(todo));
  }

  /** GET `/`: every todo of the caller and nothing else. */
  method ListTodos(store: TodoStore, c: RequestContext) returns (resp: Response)
    requires c.jwtPayload.Some?
    ensures resp == Response(200, TodoListJson(ToTodoModels(RowsOf(store.rows, Owner(c)))))
    ensures forall t :: t in resp.body.todos ==> t.userId == Owner(c)
    ensures forall row :: row in store.rows && row.userId == Owner(c) ==> ToTodoModel(row) in resp.body.todos
    ensures |resp.body.todos| == |RowsOf(store.rows, Owner(c))|
  {
    var todos := store.GetTodos(Owner(c));
    resp := Response(200, TodoListJson(todos));
  }

  /** PUT `/:id`: the id is checked first, then the body; the store result goes back as is. */
  method PutTodo(store: TodoStore, c: RequestContext, param: string, body: Json) returns (resp: Response)
    requires store.Valid() && c.jwtPayload.Some?
    modifies store
    ensures store.Valid()
    ensures GetTodoSchema(param).None? ==> resp == BadParam && store.rows == old(store.rows)
    ensures GetTodoSchema(param).Some? && UpdateTodoSchema(body).None? ==>
              resp == BadBody && store.rows == old(store.rows)
    ensures GetTodoSchema(param).Some? && UpdateTodoSchema(body).Some? ==>
              var id, u := GetTodoSchema(param).value, UpdateTodoSchema(body).value;
              && store.rows == UpdateWhere(old(store.rows), Owner(c), id, u.title, u.completed)
              && resp == Response(200, TodoOrNull(FindTodo(store.rows, Owner(c), id)))
              && (resp.body.NullJson? <==> FindRow(old(store.rows), Owner(c), id).None?)
              && (resp.body.TodoJson? ==>
                    resp.body.todo == ToTodoModel(ApplyPatch(FindRow(old(store.rows), Owner(c), id).value, u.title, u.completed)))
  {
    var id := GetTodoSchema(param);
    if id.None? {
      return BadParam;
    }
    var u := UpdateTodoSchema(body);
    if u.None? {
      return BadBody;
    }
    var todo := store.UpdateTodo(Owner(c), id.value, u.value.title, u.value.completed);
    resp := Response(200, TodoOrNull(todo));
  }

  /** DELETE `/:id`: removes the caller's todo if there is one, and answers `{success: true}` either way. */
  method DeleteTodo(store: TodoStore, c: RequestContext, param: string) returns (resp: Response)
    requires store.Valid() && c.jwtPayload.Some?
    modifies store
    ensures store.Valid()
    ensures GetTodoSchema(param).None? ==> resp == BadParam && store.rows == old(store.rows)
    ensures GetTodoSchema(param).Some? ==>
              resp == Response(200, SuccessJson) &&
              store.rows == DeleteWhere(old(store.rows), Owner(c), GetTodoSchema(param).value)
  {
    var id := GetTodoSchema(param);
    if id.None? {
      return BadParam;
    }
    store.DeleteTodo(Owner(c), id.value);
    resp := Response(200, SuccessJson);
  }

  /** The method and path pairs the router registers a handler for. */
  predicate Routed(req: Request) {
    match (req.verb, req.path)
    case (Post, Root) => true
    case (Get, _) => true
    case (Put, Item(_)) => true
    case (Delete, Item(_)) => true
    case _ => false
  }

  /** The table after a request, and the answer to it. */
  datatype Outcome = Outcome(rows: seq<TodoRow>, response: Response)

  /**
   * What the router does for a verified caller `owner`: the handler a request
   * reaches, its validation answers, the statement it runs and what it sends back.
   */
  function Route(rows: seq<TodoRow>, owner: string, req: Request): (out: Outcome)
    ensures req.verb == Get ==> out.rows == rows
    ensures Routed(req) <==> out.response != NoRoute
    ensures !Routed(req) ==> out == Outcome(rows, NoRoute)
    ensures out.response.status in {200, 400, 404}
  {
    match (req.verb, req.path)
    case (Post, Root) =>
      var title := CreateTodoSchema(req.body);
      if title.None? then Outcome(rows, BadBody)
      else
        var row := TodoRow(NextId(rows), owner, title.value, 0);
        Outcome(rows + [row], Response(200, TodoJson(ToTodoModel(row))))
    case (Get, Root) =>
      Outcome(rows, Response(200, TodoListJson(ToTodoModels(RowsOf(rows, owner)))))
    case (Get, Item(param)) =>
      var id := GetTodoSchema(param);
      if id.None? then Outcome(rows, BadParam)
      else Outcome(rows, Response(200, TodoOrNull(FindTodo(rows, owner, id.value))))
    case (Put, Item(param)) =>
      var id, u := GetTodoSchema(param), UpdateTodoSchema(req.body);
      if id.None? then Outcome(rows, BadParam)
      else if u.None? then Outcome(rows, BadBody)
      else
        var updated := UpdateWhere(rows, owner, id.value, u.value.title, u.value.completed);
        Outcome(updated, Response(200, TodoOrNull(FindTodo(updated, owner, id.value))))
    case (Delete, Item(param)) =>
      var id := GetTodoSchema(param);
      if id.None? then Outcome(rows, BadParam)
      else Outcome(DeleteWhere(rows, owner, id.value), Response(200, SuccessJson))
    case _ => Outcome(rows, NoRoute)
  }

  /** Whatever a caller sends, the rows of every other owner stay exactly as they were. */
  lemma RouteOnlyTouchesCaller(rows: seq<TodoRow>, owner: string, req: Request, other: string)
    requires other != owner
    ensures RowsOf(Route(rows, owner, req).rows, other) == RowsOf(rows, other)
  {
    var out := Route(rows, owner, req);
    match (req.verb, req.path)
    case (Post, Root) =>
      if out.rows != rows {
        var row := TodoRow(NextId(rows), owner, CreateTodoSchema(req.body).value, 0);
        RowsOfAppend(rows, row, other);
      }
    case (Put, Item(param)) =>
      if GetTodoSchema(param).Some? && UpdateTodoSchema(req.body).Some? {
        var u := UpdateTodoSchema(req.body).value;
        RowsOfUpdateOther(rows, owner, GetTodoSchema(param).value, u.title, u.completed, other);
      }
    case (Delete, Item(param)) =>
      if GetTodoSchema(param).Some? {
        RowsOfDeleteOther(rows, owner, GetTodoSchema(param).value, other);
      }
    case _ =>
  }

  /** No request makes two rows share an id. */
  lemma RouteKeepsUniqueIds(rows: seq<TodoRow>, owner: string, req: Request)
    requires UniqueIds(rows)
    ensures UniqueIds(Route(rows, owner, req).rows)
  {
    match (req.verb, req.path)
    case (Post, Root) =>
      if CreateTodoSchema(req.body).Some? {
        InsertKeepsUniqueIds(rows, TodoRow(NextId(rows), owner, CreateTodoSchema(req.body).value, 0));
      }
    case (Put, Item(param)) =>
      if GetTodoSchema(param).Some? && UpdateTodoSchema(req.body).Some? {
        var u := UpdateTodoSchema(req.body).value;
        UpdateKeepsUniqueIds(rows, owner, GetTodoSchema(param).value, u.title, u.completed);
      }
    case (Delete, Item(param)) =>
      if GetTodoSchema(param).Some? {
        DeleteKeepsUniqueIds(rows, owner, GetTodoSchema(param).value);
      }
    case _ =>
  }

  /** A table whose ids are all positive, as SQLite assigns them. */
  predicate PositiveIds(rows: seq<TodoRow>) {
    forall row :: row in rows ==> row.id >= 1
  }

  /**
   * A todo just created can be read back by its creator at `/todos/<id>`, and
   * the same request from any other owner answers null.
   */
  lemma CreatedTodoVisibleOnlyToCreator(rows: seq<TodoRow>, owner: string, body: Json,
                                        auth: Option<string>, other: string)
    requires UniqueIds(rows) && PositiveIds(rows)
    requires CreateTodoSchema(body).Some?
    requires other != owner
    ensures var created := Route(rows, owner, Request(Post, Root, auth, body));
            var read := Request(Get, Item(DecimalString(NextId(rows))), auth, JNull);
            && Route(created.rows, owner, read).response == created.response
            && Route(created.rows, other, read).response == Response(200, NullJson)
  {
    var id := NextId(rows);
    var row := TodoRow(id, owner, CreateTodoSchema(body).value, 0);
    assert id >= 1 by {
      if rows != [] {
        var r :| r in rows && r.id == id - 1;
      }
    }
    IdParamRoundTrip(id);
    FindAfterInsert(rows, row);
    InsertKeepsUniqueIds(rows, row);
    ForeignRowNotFound(rows + [row], row, other);
  }

  /** After a delete, reading the same id answers null, and deleting again changes nothing. */
  lemma DeleteThenRead(rows: seq<TodoRow>, owner: string, param: string, auth: Option<string>, body: Json)
    requires GetTodoSchema(param).Some?
    ensures var deleted := Route(rows, owner, Request(Delete, Item(param), auth, body));
            && Route(deleted.rows, owner, Request(Get, Item(param), auth, body)).response == Response(200, NullJson)
            && Route(deleted.rows, owner, Request(Delete, Item(param), auth, body)) == deleted
  {
    var id := GetTodoSchema(param).value;
    DeleteIdempotent(rows, owner, id);
    assert FindRow(DeleteWhere(rows, owner, id), owner, id).None?;
  }

  /**
   * The router's dispatch: a request reaches exactly one handler, which does
   * what `Route` says; whatever it does, the rows of every owner other than the
   * caller stay as they were.
   */
  method Dispatch(store: TodoStore, c: RequestContext, req: Request) returns (resp: Response)
    requires store.Valid() && c.jwtPayload.Some?
    modifies store
    ensures store.Valid()
    ensures Outcome(store.rows, resp) == Route(old(store.rows), Owner(c), req)
    ensures req.verb == Get ==> store.rows == old(store.rows)
    ensures Routed(req) <==> resp != NoRoute
    ensures !Routed(req) ==> resp == NoRoute && store.rows == old(store.rows)
    ensures forall owner :: owner != Owner(c) ==> RowsOf(store.rows, owner) == RowsOf(old(store.rows), owner)
  {
    var before := store.rows;
    match (req.verb, req.path) {
    case (Post, Root) =>
      resp := PostTodo(store, c, req.body);
    case (Get, Root) =>
      resp := ListTodos(store, c);
    case (Get, Item(param)) =>
      resp := GetTodo(store, c, param);
    case (Put, Item(param)) =>
      resp := PutTodo(store, c, param, req.body);
    case (Delete, Item(param)) =>
      resp := DeleteTodo(store, c, param);
    case _ =>
      resp := NoRoute;
    }
    forall owner | owner != Owner(c) ensures RowsOf(store.rows, owner) == RowsOf(before, owner) {
      RouteOnlyTouchesCaller(before, Owner(c), req, owner);
    }
  }

  /**
   * A request to the router: `authMiddleWare` runs first for every path, and
   * only a verified request reaches a handler, which acts for the verified
   * subject. `handlersThrow` says whether the handlers behind `next()` throw
   * (the database failing, say) before any statement takes effect; the gate's
   * `catch` answers that with 401 "Invalid token".
   */
  method Serve(store: TodoStore, c: RequestContext, req: Request, verify: string -> Option<JwtPayload>,
               handlersThrow: bool)
    returns (resp: Response)
    requires store.Valid()
    modifies store, c
    ensures store.Valid()
    ensures Auth.Authenticated(req.authorization, verify).None? ==>
              && resp.status == 401 && store.rows == old(store.rows)
              && c.jwtPayload == old(c.jwtPayload)
    ensures Auth.Authenticated(req.authorization, verify).Some? ==>
              c.jwtPayload == Auth.Authenticated(req.authorization, verify)
    ensures Auth.Authenticated(req.authorization, verify).Some? && handlersThrow ==>
              resp == Auth.InvalidToken && store.rows == old(store.rows)
    ensures Auth.Authenticated(req.authorization, verify).Some? && !handlersThrow ==>
              && Outcome(store.rows, resp) == Route(old(store.rows), Auth.Authenticated(req.authorization, verify).value.sub, req)
              && resp.status != 401
    ensures forall owner :: !Auth.AuthenticatedAs(req.authorization, verify, owner) ==>
              RowsOf(store.rows, owner) == RowsOf(old(store.rows), owner)
  {
    var step := Auth.AuthMiddleware(c, req.authorization, verify);
    if step.Respond? {
      return step.response;
    }
    var outcome: Auth.Downstream;
    if handlersThrow {
      outcome := Auth.Raised;
    } else {
      var handled := Dispatch(store, c, req);
      outcome := Auth.Completed(handled);
    }
    resp := Auth.CatchDownstream(outcome);
  }
}
