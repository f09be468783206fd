# Ownership-scoped todo store, its router and its authentication gate

This project models the backend core of a todo application. The core is a SQLite
`todos` table behind five data-access calls: list, get, create, update and delete.
Every call is filtered by the caller's `userId`. In front of the store sit a Hono
router that validates requests and an authentication middleware that verifies a
bearer token and stores its payload in the request context.

- `schema.dfy` (module `TodoSchema`): the `todos` row and the primary-key constraint.
- `todo_store.dfy` (module `TodoDataAccess`): the table is the `rows` field of
  the class `TodoStore`, in scan order. Each SQL statement is a function over the
  rows: `RowsOf`, `FindRow`, `UpdateWhere`, `DeleteWhere`, and `NextId` for the
  rowid SQLite assigns. The five store methods set `rows` to the function of its
  old value. The lemmas prove the frame and non-interference properties:
  - a write by one owner never changes what another owner can list or look up;
  - a lookup of another owner's id is the same "not found" as a missing id;
  - the primary key stays unique;
  - create followed by get returns the created todo;
  - delete is idempotent.
- `context.dfy` (module `AppContext`): the request context with its `jwtPayload`
  variable, the JSON request bodies and the responses.
- `auth.dfy` (module `Auth`): `header.split(" ")[1]` as `Split` and
  `ExtractToken`, and the middleware as the method `AuthMiddleware`. The Cognito
  verifier is a parameter `verify: string -> Option<JwtPayload>`.
- `todo_routes.dfy` (module `TodoRoutes`): the three zod schemas as functions and
  the handlers as methods. `Dispatch` is the router. `Serve` is the router behind
  the middleware. Its contract is the end-to-end guarantee:
  - an unverified request gets 401 and changes nothing;
  - a verified request changes no row of any owner except the token's subject.

  `Route` is the router as a function of the table, the caller and the request;
  `Dispatch` and `Serve` are proved against it, and the lemmas beside it state
  what it keeps (other owners' rows, unique ids) and the create-read and
  delete-read round trips.
- `todo_store.dfy` also holds the module `TodoStoreClient`, whose method
  `OwnershipScenario` uses only the store's contracts: one owner creates,
  completes and deletes a todo that a second owner neither finds nor lists.

Model assumptions and behaviour kept as written:

- `updateTodo` writes `completed ? 1 : 0` unconditionally. A title-only update
  therefore resets `completed` to false. The model keeps this behaviour and proves
  it in `TitleOnlyUpdateResetsCompleted`.
- The model assumes the ORM drops undefined keys from `set`. Under that
  assumption an update without a `title` keeps the stored title.
- The store does not check the title. Only the router's schema does: the store
  accepts any title, and POST rejects a title outside 1 to 100 characters.
- The schema declares `id` as `INTEGER PRIMARY KEY` without AUTOINCREMENT. A new
  row gets the largest id plus one, or 1 on an empty table (`NextId`). The new id
  is fresh with respect to the current table. After the row with the largest id is
  deleted, that id can be handed out again. The model therefore does not claim
  that ids are never reused.
- A query without `order by` is modelled as returning rows in table order.

## Model

| member | source | states |
|---|---|---|
| `TodoDataAccess.OnlyOneReadsAsCompleted` | apps/backend/src/data-access/todo.ts:6-18 | `toTodoModel` copies id, userId and title unchanged; `completed` reads true exactly when the stored integer is 1, so any other integer reads false |
| `TodoDataAccess.CompletedRoundTrip` | apps/backend/src/data-access/todo.ts:48-50 | an update stores 0 or 1 in `completed`; reading it back gives true exactly when the argument was `true`; undefined and false both read back as false |
| `TodoDataAccess.ToTodoModels` | apps/backend/src/data-access/todo.ts:23 | the `.map(toTodoModel)` keeps the length and converts row i into todo i |
| `TodoDataAccess.RowsOf` | apps/backend/src/data-access/todo.ts:20-22 | `where userId = u` yields exactly the rows of the table owned by `u` |
| `TodoDataAccess.FindRow` | apps/backend/src/data-access/todo.ts:27-29 | a found row is in the table and matches both owner and id; nothing is found exactly when no row matches both |
| `TodoDataAccess.UpdateWhere` | apps/backend/src/data-access/todo.ts:46-53 | the update keeps the row count; each row matching owner and id is patched; every other row is unchanged |
| `TodoDataAccess.DeleteWhere` | apps/backend/src/data-access/todo.ts:58 | the rows that remain are exactly the old rows that do not match both owner and id |
| `TodoDataAccess.NextId` | apps/backend/src/db/schema.ts:4 | the id a new row gets is larger than every id in the table: the largest plus one, or 1 for an empty table |
| `TodoDataAccess.RowsOfAppend` | apps/backend/src/data-access/todo.ts:33-43 | an inserted row appears at the end of its owner's listing and in no other owner's listing |
| `TodoDataAccess.RowsOfUpdateOther` | apps/backend/src/data-access/todo.ts:45-55 | an update by one owner leaves every other owner's rows exactly as they were |
| `TodoDataAccess.RowsOfDeleteOther` | apps/backend/src/data-access/todo.ts:57-59 | a delete by one owner leaves every other owner's rows exactly as they were |
| `TodoDataAccess.DeleteIdempotent` | apps/backend/src/data-access/todo.ts:57-59 | deleting the same (owner, id) twice leaves the same table as deleting it once |
| `TodoDataAccess.DeleteKeepsUniqueIds` | apps/backend/src/db/schema.ts:4 | a delete keeps the ids of the table unique |
| `TodoDataAccess.UpdateKeepsUniqueIds` | apps/backend/src/db/schema.ts:4 | an update changes neither id nor owner, so the ids stay unique |
| `TodoDataAccess.InsertKeepsUniqueIds` | apps/backend/src/db/schema.ts:4 | inserting a row with the assigned id keeps the ids unique |
| `TodoDataAccess.ForeignRowNotFound` | apps/backend/src/data-access/todo.ts:26-31 | with unique ids, looking up another owner's row by its id finds nothing, the same as a missing id |
| `TodoDataAccess.FindAfterInsert` | apps/backend/src/data-access/todo.ts:33-43 | round trip: after an insert, the owner's lookup of the new id returns exactly the inserted row |
| `TodoDataAccess.FindAfterUpdate` | apps/backend/src/data-access/todo.ts:45-55 | after an update of an existing row, the owner's lookup of that id returns the patched row |
| `TodoDataAccess.FindUnaffectedByUpdate` | apps/backend/src/data-access/todo.ts:52 | an update changes no lookup under any other (owner, id) pair |
| `TodoDataAccess.FindUnaffectedByDelete` | apps/backend/src/data-access/todo.ts:58 | a delete changes no lookup under any other (owner, id) pair |
| `TodoDataAccess.TitleOnlyUpdateResetsCompleted` | apps/backend/src/data-access/todo.ts:48-50 | an update with a title and no `completed` sets the title and reads back as not completed, whatever the row held before |
| `TodoDataAccess.CompletedOnlyUpdateKeepsTitle` | apps/backend/src/data-access/todo.ts:47-50 | an update without a title keeps the stored title and sets `completed` to the argument (assumes undefined keys are dropped from `set`) |
| `TodoDataAccess.NoMatchUpdateIsIdentity` | apps/backend/src/data-access/todo.ts:52-54 | an update whose filter matches no row leaves the table unchanged |
| `TodoDataAccess.TodoStore.GetTodos` | apps/backend/src/data-access/todo.ts:19-24 | the list is the caller's rows in table order, converted; it holds a todo exactly when some row of the caller converts to it; it has one entry per row of the caller; the table is not changed |
| `TodoDataAccess.TodoStore.GetTodoById` | apps/backend/src/data-access/todo.ts:26-31 | a todo comes back exactly when a row matches both owner and id, and it is that row's todo (the first match, `FindTodo`); otherwise null |
| `TodoDataAccess.TodoStore.CreateTodo` | apps/backend/src/data-access/todo.ts:33-43 | appends one row (assigned id, caller as owner, given title, `completed` 0); the id is fresh; the returned todo is not completed; the other rows are unchanged |
| `TodoDataAccess.TodoStore.UpdateTodo` | apps/backend/src/data-access/todo.ts:45-55 | the table becomes the filtered update of the old one; null exactly when no row matches, and then nothing changes; otherwise it returns the patched row, with `completed` true only for `true` |
| `TodoDataAccess.TodoStore.DeleteTodo` | apps/backend/src/data-access/todo.ts:57-59 | the table becomes the old one without the rows matching owner and id; afterwards nothing matches; ids stay unique |
| `Auth.Split` | apps/backend/src/middlewares/auth.ts:17 | `split(" ")` gives at least one piece; no piece contains a space; joining the pieces with single spaces gives back the header |
| `Auth.SplitJoin` | apps/backend/src/middlewares/auth.ts:17 | splitting undoes joining space-free pieces |
| `Auth.ExtractToken` | apps/backend/src/middlewares/auth.ts:17-20 | an extracted token is non-empty and contains no space |
| `Auth.AnySchemeAccepted` | apps/backend/src/middlewares/auth.ts:17 | the first word is never checked: any space-free scheme, one space and a non-empty space-free token yield that token, whatever words follow |
| `Auth.NoSpaceNoToken` | apps/backend/src/middlewares/auth.ts:17-20 | a header without a space (such as "Bearer") yields no token |
| `Auth.DoubleSpaceNoToken` | apps/backend/src/middlewares/auth.ts:17-20 | two spaces after the scheme (such as "Bearer  x") yield no token |
| `Auth.Credential` | apps/backend/src/middlewares/auth.ts:13-20 | a missing or empty header gives no credential; a credential is always the header's extracted token |
| `Auth.AuthMiddleware` | apps/backend/src/middlewares/auth.ts:12-24 | no credential: 401 "Authorization header is required"; a credential the verifier rejects: 401 "Invalid token"; a rejected request leaves `jwtPayload` as it was; otherwise `jwtPayload` is set to the verified payload and `next` is called |
| `Auth.CatchDownstream` | apps/backend/src/middlewares/auth.ts:21-28 | an exception thrown behind `next()` becomes 401 "Invalid token"; a completed response passes through unchanged (its use in `TodoRoutes.Serve` is where both paths are exercised) |
| `TodoRoutes.CreateTodoSchema` | apps/backend/src/routes/todos.ts:16-18 | a POST body is accepted exactly when it is an object whose `title` is a string of 1 to 100 characters; the result is that title |
| `TodoRoutes.CreateBodyIgnoresOtherKeys` | apps/backend/src/routes/todos.ts:29-31 | only `title` is read from a POST body; other keys, such as a `userId`, change nothing |
| `TodoRoutes.UpdateTodoSchema` | apps/backend/src/routes/todos.ts:20-23 | a PUT body is accepted exactly when it is an object whose `title`, if present, is a string of 1 to 100 characters and whose `completed`, if present, is a boolean; each parsed field equals the body's key, or is absent when the key is absent |
| `TodoRoutes.UpdateBodyRoundTrip` | apps/backend/src/routes/todos.ts:20-23 | each combination of optional title and optional boolean, including neither, is accepted and read back as sent |
| `TodoRoutes.GetTodoSchema` | apps/backend/src/routes/todos.ts:25-27 | an `:id` is accepted exactly when it is a non-empty digit string denoting at least 1, and the result is the number it denotes |
| `TodoRoutes.IdParamRoundTrip` | apps/backend/src/routes/todos.ts:26 | every positive integer, written in decimal, is accepted as itself |
| `TodoRoutes.IdParamRejects` | apps/backend/src/routes/todos.ts:26 | the empty string, "0", "00" and anything that is not all digits are rejected |
| `TodoRoutes.PostTodo` | apps/backend/src/routes/todos.ts:29-33 | an invalid body gets 400 and changes nothing; otherwise one row is appended, owned by the token's subject with the validated title, and returned as a todo that is not completed |
| `TodoRoutes.GetTodo` | apps/backend/src/routes/todos.ts:35-39 | a bad `:id` gets 400; otherwise 200 with the caller's todo with that id, or a null body exactly when the caller has none; another owner's todo is never returned |
| `TodoRoutes.ListTodos` | apps/backend/src/routes/todos.ts:41-44 | 200 with the todos of the token's subject in table order: every todo of that subject and no todo of anyone else |
| `TodoRoutes.PutTodo` | apps/backend/src/routes/todos.ts:46-61 | the `:id` is checked before the body; either failure gets 400 and changes nothing; otherwise the table gets the subject-scoped update and the answer is 200 with the caller's row as it now stands, which is the patched todo, or null exactly when no row matched |
| `TodoRoutes.DeleteTodo` | apps/backend/src/routes/todos.ts:63-67 | a bad `:id` gets 400; otherwise the subject's matching row is deleted and the answer is `{success: true}` whether or not a row was removed |
| `TodoRoutes.Dispatch` | apps/backend/src/routes/todos.ts:29-67 | the new table and the answer are exactly what `Route` prescribes for the token's subject; GET requests change nothing; a request has a route exactly when the answer is not 404; no request changes the rows of an owner other than the subject |
| `TodoRoutes.Route` | apps/backend/src/routes/todos.ts:29-67 | GET requests leave the table alone; a request has a route exactly when the answer is not 404; every answer is 200, 400 or 404, never 401 |
| `TodoRoutes.RouteOnlyTouchesCaller` | apps/backend/src/routes/todos.ts:29-67 | whatever a caller sends, every other owner's rows stay exactly as they were |
| `TodoRoutes.RouteKeepsUniqueIds` | apps/backend/src/routes/todos.ts:29-67 | no request makes two rows share an id |
| `TodoRoutes.CreatedTodoVisibleOnlyToCreator` | apps/backend/src/routes/todos.ts:29-39 | after a POST, a GET of `/<new id>` by the creator answers exactly the created todo, and the same GET by any other owner answers null |
| `TodoRoutes.DeleteThenRead` | apps/backend/src/routes/todos.ts:35-39 | after a DELETE of an id, a GET of that id answers null, and repeating the DELETE changes nothing and answers the same |
| `TodoRoutes.Serve` | apps/backend/src/middlewares/auth.ts:12-28 | every route sits behind the gate: an unverified request gets 401 and leaves the table and `jwtPayload` unchanged; a verified one sets `jwtPayload` to the payload; if the handlers throw, the answer is 401 "Invalid token" and the table is unchanged; otherwise table and answer are what `Route` prescribes for the verified subject, never 401; no row of an owner other than the verified subject changes |

## Left out

- The ORM, SQL text and the SQLite engine are not modelled. The table is a row sequence, and each statement is one atomic step.
- Storage failures are not modelled in detail. `Serve` takes a flag saying whether the handlers throw, and a throwing handler is assumed to fail before any statement takes effect; a failure after a write is not modelled.
- Hono's `compose` may pass a handler's exception to the application's error handler before it reaches the middleware's `catch`. That framework code is not part of this model.
- The `console.log(e)` in the middleware's `catch` is not modelled, because it is logging I/O.
- The Cognito verifier is a function parameter. It stands for the signature check, the key fetch, expiry, the token use and the client id, and those checks are not modelled.
- Concurrent requests and lost updates are not modelled. Every request runs alone.
- `TodoRoutes.GetTodoSchema`: accepts only strings of decimal digits. `Number()` also accepts surrounding whitespace, a `+` sign, hexadecimal, exponents and a `.0` fraction, and the model rejects those forms.
- `TodoRoutes.GetTodoSchema`: does not model the loss of precision when `Number()` reads digit strings longer than 15 digits.
- `TodoRoutes.CreateTodoSchema`: counts the title length in Unicode code points. Zod counts UTF-16 code units, so a character outside the Basic Multilingual Plane counts as 1 in the model and as 2 in zod.
- `TodoRoutes.UpdateTodoSchema`: has the same code-point length limitation as `CreateTodoSchema`.
- The detailed zod error bodies of a 400 are left out. A 400 names only the part of the request that failed.
- Request bodies that are not valid JSON, and JSON numbers that are not integers, are not modelled. A body is modelled as an already-parsed JSON value.
- `TodoDataAccess.NextId`: does not model SQLite's random rowid choice once the largest id reaches 2^63 - 1. It also does not model the 64-bit bounds on ids.
- The chat and NFT routes, the frontend, app mounting, CORS and the request logger are not modelled. They are UI, network I/O or calls into the OpenAI SDK.
- A path other than `/` or `/:id`, and HTTP methods other than GET, POST, PUT and DELETE, are not modelled.
