/**
 * The ownership-scoped todo store (apps/backend/src/data-access/todo.ts).
 *
 * The SQLite table is the row sequence `TodoStore.rows`, in scan order. Each
 * SQL statement the store issues is a function over that sequence:
 *   `where userId = u`               RowsOf
 *   `findFirst where userId, id`     FindRow
 *   `update ... where userId, id`    UpdateWhere
 *   `delete ... where userId, id`    DeleteWhere
 *   the rowid SQLite assigns          NextId
 * and the store's five operations are the methods of `TodoStore`, which
 * replace `rows` by the function of its old value.
 */
module TodoDataAccess {
  import opened Wrappers
  import opened TodoSchema

  /** The API's view of a todo: `completed` is a boolean. */
  datatype Todo = Todo(id: int, userId: string, title: string, completed: bool)

  /** `toTodoModel`: only the stored integer 1 reads as completed. */
  function ToTodoModel(row: TodoRow): Todo {
    Todo(row.id, row.userId, row.title, row.completed == 1)
  }

  /** The `.map(toTodoModel)` applied to a query result. */
  function ToTodoModels(rows: seq<TodoRow>): (todos: seq<Todo>)
    ensures |todos| == |rows|
    ensures forall i :: 0 <= i < |rows| ==> todos[i] == ToTodoModel(rows[i])
  {
    seq(|rows|, i requires 0 <= i < |rows| => ToTodoModel(rows[i]))
  }

  /** The value `updateTodo` writes to the `completed` column: `completed ? 1 : 0`. */
  function StoredCompleted(completed: Option<bool>): int {
    if completed == Some(true) then 1 else 0
  }

  /**
   * The row after `set({ title, completed: completed ? 1 : 0 })`. An undefined
   * `title` leaves the column as it was (the ORM drops undefined keys from `set`);
   * `completed` is always written.
   */
  function ApplyPatch(row: TodoRow, title: Option<string>, completed: Option<bool>): TodoRow {
    row.(title := if title.Some? then title.value else row.title,
         completed := StoredCompleted(completed))
  }

  /** The filter `and(eq(userId, u), eq(id, i))` shared by get, update and delete. */
  predicate Matches(row: TodoRow, userId: string, id: int) {
    row.userId == userId && row.id == id
  }

  /** `where eq(userId, u)`: the owner's rows, in table order. */
  function RowsOf(rows: seq<TodoRow>, userId: string): (owned: seq<TodoRow>)
    ensures |owned| <= |rows|
    ensures forall row :: row in owned <==> row in rows && row.userId == userId
  {
    if rows == [] then []
    else if rows[0].userId == userId then [rows[0]] + RowsOf(rows[1..], userId)
    else RowsOf(rows[1..], userId)
  }

  /** `findFirst` with the owner-and-id filter: the first matching row, if any. */
  function FindRow(rows: seq<TodoRow>, userId: string, id: int): (found: Option<TodoRow>)
    ensures found.Some? ==> found.value in rows && Matches(found.value, userId, id)
    ensures found.None? <==> forall row :: row in rows ==> !Matches(row, userId, id)
  {
    if rows == [] then None
    else if Matches(rows[0], userId, id) then Some(rows[0])
    else FindRow(rows[1..], userId, id)
  }

  /** What `getTodoById` answers: the first matching row as a todo, or null. */
  function FindTodo(rows: seq<TodoRow>, userId: string, id: int): Option<Todo> {
    var found := FindRow(rows, userId, id);
    if found.Some? then Some(ToTodoModel(found.value)) else None
  }

  /** `update ... set ... where userId = u and id = i`: every matching row is patched in place. */
  function UpdateWhere(rows: seq<TodoRow>, userId: string, id: int,
                       title: Option<string>, completed: Option<bool>): (updated: seq<TodoRow>)
    ensures |updated| == |rows|
    ensures forall k :: 0 <= k < |rows| && !Matches(rows[k], userId, id) ==> updated[k] == rows[k]
    ensures forall k :: 0 <= k < |rows| && Matches(rows[k], userId, id) ==>
              updated[k] == ApplyPatch(rows[k], title, completed)
  {
    if rows == [] then []
    else
      var rest := UpdateWhere(rows[1..], userId, id, title, completed);
      [if Matches(rows[0], userId, id) then ApplyPatch(rows[0], title, completed) else rows[0]] + rest
  }

  /** `delete ... where userId = u and id = i`: the matching rows go, the others stay. */
  function DeleteWhere(rows: seq<TodoRow>, userId: string, id: int): (kept: seq<TodoRow>)
    ensures |kept| <= |rows|
    ensures forall row :: row in kept <==> row in rows && !Matches(row, userId, id)
  {
    if rows == [] then []
    else if Matches(rows[0], userId, id) then DeleteWhere(rows[1..], userId, id)
    else [rows[0]] + DeleteWhere(rows[1..], userId, id)
  }

  /**
   * The rowid SQLite gives a row inserted without one: one more than the
   * largest id in the table, or 1 when the table is empty.
   */
  function NextId(rows: seq<TodoRow>): (next: int)
    ensures forall row :: row in rows ==> row.id < next
    ensures rows == [] ==> next == 1
    ensures rows != [] ==> exists row :: row in rows && row.id == next - 1
  {
    if rows == [] then 1
    else if |rows| == 1 then rows[0].id + 1
    else
      var rest := NextId(rows[1..]);
      if rows[0].id + 1 < rest then rest else rows[0].id + 1
  }

  // ---------------------------------------------------------------------
  // Properties of the statements
  // ---------------------------------------------------------------------

  /** Writing `completed` and reading it back gives the argument, with undefined read back as false. */
  lemma CompletedRoundTrip(row: TodoRow, title: Option<string>, completed: Option<bool>)
    ensures ApplyPatch(row, title, completed).completed in {0, 1}
    ensures ToTodoModel(ApplyPatch(row, title, completed)).completed == (completed == Some(true))
  {
  }

  /** Any stored integer other than 1 (2, -1, ...) reads as not completed. */
  lemma OnlyOneReadsAsCompleted(row: TodoRow)
    ensures ToTodoModel(row).completed <==> row.completed == 1
    ensures ToTodoModel(row).id == row.id && ToTodoModel(row).userId == row.userId
    ensures ToTodoModel(row).title == row.title
  {
  }

  /** An insert shows up in its owner's listing, at the end, and in nobody else's. */
  lemma {:induction false} RowsOfAppend(rows: seq<TodoRow>, row: TodoRow, userId: string)
    ensures RowsOf(rows + [row], userId) ==
            RowsOf(rows, userId) + (if row.userId == userId then [row] else [])
  {
    if rows == [] {
      assert rows + [row] == [row];
    } else {
      assert (rows + [row])[1..] == rows[1..] + [row];
      RowsOfAppend(rows[1..], row, userId);
    }
  }

  /** An update by one owner leaves every other owner's rows exactly as they were. */
  lemma {:induction false} RowsOfUpdateOther(rows: seq<TodoRow>, userId: string, id: int,
                                             title: Option<string>, completed: Option<bool>, other: string)
    requires other != userId
    ensures RowsOf(UpdateWhere(rows, userId, id, title, completed), other) == RowsOf(rows, other)
  {
    if rows != [] {
      var updated := UpdateWhere(rows, userId, id, title, completed);
      assert updated[1..] == UpdateWhere(rows[1..], userId, id, title, completed);
      assert updated[0].userId == rows[0].userId;
      assert rows[0].userId == other ==> updated[0] == rows[0];
      RowsOfUpdateOther(rows[1..], userId, id, title, completed, other);
    }
  }

  /** A delete by one owner leaves every other owner's rows exactly as they were. */
  lemma {:induction false} RowsOfDeleteOther(rows: seq<TodoRow>, userId: string, id: int, other: string)
    requires other != userId
    ensures RowsOf(DeleteWhere(rows, userId, id), other) == RowsOf(rows, other)
  {
    if rows != [] {
      RowsOfDeleteOther(rows[1..], userId, id, other);
      if !Matches(rows[0], userId, id) {
        assert ([rows[0]] + DeleteWhere(rows[1..], userId, id))[1..] == DeleteWhere(rows[1..], userId, id);
      }
    }
  }

  /** Deleting is idempotent: the second delete of the same (owner, id) changes nothing. */
  lemma {:induction false} DeleteIdempotent(rows: seq<TodoRow>, userId: string, id: int)
    ensures DeleteWhere(DeleteWhere(rows, userId, id), userId, id) == DeleteWhere(rows, userId, id)
  {
    if rows != [] {
      DeleteIdempotent(rows[1..], userId, id);
      if !Matches(rows[0], userId, id) {
        assert ([rows[0]] + DeleteWhere(rows[1..], userId, id))[1..] == DeleteWhere(rows[1..], userId, id);
      }
    }
  }

  /** A delete keeps the primary key intact: what remains still has unique ids. */
  lemma {:induction false} DeleteKeepsUniqueIds(rows: seq<TodoRow>, userId: string, id: int)
    requires UniqueIds(rows)
    ensures UniqueIds(DeleteWhere(rows, userId, id))
  {
    if rows != [] {
      var tail := rows[1..];
      assert UniqueIds(tail) by {
        forall i, j | 0 <= i < j < |tail| ensures tail[i].id != tail[j].id {
          assert tail[i] == rows[i + 1] && tail[j] == rows[j + 1];
        }
      }
      DeleteKeepsUniqueIds(tail, userId, id);
      if !Matches(rows[0], userId, id) {
        var kept := DeleteWhere(rows, userId, id);
        var rest := DeleteWhere(tail, userId, id);
        assert kept == [rows[0]] + rest;
        forall j | 1 <= j < |kept| ensures kept[0].id != kept[j].id {
          assert kept[j] == rest[j - 1];
          assert kept[j] in tail;
          var k :| 0 <= k < |tail| && tail[k] == kept[j];
          assert tail[k] == rows[k + 1];
        }
        forall i, j | 0 <= i < j < |kept| ensures kept[i].id != kept[j].id {
          if i > 0 {
            assert kept[i] == rest[i - 1] && kept[j] == rest[j - 1];
          }
        }
      }
    }
  }

  /** An update touches neither `id` nor `userId`, so the primary key stays intact. */
  lemma UpdateKeepsUniqueIds(rows: seq<TodoRow>, userId: string, id: int,
                             title: Option<string>, completed: Option<bool>)
    requires UniqueIds(rows)
    ensures UniqueIds(UpdateWhere(rows, userId, id, title, completed))
  {
    var updated := UpdateWhere(rows, userId, id, title, completed);
    forall k | 0 <= k < |rows| ensures updated[k].id == rows[k].id {
    }
  }

  /** Inserting a row with the id SQLite assigns keeps the primary key intact. */
  lemma InsertKeepsUniqueIds(rows: seq<TodoRow>, row: TodoRow)
    requires UniqueIds(rows)
    requires row.id == NextId(rows)
    ensures UniqueIds(rows + [row])
  {
    var extended := rows + [row];
    forall i, j | 0 <= i < j < |extended| ensures extended[i].id != extended[j].id {
      if j == |rows| {
        assert extended[i] == rows[i];
        assert rows[i] in rows;
      } else {
        assert extended[i] == rows[i] && extended[j] == rows[j];
      }
    }
  }

  /** With unique ids, another owner's row is "not found", exactly like an id that does not exist. */
  lemma ForeignRowNotFound(rows: seq<TodoRow>, row: TodoRow, other: string)
    requires UniqueIds(rows)
    requires row in rows && row.userId != other
    ensures FindRow(rows, other, row.id) == None
  {
  }

  /** Round trip: the row just inserted is what a lookup of its id by its owner returns. */
  lemma {:induction false} FindAfterInsert(rows: seq<TodoRow>, row: TodoRow)
    requires row.id == NextId(rows)
    ensures FindRow(rows + [row], row.userId, row.id) == Some(row)
  {
    FindInsertedFresh(rows, row);
  }

  /** Helper: a lookup of a fresh id scans past every old row and stops at the new one. */
  lemma {:induction false} FindInsertedFresh(rows: seq<TodoRow>, row: TodoRow)
    requires forall r :: r in rows ==> r.id != row.id
    ensures FindRow(rows + [row], row.userId, row.id) == Some(row)
  {
    if rows == [] {
      assert rows + [row] == [row];
    } else {
      assert (rows + [row])[1..] == rows[1..] + [row];
      assert rows[0] in rows;
      FindInsertedFresh(rows[1..], row);
    }
  }

  /** An update by the owner is visible to the owner's next lookup of that id. */
  lemma {:induction false} FindAfterUpdate(rows: seq<TodoRow>, userId: string, id: int,
                                           title: Option<string>, completed: Option<bool>)
    requires FindRow(rows, userId, id).Some?
    ensures FindRow(UpdateWhere(rows, userId, id, title, completed), userId, id) ==
            Some(ApplyPatch(FindRow(rows, userId, id).value, title, completed))
  {
    var updated := UpdateWhere(rows, userId, id, title, completed);
    assert updated[1..] == UpdateWhere(rows[1..], userId, id, title, completed);
    if !Matches(rows[0], userId, id) {
      FindAfterUpdate(rows[1..], userId, id, title, completed);
    }
  }

  /**
   * Frame of an update: every lookup under a different (owner, id) pair returns
   * what it returned before; in particular no other owner sees a change.
   */
  lemma {:induction false} FindUnaffectedByUpdate(rows: seq<TodoRow>, userId: string, id: int,
                                                  title: Option<string>, completed: Option<bool>,
                                                  otherUser: string, otherId: int)
    requires otherUser != userId || otherId != id
    ensures FindRow(UpdateWhere(rows, userId, id, title, completed), otherUser, otherId) ==
            FindRow(rows, otherUser, otherId)
  {
    if rows != [] {
      var updated := UpdateWhere(rows, userId, id, title, completed);
      assert updated[1..] == UpdateWhere(rows[1..], userId, id, title, completed);
      assert Matches(updated[0], otherUser, otherId) ==> updated[0] == rows[0];
      FindUnaffectedByUpdate(rows[1..], userId, id, title, completed, otherUser, otherId);
    }
  }

  /** Frame of a delete: every lookup under a different (owner, id) pair returns what it returned before. */
  lemma {:induction false} FindUnaffectedByDelete(rows: seq<TodoRow>, userId: string, id: int,
                                                  otherUser: string, otherId: int)
    requires otherUser != userId || otherId != id
    ensures FindRow(DeleteWhere(rows, userId, id), otherUser, otherId) == FindRow(rows, otherUser, otherId)
  {
    if rows != [] {
      FindUnaffectedByDelete(rows[1..], userId, id, otherUser, otherId);
      if !Matches(rows[0], userId, id) {
        assert ([rows[0]] + DeleteWhere(rows[1..], userId, id))[1..] == DeleteWhere(rows[1..], userId, id);
      }
    }
  }

  /** A title-only update writes 0 to `completed`: the todo reads back as not completed. */
  lemma TitleOnlyUpdateResetsCompleted(rows: seq<TodoRow>, userId: string, id: int, title: string)
    requires FindRow(rows, userId, id).Some?
    ensures FindRow(UpdateWhere(rows, userId, id, Some(title), None), userId, id).Some?
    ensures ToTodoModel(FindRow(UpdateWhere(rows, userId, id, Some(title), None), userId, id).value)
              == ToTodoModel(FindRow(rows, userId, id).value).(title := title, completed := false)
  {
    FindAfterUpdate(rows, userId, id, Some(title), None);
  }

  /** A completed-only update keeps the stored title. */
  lemma CompletedOnlyUpdateKeepsTitle(rows: seq<TodoRow>, userId: string, id: int, completed: bool)
    requires FindRow(rows, userId, id).Some?
    ensures FindRow(UpdateWhere(rows, userId, id, None, Some(completed)), userId, id).Some?
    ensures ToTodoModel(FindRow(UpdateWhere(rows, userId, id, None, Some(completed)), userId, id).value)
              == ToTodoModel(FindRow(rows, userId, id).value).(completed := completed)
  {
    FindAfterUpdate(rows, userId, id, None, Some(completed));
  }

  // ---------------------------------------------------------------------
  // The store
  // ---------------------------------------------------------------------

  /** The shared database handle `db`, holding the `todos` table. */
  class TodoStore {
    var rows: seq<TodoRow>

    /** The table keeps its primary-key constraint. */
    ghost predicate Valid()
      reads this
    {
      UniqueIds(rows)
    }

    constructor ()
      ensures Valid() && rows == []
    {
      rows := [];
    }

    /** `getTodos(userId)`: exactly the caller's rows, as todos; the table is not changed. */
    method GetTodos(userId: string) returns (todos: seq<Todo>)
      ensures todos == ToTodoModels(RowsOf(rows, userId))
      ensures |todos| == |RowsOf(rows, userId)|
      ensures forall t :: t in todos <==> exists row :: row in rows && row.userId == userId && t == ToTodoModel(row)
    {
      var owned := RowsOf(rows, userId);
      todos := ToTodoModels(owned);
      forall t | t in todos ensures exists row :: row in rows && row.userId == userId && t == ToTodoModel(row) {
        var i :| 0 <= i < |todos| && todos[i] == t;
        assert owned[i] in owned;
      }
      forall row | row in rows && row.userId == userId ensures ToTodoModel(row) in todos {
        var i :| 0 <= i < |owned| && owned[i] == row;
        assert todos[i] == ToTodoModel(row);
      }
    }

    /**
     * `getTodoById(userId, id)`: the todo when a row matches both the owner and
     * the id, otherwise null; with unique ids, another owner's row gives the
     * same null as a missing id.
     */
    method GetTodoById(userId: string, id: int) returns (todo: Option<Todo>)
      requires Valid()
      ensures todo.Some? <==> exists row :: row in rows && Matches(row, userId, id)
      ensures forall row :: row in rows && Matches(row, userId, id) ==> todo == Some(ToTodoModel(row))
      ensures todo == FindTodo(rows, userId, id)
    {
      var found := FindRow(rows, userId, id);
      todo := FindTodo(rows, userId, id);
      forall row | row in rows && Matches(row, userId, id) ensures todo == Some(ToTodoModel(row)) {
        var i :| 0 <= i < |rows| && rows[i] == row;
        var j :| 0 <= j < |rows| && rows[j] == found.value;
        assert i == j;
      }
    }

    /**
     * `createTodo(userId, title)`: appends one row owned by the caller with
     * `completed` 0 and a fresh id; returns it as a todo that is not completed.
     */
    method CreateTodo(userId: string, title: string) returns (todo: Todo)
      requires Valid()
      modifies this
      ensures Valid()
      ensures todo.id == NextId(old(rows))
      ensures rows == old(rows) + [TodoRow(todo.id, userId, title, 0)]
      ensures todo == Todo(todo.id, userId, title, false)
      ensures forall row :: row in old(rows) ==> row.id != todo.id
    {
      var row := TodoRow(NextId(rows), userId, title, 0);
      InsertKeepsUniqueIds(rows, row);
      rows := rows + [row];
      todo := ToTodoModel(row);
    }

    /**
     * `updateTodo(userId, id, title, completed)`: patches only the row matching
     * both owner and id and returns it; null, with the table unchanged, when no
     * row matches. `completed` is stored as 1 only for `true`.
     */
    method UpdateTodo(userId: string, id: int, title: Option<string>, completed: Option<bool>)
      returns (todo: Option<Todo>)
      requires Valid()
      modifies this
      ensures Valid()
      ensures rows == UpdateWhere(old(rows), userId, id, title, completed)
      ensures todo.None? <==> FindRow(old(rows), userId, id).None?
      ensures todo.None? ==> rows == old(rows)
      ensures todo.Some? ==> todo.value == ToTodoModel(ApplyPatch(FindRow(old(rows), userId, id).value, title, completed))
      ensures todo.Some? ==> todo.value.completed == (completed == Some(true))
      ensures todo.Some? ==> FindRow(rows, userId, id) == Some(ApplyPatch(FindRow(old(rows), userId, id).value, title, completed))
    {
      var before := rows;
      UpdateKeepsUniqueIds(rows, userId, id, title, completed);
      rows := UpdateWhere(rows, userId, id, title, completed);
      var found := FindRow(before, userId, id);
      if found.Some? {
        FindAfterUpdate(before, userId, id, title, completed);
        todo := Some(ToTodoModel(FindRow(rows, userId, id).value));
      } else {
        NoMatchUpdateIsIdentity(before, userId, id, title, completed);
        todo := None;
      }
    }

    /** `deleteTodo(userId, id)`: removes the rows matching both owner and id; a no-op otherwise. */
    method DeleteTodo(userId: string, id: int)
      requires Valid()
      modifies this
      ensures Valid()
      ensures rows == DeleteWhere(old(rows), userId, id)
      ensures FindRow(rows, userId, id).None?
    {
      DeleteKeepsUniqueIds(rows, userId, id);
      rows := DeleteWhere(rows, userId, id);
    }
  }

  /** An update whose filter matches no row leaves the table unchanged. */
  lemma NoMatchUpdateIsIdentity(rows: seq<TodoRow>, userId: string, id: int,
                                title: Option<string>, completed: Option<bool>)
    requires FindRow(rows, userId, id).None?
    ensures UpdateWhere(rows, userId, id, title, completed) == rows
  {
    var updated := UpdateWhere(rows, userId, id, title, completed);
    forall k | 0 <= k < |rows| ensures updated[k] == rows[k] {
      assert rows[k] in rows;
    }
  }
}

/**
 * A caller's view of the store, using only the contracts above: one owner
 * creates, completes and deletes a todo that another owner never sees.
 */
module TodoStoreClient {
  import opened Wrappers
  import opened TodoSchema
  import opened TodoDataAccess

  method OwnershipScenario() {
    var store := new TodoStore();
    var created := store.CreateTodo("userA", "Buy milk");
    assert created == Todo(1, "userA", "Buy milk", false);

    var updated := store.UpdateTodo("userA", 1, None, Some(true));
    assert updated == Some(Todo(1, "userA", "Buy milk", true));

    var seenByB := store.GetTodoById("userB", 1);
    assert seenByB == None;

    var listOfB := store.GetTodos("userB");
    assert listOfB == [];

    store.DeleteTodo("userA", 1);
    var afterDelete := store.GetTodoById("userA", 1);
    assert afterDelete == None;
  }
}
