/**
 * The `todos` table (apps/backend/src/db/schema.ts): four NOT NULL columns,
 * `id` the integer primary key, `completed` an INTEGER rather than a boolean.
 */
module TodoSchema {

  /** One stored row. Every column is required, so no field is optional. */
  datatype TodoRow = TodoRow(id: int, userId: string, title: string, completed: int)

  /** The primary-key constraint: no two rows of the table share an `id`. */
  predicate UniqueIds(rows: seq<TodoRow>) {
    forall i, j :: 0 <= i < j < |rows| ==> rows[i].id != rows[j].id
  }
}
