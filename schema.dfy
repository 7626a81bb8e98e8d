/** The two tables of the application, `categories` and `todos`, as rows. */
module Schema {

  datatype Option<T> = None | Some(value: T) {
    function GetOr(default: T): (v: T) {
      if Some? then value else default
    }
  }

  /** A calendar date (a DATE column), as a day number. */
  type Date = int

  /** An instant (a TIMESTAMP column). */
  type Timestamp = int

  /** One row of `todos` (app.py:33-46, api/index.py:79-92). `description` is
      never NULL on the rows the routes write: they store the stripped form
      field, which may be empty. `categoryId` is the stored reference, which
      under SQLite may point at no category (foreign keys are not enforced
      there). The `last_notified` column of the PostgreSQL schema is written
      by nothing in the routes and is not represented. */
  datatype Todo = Todo(
    id: int,
    task: string,
    description: string,
    completed: bool,
    priority: int,
    due: Option<Date>,
    categoryId: Option<int>,
    createdAt: Timestamp,
    updatedAt: Timestamp)

  /** One row of `categories` (app.py:23-30, api/index.py:69-76). */
  datatype Category = Category(id: int, name: string, color: string)

  /** The database behind the routes: app.py uses SQLite without enabling
      foreign keys, api/index.py uses PostgreSQL, which enforces them. */
  datatype Engine = SQLite | PostgreSQL

  /** The priority an absent form field stands for (the form default in
      `add_todo` and `edit_todo`). */
  const DefaultPriority: int := 1

  /** The colour an absent form field stands for in `add_category`, also the
      column default. */
  const DefaultColor: string := "#667eea"

  /** The categories seeded into an empty table, in insertion order. */
  const DefaultCategories: seq<(string, string)> := [
    ("Work", "#3b82f6"),
    ("Personal", "#10b981"),
    ("Shopping", "#f59e0b"),
    ("Health", "#ef4444"),
    ("Learning", "#8b5cf6")
  ]

  predicate Completed(t: Todo) {
    t.completed
  }

  /** `completed = 0` / `completed = FALSE`: the todo is still to do. */
  predicate Active(t: Todo) {
    !t.completed
  }

  function TodoId(t: Todo): (id: int) {
    t.id
  }

  function CategoryId(c: Category): (id: int) {
    c.id
  }

  function CategoryName(c: Category): (name: string) {
    c.name
  }
}
