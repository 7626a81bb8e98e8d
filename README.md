# Todo and category store

A model of the data layer behind a small Flask todo application that ships in
two variants: `app.py` over SQLite and `api/index.py` over PostgreSQL. Both
keep two tables. `categories` holds an id, a unique name and a colour. `todos`
holds an id, a task, a description, a completed flag, a priority, an optional
due date, an optional category reference, and creation and update times. Each
route runs one or two SQL statements against these tables.

The model has six modules:

- `Schema`: the rows, the engine (SQLite or PostgreSQL), the form defaults and
  the five seeded categories.
- `Text`: Python's `str.strip()`, `str.lstrip(c)` and `str.startswith`, over
  the whitespace set of `str.isspace()`.
- `Seqs`: counting, filtering, a distinct-keys predicate, and a sort
  specified by a total preorder.
- `Tables`: lookup by id, the LEFT JOIN from a todo to its category, and the
  row predicates of the DELETE statements.
- `Store`: the class `TodoStore`. It holds both tables as sequences in rowid
  order, plus the AUTOINCREMENT/SERIAL counters. Each route that writes is one
  method with `modifies this`, and is specified by its exact new state. All
  methods preserve one invariant, `Valid`:
  - ids are distinct and below the counter;
  - stored text is stripped and the task is non-empty;
  - category names are non-empty and unique;
  - under PostgreSQL, every reference names a category.
- `Dashboard`: the read-only queries. These are the app.py dashboard (order,
  join, four counts), `/api/todo_stats`, and the active-only dashboard of
  api/index.py.
- `DatabaseUrl`: `parse_database_url` of api/index.py.

The two engines differ in ways the routes can observe, and `TodoStore.engine`
selects which one is meant:

- app.py never enables SQLite's foreign keys (`get_db_connection`,
  app.py:65-69). The `ON DELETE SET NULL` clause at app.py:44 therefore has no
  effect: deleting a category leaves its todos' `category_id` dangling, and an
  insert with an unknown category id succeeds. The model states the visible
  consequence: through the LEFT JOIN, such a todo shows no category name.
- PostgreSQL enforces the reference (api/index.py:87). An insert with an
  unknown category fails, and the route shows an error page. Deleting a
  category sets the references to it to NULL.
- A failed PostgreSQL insert still uses up a SERIAL value. A failed SQLite
  insert does not advance AUTOINCREMENT.

api/index.py has no `edit_todo`, `add_category`, `delete_category`,
`clear_completed` or `todo_stats` route; these exist only in app.py, and the
dashboards and statistics of `Dashboard` other than `ActiveDashboard` are
those of app.py. The store methods for these routes still accept the
`PostgreSQL` engine. For that engine they apply the constraints of the
api/index.py schema (the foreign key with `ON DELETE SET NULL`, and SERIAL ids)
to what the app.py routes mean to do. They do not model the app.py statements
as PostgreSQL would run them, which differs in the ways listed under
"## Left out".

Under SQLite, a priority outside 1..3 goes before priority 3 on the dashboard.
The dashboard orders by `CASE priority WHEN 3 THEN 1 WHEN 2 THEN 2 WHEN 1 THEN
3 END`, which is NULL for any other priority, and SQLite's ascending sort puts
NULL first. `DashboardPrecedes` models this as written. The form only offers
1..3, but the route does no range check (app.py:165).

## Model

| member | source | states |
|---|---|---|
| `Store.TodoStore.constructor` | app.py:23-46 | A new database has both tables empty and both id counters at 1; the store invariant holds. |
| `Store.TodoStore.InitDb` | app.py:48-60 | When `categories` is empty, the five default categories are inserted in order, with consecutive ids from the counter. Otherwise nothing changes. The table is non-empty afterwards, so a second run changes nothing (api/index.py:94-109 does the same). |
| `Store.TodoStore.AddTodo` | app.py:161-177 | A task that is blank after stripping is rejected, and the table is unchanged. Otherwise exactly one todo is appended with the next id, the stripped task and description, completed false, priority defaulting to 1, and the given due date, category and time. Under PostgreSQL an unknown category is a foreign-key error: no row is added, but the SERIAL value is used (api/index.py:263-281). |
| `Store.TodoStore.ToggleTodo` | app.py:189-195 | The todo with that id has its completed flag negated and `updatedAt` set to now. Every other todo, and both tables' other contents, are unchanged. The result says whether the id was found; a missing id changes nothing (api/index.py:292-299). |
| `Store.TodoStore.DeleteTodo` | app.py:210 | The todos table becomes exactly the todos whose id differs, in their order. Categories and counters are unchanged (api/index.py:312). |
| `Store.DeleteTodoIdempotent` | app.py:210 | Deleting the same id twice gives the same table as deleting it once. |
| `Store.DeleteMissingTodo` | api/index.py:312 | Deleting an id that no todo has leaves the table unchanged. |
| `Store.TodoStore.EditTodo` | app.py:224-238 | A blank task is rejected and nothing changes. Otherwise only the todo with that id gets the stripped task and description, priority, due date, category and update time. Its completed flag and creation time stay as they were. A missing id updates no row. |
| `Store.TodoStore.AddCategory` | app.py:268-281 | An empty stripped name is rejected. A stripped name already in the table is rejected by the UNIQUE constraint (app.py:26). Otherwise one category is appended, with the stripped name and the given or the default colour `#667eea`. Names stay unique. |
| `Store.TodoStore.DeleteCategory` | app.py:292 | The category with that id is removed, and no todo is removed. Under SQLite the todos are unchanged. Under PostgreSQL the references to it become NULL (api/index.py:87). Either way, no todo that referenced it shows a category name afterwards. |
| `Store.TodoStore.ClearCompleted` | app.py:304-305 | Exactly the completed todos are removed, and the incomplete ones are kept unchanged and in order. The returned count is the number of completed todos, which equals the number of rows removed. |
| `Tables.FindTodo` | app.py:189 | When some row has the id, the result is the position of a row with that id. It is None exactly when no row has the id. |
| `Tables.CategoryOf` | app.py:121-123 | The LEFT JOIN finds a category row whose id equals the reference. It finds none exactly when the reference is NULL or matches no category. |
| `Tables.DetachCategory` | api/index.py:87 | `ON DELETE SET NULL`: each todo that referenced the category has its reference set to NULL, and every other todo is unchanged. |
| `Tables.DeletedCategoryIsGone` | app.py:292 | After the DELETE, no reference to the deleted id finds a category. |
| `Tables.CompletedPlusActive` | app.py:139-140 | The completed todos and the incomplete todos together are all the todos. |
| `Text.Strip` | app.py:163 | The result is empty exactly when the input is all whitespace. Otherwise the result neither starts nor ends with whitespace. |
| `Text.StripIsSlice` | app.py:163-164 | `strip` removes whitespace at both ends and nothing else: its result is a contiguous slice of the input with only whitespace around it. |
| `Text.StrippedIsFixpoint` | app.py:224-225 | The strings `strip` returns are exactly those it leaves unchanged. |
| `Text.StripIdempotent` | app.py:268 | Stripping twice is stripping once. |
| `Text.LStrip` | api/index.py:37 | `lstrip('/')` returns a suffix of the path: everything it dropped is `/`, and the result does not start with `/`. |
| `Dashboard.JoinAllRows` | app.py:120-123 | The joined rows carry the todos unchanged and in order. Each row has the category name its reference finds. |
| `Dashboard.DashboardStats` | app.py:138-141 | total is the number of todos, and completed is the number of completed todos. pending = total - completed = the number of incomplete todos. overdue is the number of incomplete todos due strictly before today. Hence overdue <= pending <= total. |
| `Dashboard.DashboardOrderIsTotal` | app.py:124-131 | The dashboard order is total and transitive, so the ORDER BY is well defined up to ties. |
| `Dashboard.DashboardRows` | app.py:120-132 | The dashboard lists every todo exactly once, and is sorted by the dashboard order. Each row carries its category's name and colour, or none for a NULL or dangling reference. |
| `Dashboard.HigherPriorityFirst` | app.py:125-129 | Among priorities 1..3, a higher priority is never listed after a lower one. |
| `Dashboard.CategoryCounts` | app.py:319-324 | A row is present exactly when some category has a positive number of incomplete todos. That row holds the category's name, colour and count. There are exactly as many rows as such categories, and with unique category names no name appears twice: one row per group. |
| `Dashboard.CategoryStatsSpec` | app.py:319-326 | The category statistics are sorted by descending count and are a permutation of the per-category counts. They hold exactly the categories with incomplete todos, one row each: as many rows as such categories, and no name twice when category names are unique. |
| `Dashboard.PriorityStatsSpec` | app.py:329-335 | The per-priority rows have strictly descending priorities and positive counts. The count they give for any priority is its number of incomplete todos. |
| `Dashboard.PriorityStatsRows` | app.py:329-335 | There is one row for each priority that some incomplete todo has, holding that priority's number of incomplete todos, in descending priority order. |
| `Dashboard.ActiveDashboardSpec` | api/index.py:173-179 | The api/index.py dashboard lists exactly the incomplete todos, each once, by priority descending then creation time descending. Each row is joined to its category. |
| `DatabaseUrl.NormalizeScheme` | api/index.py:30-31 | A URL starting with `postgres://` has that prefix, and only that prefix, replaced by `postgresql://`. Any other URL is unchanged. |
| `DatabaseUrl.NormalizeSchemeIdempotent` | api/index.py:30-31 | The normalised URL never starts with `postgres://`, so normalising twice is normalising once. |
| `DatabaseUrl.ParseDatabaseUrl` | api/index.py:24-41 | A missing or empty URL is an error, "No database URL found". Otherwise host, user and password come from the parsed normalised URL. The port comes from it too, unless absent or 0, in which case it is 5432. The database is the path without its leading slashes, and sslmode is always `require`. |

## Left out

- Flask routing, redirects, flash messages, templates and the HTML the
  PostgreSQL dashboard builds (including its priority-to-class indexing):
  presentation only.
- Login, logout, the session, the password and the random insults: they
  guard the routes but do not touch the tables.
- Connections, commit, rollback and close: every route is one atomic table
  operation. A failure beyond the ones modelled (BlankTask, foreign-key and
  UNIQUE violations) is not represented.
- `urlparse`: it is a parameter of `ParseDatabaseUrl` returning the
  hostname, port, path, username and password. `get_database_url` and the
  environment lookup are not part of this model.
- Wall-clock time: `now` and `today` are parameters. `created_at` comes from
  the database's `CURRENT_TIMESTAMP` and `updated_at` from the application's
  `datetime.now()`; the model gives both the same `now`. Dates are day
  numbers, so the `strptime` parsing of app.py:141 is not modelled.
- Form decoding: `int()` of the priority, `or None` of the due date and
  category, and the text-to-integer conversion of `category_id` are taken as
  already done. A priority that does not parse is an exception in the
  source and is not modelled.
- `SELECT * FROM categories ORDER BY name` on the dashboard, the edit form
  and the categories page: it only feeds rendering. The `GET` branch of
  `edit_todo` (its "not found" message) is rendering only.
- The `last_notified` column of the PostgreSQL schema and the imported mail
  modules: nothing in these files uses them.
- The `created_at` column of `categories`: no route reads it.
- The Vercel `handler`.
- AUTOINCREMENT and SERIAL are modelled as counters that never go back. Both
  databases can in principle be made to reuse or skip values by means
  outside these files.
- The app.py statements as PostgreSQL would run them. `DELETE FROM todos WHERE
  completed = 1` (app.py:304) and the `completed = 0` conditions of
  `todo_stats` (app.py:322, app.py:332) compare a `BOOLEAN` column
  (api/index.py:84) with an integer. PostgreSQL rejects that comparison, so
  those statements would fail rather than run. `add_category` catches only
  `sqlite3.IntegrityError` (app.py:280), not psycopg2's error for a duplicate
  name. These routes are not part of api/index.py. Under `PostgreSQL` the
  model gives `ClearCompleted` and `AddCategory` the effect the app.py route
  intends.
- The `VARCHAR(255)` and `VARCHAR(7)` length limits on category name and colour
  (api/index.py:72-73): no route of api/index.py writes a category other than
  the five seeded ones, which fit.
- `Dashboard` ties: the SQL leaves the order of rows equal on every sort key to
  the database. The model sorts by insertion and states only "sorted by the
  order, and a permutation".
