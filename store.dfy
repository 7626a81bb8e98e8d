/** The todo and category tables behind the routes, updated in place by one
    method per route. The same store serves both variants of the
    application; `engine` says which database it stands for, because the
    two differ in two ways that the routes can observe:
    - app.py never enables SQLite's foreign keys, so a category id is not
      checked on insert and deleting a category leaves its todos' references
      dangling; PostgreSQL checks the reference and, on delete, sets it to
      NULL (api/index.py:87);
    - a PostgreSQL SERIAL value is used up even by an insert that fails,
      while a failed SQLite insert leaves the AUTOINCREMENT counter alone. */
module Store {
  import opened Schema
  import opened Text
  import opened Seqs
  import opened Tables

  /** What a todo insert or update did. BlankTask is the "Task cannot be
      empty!" path; ForeignKeyViolation is the exception PostgreSQL raises
      for a category id that names no category. */
  datatype Outcome = Done | BlankTask | ForeignKeyViolation

  /** What `add_category` did: EmptyName is the "cannot be empty" path,
      DuplicateName the IntegrityError of the UNIQUE constraint. */
  datatype CategoryOutcome = CategoryAdded | EmptyName | DuplicateName

  /** The text columns as the routes store them: stripped, and the task not
      empty. */
  ghost predicate StoredText(t: Todo) {
    t.task != [] && IsStripped(t.task) && IsStripped(t.description)
  }

  /** What the schema and the routes keep true of `todos`: ids come from the
      AUTOINCREMENT / SERIAL counter and are distinct (PRIMARY KEY), and the
      text columns are as the routes store them. */
  ghost predicate TodoRowsOk(todos: seq<Todo>, nextTodoId: int) {
    && (forall k :: 0 <= k < |todos| ==> 0 < todos[k].id < nextTodoId && StoredText(todos[k]))
    && Distinct(TodoId, todos)
  }

  /** What the schema and the routes keep true of `categories`: ids from the
      counter, distinct, and names non-empty and distinct (UNIQUE). */
  ghost predicate CategoryRowsOk(cats: seq<Category>, nextCategoryId: int) {
    && (forall k :: 0 <= k < |cats| ==> 0 < cats[k].id < nextCategoryId && cats[k].name != [])
    && Distinct(CategoryId, cats)
    && Distinct(CategoryName, cats)
  }

  /** The foreign key from `todos.category_id` to `categories.id`, which only
      PostgreSQL enforces. */
  ghost predicate ReferencesOk(engine: Engine, todos: seq<Todo>, cats: seq<Category>) {
    engine == PostgreSQL ==> forall k :: 0 <= k < |todos| ==> ReferenceOk(cats, todos[k].categoryId)
  }

  lemma TodoRowsGrow(todos: seq<Todo>, next: int)
    requires TodoRowsOk(todos, next)
    ensures TodoRowsOk(todos, next + 1)
  {
  }

  lemma AppendTodoOk(todos: seq<Todo>, next: int, t: Todo)
    requires TodoRowsOk(todos, next) && t.id == next && 0 < next && StoredText(t)
    ensures TodoRowsOk(todos + [t], next + 1)
  {
    var r := todos + [t];
    forall i, j | 0 <= i < j < |r| ensures TodoId(r[i]) != TodoId(r[j]) {
      if j < |todos| {
        assert TodoId(todos[i]) != TodoId(todos[j]);
      }
    }
  }

  lemma AppendTodoReferencesOk(engine: Engine, todos: seq<Todo>, cats: seq<Category>, t: Todo)
    requires ReferencesOk(engine, todos, cats)
    requires engine == PostgreSQL ==> ReferenceOk(cats, t.categoryId)
    ensures ReferencesOk(engine, todos + [t], cats)
  {
  }

  /** Within distinct ids, the row at `i` is the only one with its id. */
  lemma OnlyRowWithId(todos: seq<Todo>, i: nat)
    requires Distinct(TodoId, todos) && i < |todos|
    ensures forall k :: 0 <= k < |todos| && k != i ==> todos[k].id != todos[i].id
  {
    forall k | 0 <= k < |todos| && k != i ensures todos[k].id != todos[i].id {
      if k < i {
        assert TodoId(todos[k]) != TodoId(todos[i]);
      } else {
        assert TodoId(todos[i]) != TodoId(todos[k]);
      }
    }
  }

  lemma UpdateTodoOk(todos: seq<Todo>, next: int, i: nat, t: Todo)
    requires TodoRowsOk(todos, next) && i < |todos| && t.id == todos[i].id && StoredText(t)
    ensures TodoRowsOk(todos[i := t], next)
  {
    var r := todos[i := t];
    forall a, b | 0 <= a < b < |r| ensures TodoId(r[a]) != TodoId(r[b]) {
      assert TodoId(r[a]) == TodoId(todos[a]) && TodoId(r[b]) == TodoId(todos[b]);
    }
  }

  lemma UpdateTodoReferencesOk(engine: Engine, todos: seq<Todo>, cats: seq<Category>, i: nat, t: Todo)
    requires ReferencesOk(engine, todos, cats) && i < |todos|
    requires engine == PostgreSQL ==> ReferenceOk(cats, t.categoryId)
    ensures ReferencesOk(engine, todos[i := t], cats)
  {
  }

  lemma FilterTodosOk(engine: Engine, p: Todo -> bool, todos: seq<Todo>, cats: seq<Category>, next: int)
    requires TodoRowsOk(todos, next) && ReferencesOk(engine, todos, cats)
    ensures TodoRowsOk(Filter(p, todos), next) && ReferencesOk(engine, Filter(p, todos), cats)
  {
    var r := Filter(p, todos);
    FilterKeepsDistinct(p, TodoId, todos);
    forall k | 0 <= k < |r|
      ensures 0 < r[k].id < next && StoredText(r[k])
      ensures engine == PostgreSQL ==> ReferenceOk(cats, r[k].categoryId)
    {
      assert r[k] in r;
      var m :| 0 <= m < |todos| && todos[m] == r[k];
    }
  }

  lemma CategoryRowsGrow(cats: seq<Category>, next: int)
    requires CategoryRowsOk(cats, next)
    ensures CategoryRowsOk(cats, next + 1)
  {
  }

  lemma AppendCategoryOk(cats: seq<Category>, next: int, c: Category)
    requires CategoryRowsOk(cats, next) && c.id == next && 0 < next
    requires c.name != [] && !NameTaken(cats, c.name)
    ensures CategoryRowsOk(cats + [c], next + 1)
  {
    var r := cats + [c];
    forall i, j | 0 <= i < j < |r|
      ensures CategoryId(r[i]) != CategoryId(r[j]) && CategoryName(r[i]) != CategoryName(r[j])
    {
      if j < |cats| {
        assert CategoryId(cats[i]) != CategoryId(cats[j]);
        assert CategoryName(cats[i]) != CategoryName(cats[j]);
      }
    }
  }

  /** A new category breaks no reference. */
  lemma AppendCategoryReferencesOk(engine: Engine, todos: seq<Todo>, cats: seq<Category>, c: Category)
    requires ReferencesOk(engine, todos, cats)
    ensures ReferencesOk(engine, todos, cats + [c])
  {
    if engine == PostgreSQL {
      forall k | 0 <= k < |todos| ensures ReferenceOk(cats + [c], todos[k].categoryId) {
        var ref := todos[k].categoryId;
        if ref.Some? {
          assert CategoryOf(cats, ref).value in cats + [c];
        }
      }
    }
  }

  lemma DeleteCategoryOk(engine: Engine, todos: seq<Todo>, cats: seq<Category>, next: int, id: int)
    requires CategoryRowsOk(cats, next) && ReferencesOk(engine, todos, cats)
    ensures CategoryRowsOk(Filter(CategoryIdIsNot(id), cats), next)
    ensures engine == PostgreSQL ==>
      ReferencesOk(engine, DetachCategory(todos, id), Filter(CategoryIdIsNot(id), cats))
  {
    var rest := Filter(CategoryIdIsNot(id), cats);
    FilterKeepsDistinct(CategoryIdIsNot(id), CategoryId, cats);
    FilterKeepsDistinct(CategoryIdIsNot(id), CategoryName, cats);
    forall k | 0 <= k < |rest| ensures 0 < rest[k].id < next && rest[k].name != [] {
      assert rest[k] in rest;
      var m :| 0 <= m < |cats| && cats[m] == rest[k];
    }
    if engine == PostgreSQL {
      var detached := DetachCategory(todos, id);
      forall k | 0 <= k < |detached| ensures ReferenceOk(rest, detached[k].categoryId) {
        if detached[k].categoryId.Some? {
          var c := CategoryOf(cats, todos[k].categoryId).value;
          assert CategoryIdIsNot(id)(c);
          assert c in rest;
        }
      }
    }
  }

  lemma DetachKeepsTodoRows(todos: seq<Todo>, next: int, id: int)
    requires TodoRowsOk(todos, next)
    ensures TodoRowsOk(DetachCategory(todos, id), next)
  {
    var r := DetachCategory(todos, id);
    forall a, b | 0 <= a < b < |r| ensures TodoId(r[a]) != TodoId(r[b]) {
      assert TodoId(r[a]) == TodoId(todos[a]) && TodoId(r[b]) == TodoId(todos[b]);
    }
  }

  /** Deleting a todo by id a second time changes nothing. */
  lemma DeleteTodoIdempotent(todos: seq<Todo>, id: int)
    ensures Filter(TodoIdIsNot(id), Filter(TodoIdIsNot(id), todos)) == Filter(TodoIdIsNot(id), todos)
  {
    FilterIdempotent(TodoIdIsNot(id), todos);
  }

  /** Deleting an id that no todo has changes nothing. */
  lemma DeleteMissingTodo(todos: seq<Todo>, id: int)
    requires forall k :: 0 <= k < |todos| ==> todos[k].id != id
    ensures Filter(TodoIdIsNot(id), todos) == todos
  {
    FilterKeepsAll(TodoIdIsNot(id), todos);
  }

  class TodoStore {
    const engine: Engine
    var todos: seq<Todo>
    var categories: seq<Category>
    /** The next AUTOINCREMENT / SERIAL value of each table: ids are never
        reused. */
    var nextTodoId: int
    var nextCategoryId: int

    ghost predicate Valid()
      reads this
    {
      && 0 < nextTodoId && 0 < nextCategoryId
      && TodoRowsOk(todos, nextTodoId)
      && CategoryRowsOk(categories, nextCategoryId)
      && ReferencesOk(engine, todos, categories)
    }

    /** The two CREATE TABLE IF NOT EXISTS statements on a new database. */
    constructor (engine: Engine)
      ensures Valid() && this.engine == engine
      ensures todos == [] && categories == [] && nextTodoId == 1 && nextCategoryId == 1
    {
      this.engine := engine;
      todos, categories := [], [];
      nextTodoId, nextCategoryId := 1, 1;
    }

    /** `init_db`: seeds the five default categories when the table is empty
        and otherwise changes nothing. Either way the table is non-empty
        afterwards, so running it again (api/index.py runs it on every
        dashboard request) changes nothing. */
    method InitDb()
      requires Valid()
      modifies this
      ensures Valid()
      ensures todos == old(todos) && nextTodoId == old(nextTodoId)
      ensures categories != []
      ensures old(categories) != [] ==>
        categories == old(categories) && nextCategoryId == old(nextCategoryId)
      ensures old(categories) == [] ==>
        && |categories| == |DefaultCategories|
        && nextCategoryId == old(nextCategoryId) + |DefaultCategories|
        && forall k :: 0 <= k < |categories| ==>
             categories[k] == Category(old(nextCategoryId) + k, DefaultCategories[k].0, DefaultCategories[k].1)
    {
      if categories == [] {
        for i := 0 to |DefaultCategories|
          invariant |categories| == i
          invariant nextCategoryId == old(nextCategoryId) + i
          invariant forall k :: 0 <= k < i ==>
            categories[k] == Category(old(nextCategoryId) + k, DefaultCategories[k].0, DefaultCategories[k].1)
          invariant todos == old(todos) && nextTodoId == old(nextTodoId)
          invariant Valid()
        {
          var (name, color) := DefaultCategories[i];
          assert !NameTaken(categories, name) by {
            forall k | 0 <= k < |categories| ensures categories[k].name != name {
              assert categories[k].name == DefaultCategories[k].0;
            }
          }
          var c := Category(nextCategoryId, name, color);
          AppendCategoryOk(categories, nextCategoryId, c);
          AppendCategoryReferencesOk(engine, todos, categories, c);
          categories := categories + [c];
          nextCategoryId := nextCategoryId + 1;
        }
      }
    }

    /** `add_todo`: a task that is blank after stripping is rejected;
        otherwise one incomplete todo with the stripped fields is appended. */
    method AddTodo(task: string, description: string, priority: Option<int>, due: Option<Date>,
                   categoryId: Option<int>, now: Timestamp)
      returns (outcome: Outcome)
      requires Valid()
      modifies this
      ensures Valid()
      ensures categories == old(categories) && nextCategoryId == old(nextCategoryId)
      ensures outcome == BlankTask <==> Strip(task) == []
      ensures outcome == ForeignKeyViolation <==>
        Strip(task) != [] && engine == PostgreSQL && !ReferenceOk(categories, categoryId)
      ensures outcome == Done ==>
        todos == old(todos) + [Todo(old(nextTodoId), Strip(task), Strip(description), false,
                                    priority.GetOr(DefaultPriority), due, categoryId, now, now)]
      ensures outcome != Done ==> todos == old(todos)
      ensures nextTodoId == if outcome == BlankTask then old(nextTodoId) else old(nextTodoId) + 1
    {
      var stripped := Strip(task);
      if stripped == [] {
        return BlankTask;
      }
      var t := Todo(nextTodoId, stripped, Strip(description), false,
                    priority.GetOr(DefaultPriority), due, categoryId, now, now);
      if engine == PostgreSQL && !ReferenceOk(categories, categoryId) {
        TodoRowsGrow(todos, nextTodoId);
        nextTodoId := nextTodoId + 1;
        return ForeignKeyViolation;
      }
      AppendTodoOk(todos, nextTodoId, t);
      AppendTodoReferencesOk(engine, todos, categories, t);
      todos := todos + [t];
      nextTodoId := nextTodoId + 1;
      outcome := Done;
    }

    /** `toggle_todo`: read the row, write the negation of its flag and a new
        update time. A missing id changes nothing. */
    method ToggleTodo(id: int, now: Timestamp) returns (found: bool)
      requires Valid()
      modifies this
      ensures Valid()
      ensures categories == old(categories)
      ensures nextTodoId == old(nextTodoId) && nextCategoryId == old(nextCategoryId)
      ensures found <==> exists k :: 0 <= k < |old(todos)| && old(todos)[k].id == id
      ensures |todos| == |old(todos)|
      ensures forall k :: 0 <= k < |todos| ==>
        todos[k] == if old(todos)[k].id == id
                    then old(todos)[k].(completed := !old(todos)[k].completed, updatedAt := now)
                    else old(todos)[k]
    {
      match FindTodo(todos, id)
      case None =>
        found := false;
      case Some(i) =>
        var t := todos[i];
        var t' := t.(completed := !t.completed, updatedAt := now);
        OnlyRowWithId(todos, i);
        UpdateTodoOk(todos, nextTodoId, i, t');
        UpdateTodoReferencesOk(engine, todos, categories, i, t');
        todos := todos[i := t'];
        found := true;
    }

    /** `delete_todo`: removes the rows with that id and no other. */
    method DeleteTodo(id: int)
      requires Valid()
      modifies this
      ensures Valid()
      ensures todos == Filter(TodoIdIsNot(id), old(todos))
      ensures categories == old(categories)
      ensures nextTodoId == old(nextTodoId) && nextCategoryId == old(nextCategoryId)
    {
      FilterTodosOk(engine, TodoIdIsNot(id), todos, categories, nextTodoId);
      todos := Filter(TodoIdIsNot(id), todos);
    }

    /** `edit_todo` (POST): a blank task is rejected; otherwise the row with
        that id gets the new fields and update time, keeping its completed
        flag and creation time. A missing id updates no row. */
    method EditTodo(id: int, task: string, description: string, priority: Option<int>,
                    due: Option<Date>, categoryId: Option<int>, now: Timestamp)
      returns (outcome: Outcome)
      requires Valid()
      modifies this
      ensures Valid()
      ensures categories == old(categories)
      ensures nextTodoId == old(nextTodoId) && nextCategoryId == old(nextCategoryId)
      ensures outcome == BlankTask <==> Strip(task) == []
      ensures outcome == ForeignKeyViolation <==>
        && Strip(task) != [] && engine == PostgreSQL && !ReferenceOk(categories, categoryId)
        && exists k :: 0 <= k < |old(todos)| && old(todos)[k].id == id
      ensures outcome != Done ==> todos == old(todos)
      ensures |todos| == |old(todos)|
      ensures outcome == Done ==> forall k :: 0 <= k < |todos| ==>
        todos[k] == if old(todos)[k].id == id
                    then old(todos)[k].(task := Strip(task), description := Strip(description),
                                        priority := priority.GetOr(DefaultPriority), due := due,
                                        categoryId := categoryId, updatedAt := now)
                    else old(todos)[k]
    {
      var stripped := Strip(task);
      if stripped == [] {
        return BlankTask;
      }
      match FindTodo(todos, id)
      case None =>
        outcome := Done;
      case Some(i) =>
        if engine == PostgreSQL && !ReferenceOk(categories, categoryId) {
          return ForeignKeyViolation;
        }
        var t := todos[i];
        var t' := t.(task := stripped, description := Strip(description),
                     priority := priority.GetOr(DefaultPriority), due := due,
                     categoryId := categoryId, updatedAt := now);
        OnlyRowWithId(todos, i);
        UpdateTodoOk(todos, nextTodoId, i, t');
        UpdateTodoReferencesOk(engine, todos, categories, i, t');
        todos := todos[i := t'];
        outcome := Done;
    }

    /** `add_category`: the stripped name must be non-empty and not already
        present; names therefore stay unique. */
    method AddCategory(name: string, color: Option<string>) returns (outcome: CategoryOutcome)
      requires Valid()
      modifies this
      ensures Valid()
      ensures todos == old(todos) && nextTodoId == old(nextTodoId)
      ensures outcome == EmptyName <==> Strip(name) == []
      ensures outcome == DuplicateName <==> Strip(name) != [] && NameTaken(old(categories), Strip(name))
      ensures outcome == CategoryAdded ==>
        categories == old(categories) + [Category(old(nextCategoryId), Strip(name), color.GetOr(DefaultColor))]
      ensures outcome != CategoryAdded ==> categories == old(categories)
      ensures nextCategoryId ==
        if outcome == CategoryAdded || (outcome == DuplicateName && engine == PostgreSQL)
        then old(nextCategoryId) + 1 else old(nextCategoryId)
    {
      var stripped := Strip(name);
      if stripped == [] {
        return EmptyName;
      }
      if NameTaken(categories, stripped) {
        if engine == PostgreSQL {
          CategoryRowsGrow(categories, nextCategoryId);
          nextCategoryId := nextCategoryId + 1;
        }
        return DuplicateName;
      }
      var c := Category(nextCategoryId, stripped, color.GetOr(DefaultColor));
      AppendCategoryOk(categories, nextCategoryId, c);
      AppendCategoryReferencesOk(engine, todos, categories, c);
      categories := categories + [c];
      nextCategoryId := nextCategoryId + 1;
      outcome := CategoryAdded;
    }

    /** `delete_category`: removes the category and no todo. Under PostgreSQL
        the references to it become NULL, under SQLite they stay as they
        were; either way no todo that referenced it shows a category name
        afterwards. */
    method DeleteCategory(id: int)
      requires Valid()
      modifies this
      ensures Valid()
      ensures categories == Filter(CategoryIdIsNot(id), old(categories))
      ensures todos == if engine == PostgreSQL then DetachCategory(old(todos), id) else old(todos)
      ensures nextTodoId == old(nextTodoId) && nextCategoryId == old(nextCategoryId)
      ensures |todos| == |old(todos)|
      ensures forall k :: 0 <= k < |todos| ==> todos[k].id == old(todos)[k].id
      ensures forall k :: 0 <= k < |todos| && old(todos)[k].categoryId == Some(id) ==>
        CategoryNameOf(categories, todos[k].categoryId).None?
    {
      DeleteCategoryOk(engine, todos, categories, nextCategoryId, id);
      DeletedCategoryIsGone(categories, id);
      categories := Filter(CategoryIdIsNot(id), categories);
      if engine == PostgreSQL {
        DetachKeepsTodoRows(todos, nextTodoId, id);
        todos := DetachCategory(todos, id);
      }
    }

    /** `clear_completed`: removes exactly the completed todos, keeps the
        others in order, and returns the row count of the DELETE. */
    method ClearCompleted() returns (count: nat)
      requires Valid()
      modifies this
      ensures Valid()
      ensures todos == Filter(Active, old(todos))
      ensures count == Count(Completed, old(todos))
      ensures count == |old(todos)| - |todos|
      ensures categories == old(categories)
      ensures nextTodoId == old(nextTodoId) && nextCategoryId == old(nextCategoryId)
    {
      CompletedPlusActive(todos);
      FilterTodosOk(engine, Active, todos, categories, nextTodoId);
      var kept := Filter(Active, todos);
      count := |todos| - |kept|;
      todos := kept;
    }
  }
}
