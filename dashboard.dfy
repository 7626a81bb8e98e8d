/** What the read-only routes compute from the two tables: the dashboard of
    app.py (every todo, joined to its category, in the dashboard order, with
    four counts), the `/api/todo_stats` counts of app.py, and the dashboard
    of api/index.py (incomplete todos only, in a simpler order). */
module Dashboard {
  import opened Schema
  import opened Seqs
  import opened Tables

  // ---------------------------------------------------------------------
  // Rows as the LEFT JOIN yields them

  /** A todo with the `category_name` and `category_color` columns of
      `LEFT JOIN categories c ON t.category_id = c.id`. */
  datatype TodoRow = TodoRow(todo: Todo, categoryName: Option<string>, categoryColor: Option<string>)

  function Join(cats: seq<Category>, t: Todo): (row: TodoRow) {
    match CategoryOf(cats, t.categoryId)
    case Some(c) => TodoRow(t, Some(c.name), Some(c.color))
    case None => TodoRow(t, None, None)
  }

  function JoinAll(cats: seq<Category>, todos: seq<Todo>): (rows: seq<TodoRow>) {
    seq(|todos|, k requires 0 <= k < |todos| => Join(cats, todos[k]))
  }

  function RowTodos(rows: seq<TodoRow>): (todos: seq<Todo>) {
    seq(|rows|, k requires 0 <= k < |rows| => rows[k].todo)
  }

  lemma JoinAllRows(cats: seq<Category>, todos: seq<Todo>)
    ensures RowTodos(JoinAll(cats, todos)) == todos
    ensures forall k :: 0 <= k < |todos| ==>
      JoinAll(cats, todos)[k].categoryName == CategoryNameOf(cats, todos[k].categoryId)
  {
  }

  // ---------------------------------------------------------------------
  // The dashboard statistics (app.py:138-141)

  /** Incomplete, with a due date strictly before today. */
  predicate Overdue(t: Todo, today: Date) {
    !t.completed && t.due.Some? && t.due.value < today
  }

  function OverdueOn(today: Date): (overdue: Todo -> bool) {
    (t: Todo) => Overdue(t, today)
  }

  datatype Stats = Stats(total: nat, completed: nat, pending: nat, overdue: nat)

  /** The four counts, over the list the route fetched. */
  function StatsOf(todos: seq<Todo>, today: Date): (stats: Stats) {
    var completed := Count(Completed, todos);
    Stats(|todos|, completed, |todos| - completed, Count(OverdueOn(today), todos))
  }

  // ---------------------------------------------------------------------
  // The dashboard order of app.py (app.py:124-131)

  /** `CASE t.priority WHEN 3 THEN 1 WHEN 2 THEN 2 WHEN 1 THEN 3 END`: any
      other priority gives NULL. */
  function PriorityCase(p: int): (rank: Option<int>) {
    if p == 3 then Some(1) else if p == 2 then Some(2) else if p == 1 then Some(3) else None
  }

  /** Strictly before in an ascending SQLite sort, which puts NULL first. */
  predicate AscNullsFirst(a: Option<int>, b: Option<int>) {
    match (a, b)
    case (None, Some(_)) => true
    case (Some(x), Some(y)) => x < y
    case _ => false
  }

  /** Strictly before in `ASC NULLS LAST`. */
  predicate AscNullsLast(a: Option<int>, b: Option<int>) {
    match (a, b)
    case (Some(_), None) => true
    case (Some(x), Some(y)) => x < y
    case _ => false
  }

  /** `a` may be listed before `b`: priority 3, then 2, then 1 (other
      priorities, whose CASE is NULL, before all three); within a priority
      by due date, undated last; then newest first. */
  predicate DashboardPrecedes(a: Todo, b: Todo) {
    var pa, pb := PriorityCase(a.priority), PriorityCase(b.priority);
    || AscNullsFirst(pa, pb)
    || (pa == pb && (AscNullsLast(a.due, b.due) || (a.due == b.due && a.createdAt >= b.createdAt)))
  }

  lemma DashboardOrderIsTotal()
    ensures TotalPreorder(DashboardPrecedes)
  {
  }

  datatype DashboardView = DashboardView(rows: seq<TodoRow>, stats: Stats)

  /** The dashboard of app.py: every todo, ordered, joined, and counted. */
  function DashboardOf(todos: seq<Todo>, cats: seq<Category>, today: Date): (view: DashboardView) {
    var ordered := Sort(DashboardPrecedes, todos);
    DashboardView(JoinAll(cats, ordered), StatsOf(ordered, today))
  }

  /** The counts are those of the whole table, whatever its order:
      total = all todos, pending = total - completed, overdue = incomplete
      todos due before today, so 0 <= overdue <= pending <= total. */
  lemma {:induction false} DashboardStats(todos: seq<Todo>, cats: seq<Category>, today: Date)
    ensures var st := DashboardOf(todos, cats, today).stats;
      && st.total == |todos|
      && st.completed == Count(Completed, todos)
      && st.pending == st.total - st.completed
      && st.pending == Count(Active, todos)
      && st.overdue == Count(OverdueOn(today), todos)
      && st.overdue <= st.pending <= st.total
  {
    var ordered := Sort(DashboardPrecedes, todos);
    SortPermutation(DashboardPrecedes, todos);
    PermutationLength(ordered, todos);
    CountPermutation(Completed, ordered, todos);
    CountPermutation(OverdueOn(today), ordered, todos);
    CompletedPlusActive(todos);
    CountMonotone(OverdueOn(today), Active, todos);
  }

  /** Every todo appears once, in the dashboard order, with the name and
      colour of the category its reference finds (none for a dangling one). */
  lemma DashboardRows(todos: seq<Todo>, cats: seq<Category>, today: Date)
    ensures var rows := DashboardOf(todos, cats, today).rows;
      && multiset(RowTodos(rows)) == multiset(todos)
      && (forall i, j :: 0 <= i < j < |rows| ==> DashboardPrecedes(rows[i].todo, rows[j].todo))
      && (forall k :: 0 <= k < |rows| ==> rows[k] == Join(cats, rows[k].todo))
  {
    var ordered := Sort(DashboardPrecedes, todos);
    DashboardOrderIsTotal();
    SortCorrect(DashboardPrecedes, todos);
    JoinAllRows(cats, ordered);
  }

  /** Among the priorities the form offers, a higher one is never listed
      after a lower one. */
  lemma HigherPriorityFirst(todos: seq<Todo>, cats: seq<Category>, today: Date)
    ensures var rows := DashboardOf(todos, cats, today).rows;
      forall i, j :: 0 <= i < j < |rows| && 1 <= rows[i].todo.priority <= 3 && 1 <= rows[j].todo.priority <= 3 ==>
        rows[i].todo.priority >= rows[j].todo.priority
  {
    DashboardRows(todos, cats, today);
  }

  // ---------------------------------------------------------------------
  // `/api/todo_stats` by category (app.py:319-326)

  datatype CategoryCount = CategoryCount(name: string, color: string, count: nat)

  /** The JOIN condition `c.id = t.category_id AND t.completed = 0`. */
  function ActiveIn(id: int): (counted: Todo -> bool) {
    (t: Todo) => Active(t) && t.categoryId == Some(id)
  }

  /** The category has at least one incomplete todo (`HAVING count > 0`). */
  function HasActiveTodos(todos: seq<Todo>): (kept: Category -> bool) {
    (c: Category) => Count(ActiveIn(c.id), todos) > 0
  }

  function CountName(row: CategoryCount): (name: string) {
    row.name
  }

  /** One row per category with its number of incomplete todos, in table
      order, without the categories that have none (`HAVING count > 0`):
      as many rows as categories with incomplete todos, and, since each
      group is one category, no name twice when category names are unique. */
  function CategoryCounts(cats: seq<Category>, todos: seq<Todo>): (rows: seq<CategoryCount>)
    ensures forall row :: row in rows <==>
      exists c :: c in cats && row == CategoryCount(c.name, c.color, Count(ActiveIn(c.id), todos)) && row.count > 0
    ensures |rows| == Count(HasActiveTodos(todos), cats)
    ensures Distinct(CategoryName, cats) ==> Distinct(CountName, rows)
  {
    if cats == [] then []
    else
      var c := cats[0];
      var n := Count(ActiveIn(c.id), todos);
      assert Distinct(CategoryName, cats) ==>
        Distinct(CategoryName, cats[1..]) && forall d :: d in cats[1..] ==> CategoryName(d) != CategoryName(c)
      by {
        if Distinct(CategoryName, cats) {
          DistinctTail(CategoryName, cats);
        }
      }
      var rest := CategoryCounts(cats[1..], todos);
      assert forall d :: d in cats <==> d == c || d in cats[1..];
      if n > 0 then
        var row := CategoryCount(c.name, c.color, n);
        assert Distinct(CategoryName, cats) ==> Distinct(CountName, [row] + rest) by {
          if Distinct(CategoryName, cats) {
            forall y | y in rest ensures CountName(y) != CountName(row) {
              var d :| d in cats[1..] && y == CategoryCount(d.name, d.color, Count(ActiveIn(d.id), todos)) && y.count > 0;
              assert CategoryName(d) != CategoryName(c);
            }
            DistinctCons(CountName, row, rest);
          }
        }
        [row] + rest
      else rest
  }

  /** `ORDER BY count DESC`, as "a may be listed before b". */
  predicate MoreOrEqual(a: CategoryCount, b: CategoryCount) {
    a.count >= b.count
  }

  function CategoryStats(cats: seq<Category>, todos: seq<Todo>): (rows: seq<CategoryCount>) {
    Sort(MoreOrEqual, CategoryCounts(cats, todos))
  }

  /** The category statistics hold exactly the categories with incomplete
      todos, each once with its count, by descending count. */
  lemma {:induction false} CategoryStatsSpec(cats: seq<Category>, todos: seq<Todo>)
    ensures var rows := CategoryStats(cats, todos);
      && (forall i, j :: 0 <= i < j < |rows| ==> rows[i].count >= rows[j].count)
      && multiset(rows) == multiset(CategoryCounts(cats, todos))
      && (forall row :: row in rows <==>
            exists c :: c in cats && row == CategoryCount(c.name, c.color, Count(ActiveIn(c.id), todos)) && row.count > 0)
      && |rows| == Count(HasActiveTodos(todos), cats)
      && (Distinct(CategoryName, cats) ==> Distinct(CountName, rows))
  {
    var counts := CategoryCounts(cats, todos);
    assert TotalPreorder(MoreOrEqual);
    SortCorrect(MoreOrEqual, counts);
    var rows := Sort(MoreOrEqual, counts);
    PermutationLength(rows, counts);
    if Distinct(CategoryName, cats) {
      SortKeepsDistinct(MoreOrEqual, CountName, counts);
    }
    forall row ensures row in rows <==> row in counts {
      assert row in rows <==> row in multiset(rows);
      assert row in counts <==> row in multiset(counts);
    }
  }

  // ---------------------------------------------------------------------
  // `/api/todo_stats` by priority (app.py:329-335)

  datatype PriorityCount = PriorityCount(priority: int, count: nat)

  /** `WHERE completed = 0` within the `GROUP BY priority` group `p`. */
  function ActiveAt(p: int): (counted: Todo -> bool) {
    (t: Todo) => Active(t) && t.priority == p
  }

  /** Strictly descending priorities: one row per priority, in the order
      of `ORDER BY priority DESC`. */
  ghost predicate Descending(rows: seq<PriorityCount>) {
    forall i, j :: 0 <= i < j < |rows| ==> rows[i].priority > rows[j].priority
  }

  ghost predicate Positive(rows: seq<PriorityCount>) {
    forall i :: 0 <= i < |rows| ==> rows[i].count > 0
  }

  /** The count a row list gives priority `p`, 0 when it has no row for it. */
  function CountFor(rows: seq<PriorityCount>, p: int): (n: nat) {
    if rows == [] then 0 else if rows[0].priority == p then rows[0].count else CountFor(rows[1..], p)
  }

  /** Adds one todo of priority `p` to descending rows. */
  function Tally(rows: seq<PriorityCount>, p: int): (tallied: seq<PriorityCount>) {
    if rows == [] then [PriorityCount(p, 1)]
    else if rows[0].priority == p then [PriorityCount(p, rows[0].count + 1)] + rows[1..]
    else if rows[0].priority < p then [PriorityCount(p, 1)] + rows
    else [rows[0]] + Tally(rows[1..], p)
  }

  /** The priority statistics: one tally per incomplete todo. */
  function PriorityStats(todos: seq<Todo>): (rows: seq<PriorityCount>) {
    if todos == [] then []
    else
      var rest := PriorityStats(todos[1..]);
      if Active(todos[0]) then Tally(rest, todos[0].priority) else rest
  }

  lemma {:induction false} CountForAbsent(rows: seq<PriorityCount>, q: int)
    requires forall i :: 0 <= i < |rows| ==> rows[i].priority != q
    ensures CountFor(rows, q) == 0
  {
    if rows != [] {
      CountForAbsent(rows[1..], q);
    }
  }

  lemma {:induction false} TallyBelow(rows: seq<PriorityCount>, p: int, b: int)
    requires p < b && forall i :: 0 <= i < |rows| ==> rows[i].priority < b
    ensures forall i :: 0 <= i < |Tally(rows, p)| ==> Tally(rows, p)[i].priority < b
  {
    if rows != [] && rows[0].priority > p {
      TallyBelow(rows[1..], p, b);
    }
  }

  /** The rows after the first are descending and positive, and below it. */
  lemma DescendingTail(rows: seq<PriorityCount>)
    requires Descending(rows) && Positive(rows) && rows != []
    ensures Descending(rows[1..]) && Positive(rows[1..])
    ensures forall i :: 0 <= i < |rows[1..]| ==> rows[1..][i].priority < rows[0].priority
  {
    var tail := rows[1..];
    forall i, j | 0 <= i < j < |tail| ensures tail[i].priority > tail[j].priority {
      assert tail[i] == rows[i + 1] && tail[j] == rows[j + 1];
    }
    forall i | 0 <= i < |tail| ensures tail[i].count > 0 && tail[i].priority < rows[0].priority {
      assert tail[i] == rows[i + 1];
    }
  }

  lemma DescendingTailOrder(rows: seq<PriorityCount>)
    requires Descending(rows) && rows != []
    ensures Descending(rows[1..])
  {
    var tail := rows[1..];
    forall i, j | 0 <= i < j < |tail| ensures tail[i].priority > tail[j].priority {
      assert tail[i] == rows[i + 1] && tail[j] == rows[j + 1];
    }
  }

  /** A tally keeps the rows descending and positive. */
  lemma {:induction false} TallyShape(rows: seq<PriorityCount>, p: int)
    requires Descending(rows) && Positive(rows)
    ensures Descending(Tally(rows, p)) && Positive(Tally(rows, p))
  {
    if rows != [] && rows[0].priority > p {
      var t := Tally(rows[1..], p);
      DescendingTail(rows);
      TallyShape(rows[1..], p);
      TallyBelow(rows[1..], p, rows[0].priority);
      assert Tally(rows, p) == [rows[0]] + t;
      forall i, j | 0 <= i < j < |Tally(rows, p)|
        ensures Tally(rows, p)[i].priority > Tally(rows, p)[j].priority
      {
        if i > 0 {
          assert Tally(rows, p)[i] == t[i - 1] && Tally(rows, p)[j] == t[j - 1];
        } else {
          assert Tally(rows, p)[j] == t[j - 1];
        }
      }
    } else if rows != [] && rows[0].priority < p {
      assert Tally(rows, p) == [PriorityCount(p, 1)] + rows;
    } else if rows != [] {
      assert Tally(rows, p)[1..] == rows[1..];
    }
  }

  /** A tally adds one to the count of `p` and to no other. */
  lemma {:induction false} TallyCounts(rows: seq<PriorityCount>, p: int, q: int)
    requires Descending(rows)
    ensures CountFor(Tally(rows, p), q) == CountFor(rows, q) + (if q == p then 1 else 0)
  {
    if rows == [] {
    } else if rows[0].priority == p {
      assert Tally(rows, p)[1..] == rows[1..];
    } else if rows[0].priority < p {
      if q == p {
        forall i | 0 <= i < |rows| ensures rows[i].priority != p {
          assert i == 0 || rows[0].priority > rows[i].priority;
        }
        CountForAbsent(rows, p);
      }
      assert Tally(rows, p)[1..] == rows;
    } else {
      DescendingTailOrder(rows);
      TallyCounts(rows[1..], p, q);
      assert Tally(rows, p)[1..] == Tally(rows[1..], p);
    }
  }

  lemma TallySpec(rows: seq<PriorityCount>, p: int)
    requires Descending(rows) && Positive(rows)
    ensures Descending(Tally(rows, p)) && Positive(Tally(rows, p))
    ensures forall q :: CountFor(Tally(rows, p), q) == CountFor(rows, q) + (if q == p then 1 else 0)
  {
    TallyShape(rows, p);
    forall q ensures CountFor(Tally(rows, p), q) == CountFor(rows, q) + (if q == p then 1 else 0) {
      TallyCounts(rows, p, q);
    }
  }

  lemma {:induction false} PriorityStatsSpec(todos: seq<Todo>)
    ensures Descending(PriorityStats(todos)) && Positive(PriorityStats(todos))
    ensures forall q :: CountFor(PriorityStats(todos), q) == Count(ActiveAt(q), todos)
  {
    if todos != [] {
      PriorityStatsSpec(todos[1..]);
      if Active(todos[0]) {
        TallySpec(PriorityStats(todos[1..]), todos[0].priority);
      }
    }
  }

  lemma {:induction false} CountForAt(rows: seq<PriorityCount>, i: nat)
    requires Descending(rows) && i < |rows|
    ensures CountFor(rows, rows[i].priority) == rows[i].count
  {
    if i > 0 {
      CountForAt(rows[1..], i - 1);
    }
  }

  lemma {:induction false} CountForPositive(rows: seq<PriorityCount>, q: int)
    requires CountFor(rows, q) > 0
    ensures exists i :: 0 <= i < |rows| && rows[i].priority == q
  {
    if rows[0].priority != q {
      CountForPositive(rows[1..], q);
      var i :| 0 <= i < |rows[1..]| && rows[1..][i].priority == q;
      assert rows[i + 1].priority == q;
    }
  }

  /** The priority statistics hold one row for each priority that some
      incomplete todo has, and no other, with its number of incomplete
      todos, by descending priority. */
  lemma PriorityStatsRows(todos: seq<Todo>)
    ensures var rows := PriorityStats(todos);
      && (forall i, j :: 0 <= i < j < |rows| ==> rows[i].priority > rows[j].priority)
      && (forall i :: 0 <= i < |rows| ==> 0 < rows[i].count == Count(ActiveAt(rows[i].priority), todos))
      && (forall t :: t in todos && Active(t) ==> exists i :: 0 <= i < |rows| && rows[i].priority == t.priority)
  {
    var rows := PriorityStats(todos);
    PriorityStatsSpec(todos);
    forall i | 0 <= i < |rows| ensures rows[i].count == Count(ActiveAt(rows[i].priority), todos) {
      CountForAt(rows, i);
    }
    forall t | t in todos && Active(t) ensures exists i :: 0 <= i < |rows| && rows[i].priority == t.priority {
      CountPositive(ActiveAt(t.priority), todos, t);
      CountForPositive(rows, t.priority);
    }
  }

  // ---------------------------------------------------------------------
  // The dashboard of api/index.py (api/index.py:173-179)

  /** `ORDER BY t.priority DESC, t.created_at DESC`, as "a may be listed
      before b". */
  predicate ActivePrecedes(a: Todo, b: Todo) {
    a.priority > b.priority || (a.priority == b.priority && a.createdAt >= b.createdAt)
  }

  /** `WHERE t.completed = FALSE`, ordered and joined. */
  function ActiveDashboard(todos: seq<Todo>, cats: seq<Category>): (rows: seq<TodoRow>) {
    JoinAll(cats, Sort(ActivePrecedes, Filter(Active, todos)))
  }

  /** The dashboard of api/index.py lists exactly the incomplete todos, each
      once, by priority and then newest first. */
  lemma {:induction false} ActiveDashboardSpec(todos: seq<Todo>, cats: seq<Category>)
    ensures var rows := ActiveDashboard(todos, cats);
      && |rows| == Count(Active, todos)
      && multiset(RowTodos(rows)) == multiset(Filter(Active, todos))
      && (forall t :: t in RowTodos(rows) <==> t in todos && Active(t))
      && (forall i, j :: 0 <= i < j < |rows| ==> ActivePrecedes(rows[i].todo, rows[j].todo))
      && (forall k :: 0 <= k < |rows| ==> rows[k] == Join(cats, rows[k].todo))
  {
    var active := Filter(Active, todos);
    var ordered := Sort(ActivePrecedes, active);
    assert TotalPreorder(ActivePrecedes);
    SortCorrect(ActivePrecedes, active);
    PermutationLength(ordered, active);
    JoinAllRows(cats, ordered);
    forall t ensures t in ordered <==> t in active {
      assert t in ordered <==> t in multiset(ordered);
      assert t in active <==> t in multiset(active);
    }
  }
}
