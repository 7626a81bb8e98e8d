/** Queries over the two tables that the routes share: lookup by primary key,
    the LEFT JOIN from a todo to its category, and the row predicates of the
    DELETE and UPDATE statements. */
module Tables {
  import opened Schema
  import opened Seqs

  /** `SELECT * FROM todos WHERE id = ?`: the position of the row with that
      id, or None when there is none. */
  function FindTodo(todos: seq<Todo>, id: int): (r: Option<nat>)
    ensures r.Some? ==> r.value < |todos| && todos[r.value].id == id
    ensures r.None? <==> forall k :: 0 <= k < |todos| ==> todos[k].id != id
  {
    if todos == [] then None
    else if todos[0].id == id then Some(0)
    else match FindTodo(todos[1..], id)
      case Some(k) => Some(k + 1)
      case None => None
  }

  /** `LEFT JOIN categories c ON t.category_id = c.id`: the category a stored
      reference points at, or None when it is NULL or points at no row. */
  function CategoryOf(cats: seq<Category>, ref: Option<int>): (r: Option<Category>)
    ensures r.Some? ==> r.value in cats && ref == Some(r.value.id)
    ensures r.None? <==> (ref.None? || forall c :: c in cats ==> c.id != ref.value)
  {
    if ref.None? || cats == [] then None
    else if cats[0].id == ref.value then Some(cats[0])
    else CategoryOf(cats[1..], ref)
  }

  /** The `category_name` column the LEFT JOIN yields for a todo. */
  function CategoryNameOf(cats: seq<Category>, ref: Option<int>): (name: Option<string>) {
    match CategoryOf(cats, ref)
    case Some(c) => Some(c.name)
    case None => None
  }

  /** A reference the foreign key accepts: NULL, or the id of a category. */
  predicate ReferenceOk(cats: seq<Category>, ref: Option<int>) {
    ref.None? || CategoryOf(cats, ref).Some?
  }

  /** Some category already has this name (the UNIQUE constraint on `name`). */
  predicate NameTaken(cats: seq<Category>, name: string) {
    exists k :: 0 <= k < |cats| && cats[k].name == name
  }

  /** The WHERE of `DELETE FROM todos WHERE id = ?`, negated: the rows kept. */
  function TodoIdIsNot(id: int): (kept: Todo -> bool) {
    (t: Todo) => t.id != id
  }

  /** The WHERE of `DELETE FROM categories WHERE id = ?`, negated. */
  function CategoryIdIsNot(id: int): (kept: Category -> bool) {
    (c: Category) => c.id != id
  }

  /** `ON DELETE SET NULL` for the deleted category `id`: every todo that
      referenced it loses the reference, nothing else changes. */
  function DetachCategory(todos: seq<Todo>, id: int): (r: seq<Todo>)
    ensures |r| == |todos|
    ensures forall k :: 0 <= k < |r| ==>
      r[k] == if todos[k].categoryId == Some(id) then todos[k].(categoryId := None) else todos[k]
  {
    if todos == [] then []
    else
      var t := todos[0];
      [if t.categoryId == Some(id) then t.(categoryId := None) else t] + DetachCategory(todos[1..], id)
  }

  /** The number of completed and of incomplete todos add up to all todos. */
  lemma {:induction false} CompletedPlusActive(s: seq<Todo>)
    ensures Count(Completed, s) + Count(Active, s) == |s|
  {
    if s != [] {
      CompletedPlusActive(s[1..]);
    }
  }

  /** Deleting a category by id from a table whose ids are distinct removes
      exactly that row, so no reference to it finds a category afterwards. */
  lemma {:induction false} DeletedCategoryIsGone(cats: seq<Category>, id: int)
    ensures CategoryOf(Filter(CategoryIdIsNot(id), cats), Some(id)).None?
  {
    var rest := Filter(CategoryIdIsNot(id), cats);
    forall c | c in rest ensures c.id != id {
      assert CategoryIdIsNot(id)(c);
    }
  }
}
