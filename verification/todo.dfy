/** The todo list of todo/todo.go: a `Todos` slice whose methods append,
    delete, toggle and retitle items in place. `time.Now()` becomes a
    timestamp argument. */
module TodoStore {
  import opened Wrappers

  /** A moment as `time.Now()` returns it. */
  type Time = int

  /** `Todo`; `completedAt` is None where the Go pointer is nil. */
  datatype Todo = Todo(title: string, completed: bool, createdAt: Time, completedAt: Option<Time>)

  const INVALID_INDEX := "invalid index"

  /** The guard of `validateIndex`: the index addresses an existing item. */
  predicate InRange(items: seq<Todo>, index: int)
  {
    0 <= index < |items|
  }

  /** The list after `Add(title)` at time `now`. */
  function Added(items: seq<Todo>, title: string, now: Time): (r: seq<Todo>)
    ensures |r| == |items| + 1 && r[..|items|] == items
    ensures r[|items|].title == title && !r[|items|].completed
    ensures r[|items|].createdAt == now && r[|items|].completedAt == None
  {
    items + [Todo(title, false, now, None)]
  }

  /** The list after `Delete(index)`: the item at a valid index is cut out
      and the others keep their order; an invalid index changes nothing. */
  function Deleted(items: seq<Todo>, index: int): (r: seq<Todo>)
    ensures !InRange(items, index) ==> r == items
    ensures InRange(items, index) ==> |r| == |items| - 1
    ensures InRange(items, index) ==> forall j :: 0 <= j < index ==> r[j] == items[j]
    ensures InRange(items, index) ==> forall j :: index <= j < |r| ==> r[j] == items[j + 1]
  {
    if InRange(items, index) then items[..index] + items[index + 1..] else items
  }

  /** One item after a toggle at time `now`: the flag flips, and the
      completion time is stamped only when the item becomes completed. */
  function Toggled(t: Todo, now: Time): (r: Todo)
    ensures r.completed == !t.completed
    ensures r.title == t.title && r.createdAt == t.createdAt
    ensures !t.completed ==> r.completedAt == Some(now)
    ensures t.completed ==> r.completedAt == t.completedAt
  {
    var stamped := if !t.completed then t.(completedAt := Some(now)) else t;
    stamped.(completed := !t.completed)
  }

  /** The list after `Toggle(index)`: only the addressed item is toggled;
      an invalid index changes nothing. */
  function ToggledAt(items: seq<Todo>, index: int, now: Time): (r: seq<Todo>)
    ensures |r| == |items|
    ensures !InRange(items, index) ==> r == items
    ensures InRange(items, index) ==> r[index] == Toggled(items[index], now)
    ensures forall j :: 0 <= j < |items| && j != index ==> r[j] == items[j]
  {
    if InRange(items, index) then items[index := Toggled(items[index], now)] else items
  }

  /** The list after `Edit(index, title)`: only the title of the addressed
      item changes; an invalid index changes nothing. */
  function EditedAt(items: seq<Todo>, index: int, title: string): (r: seq<Todo>)
    ensures |r| == |items|
    ensures !InRange(items, index) ==> r == items
    ensures InRange(items, index) ==> r[index].title == title
    ensures InRange(items, index) ==> r[index] == items[index].(title := title)
    ensures forall j :: 0 <= j < |items| && j != index ==> r[j] == items[j]
  {
    if InRange(items, index) then items[index := items[index].(title := title)] else items
  }

  /** Toggling an open item twice reopens it and keeps the completion time
      stamped by the first toggle. */
  lemma ToggleTwiceOpen(t: Todo, first: Time, second: Time)
    requires !t.completed
    ensures Toggled(Toggled(t, first), second) == t.(completedAt := Some(first))
  {
  }

  /** Toggling a completed item twice completes it again, restamped by the
      second toggle. */
  lemma ToggleTwiceCompleted(t: Todo, first: Time, second: Time)
    requires t.completed
    ensures Toggled(Toggled(t, first), second) == t.(completedAt := Some(second))
  {
  }

  /** Deleting keeps exactly the other items, in order: putting the removed
      item back at its index restores the list, and as a bag the list lost
      that one item. */
  lemma DeletedIsRemoval(items: seq<Todo>, index: int)
    requires InRange(items, index)
    ensures Deleted(items, index)[..index] + [items[index]] + Deleted(items, index)[index..] == items
    ensures multiset(Deleted(items, index)) + multiset{items[index]} == multiset(items)
  {
    var r := Deleted(items, index);
    assert r[..index] == items[..index] && r[index..] == items[index + 1..];
    assert items == items[..index] + [items[index]] + items[index + 1..];
  }

  /** `Todos`, the slice that the methods update through their pointer receiver. */
  class Todos {
    var items: seq<Todo>

    /** `Todos{}`, the empty list. */
    constructor ()
      ensures items == []
    {
      items := [];
    }

    /** `Add`: append a new, open item created at `now`. */
    method Add(title: string, now: Time)
      modifies this
      ensures items == Added(old(items), title, now)
    {
      var todo := Todo(title, false, now, None);
      items := items + [todo];
    }

    /** `validateIndex`: an "invalid index" error exactly when the index is
        negative or past the end. */
    method ValidateIndex(index: int) returns (err: Option<string>)
      ensures err.Some? <==> index < 0 || index >= |items|
      ensures err.Some? ==> err.value == INVALID_INDEX
    {
      if index < 0 || index >= |items| {
        return Some(INVALID_INDEX);
      }
      return None;
    }

    /** `Delete`: remove the item at `index`, or report an invalid index. */
    method Delete(index: int) returns (err: Option<string>)
      modifies this
      ensures err == if InRange(old(items), index) then None else Some(INVALID_INDEX)
      ensures items == Deleted(old(items), index)
    {
      err := ValidateIndex(index);
      if err.Some? {
        return;
      }
      items := items[..index] + items[index + 1..];
    }

    /** `Toggle`: flip the completion flag of the item at `index`, stamping
        the completion time when it becomes completed. */
    method Toggle(index: int, now: Time) returns (err: Option<string>)
      modifies this
      ensures err == if InRange(old(items), index) then None else Some(INVALID_INDEX)
      ensures items == ToggledAt(old(items), index, now)
    {
      err := ValidateIndex(index);
      if err.Some? {
        return;
      }
      var isCompleted := items[index].completed;
      if !isCompleted {
        items := items[index := items[index].(completedAt := Some(now))];
      }
      items := items[index := items[index].(completed := !isCompleted)];
    }

    /** `Edit`: replace the title of the item at `index`. */
    method Edit(index: int, title: string) returns (err: Option<string>)
      modifies this
      ensures err == if InRange(old(items), index) then None else Some(INVALID_INDEX)
      ensures items == EditedAt(old(items), index, title)
    {
      err := ValidateIndex(index);
      if err.Some? {
        return;
      }
      items := items[index := items[index].(title := title)];
    }
  }
}
