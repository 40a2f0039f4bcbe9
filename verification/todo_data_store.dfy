/**
 * `TodoDataStore` of the React sample: a list of tasks, three operations
 * that find their task with `Single(t => t.id == id)`, and a change event
 * raised after each successful mutation.
 *
 * Tasks are values here; the sample's tasks are mutable objects, and an
 * object added twice would be one task listed twice (see README).
 */
module TodoDataStore {
  import opened Wrappers
  import opened Text

  datatype TodoTask = TodoTask(id: string, name: string, completed: bool)

  /** The list, and how many times `TaskDataChanged` has been raised. */
  datatype Store = Store(tasks: seq<TodoTask>, changes: nat)

  /** Why `Single` throws: no task has the id, or more than one does. */
  datatype SingleError = NoMatch | SeveralMatches

  /** The data the store starts with; no event has fired. */
  const Initial: Store := Store([
    TodoTask("todo-0", "Eat", true),
    TodoTask("todo-1", "Sleep", false),
    TodoTask("todo-2", "Repeat", false)], 0)

  /** `Single(t => t.id == id)`, as the position of the one matching task. */
  function Single(tasks: seq<TodoTask>, id: string): (r: Result<nat, SingleError>)
    ensures r.Success? ==> r.value < |tasks| && tasks[r.value].id == id
                           && forall k :: 0 <= k < |tasks| && tasks[k].id == id ==> k == r.value
    ensures r == Failure(NoMatch) <==> forall k :: 0 <= k < |tasks| ==> tasks[k].id != id
    ensures r == Failure(SeveralMatches) <==>
              exists i, j :: 0 <= i < j < |tasks| && tasks[i].id == id && tasks[j].id == id
  {
    var found := PositionsFrom(tasks, (t: TodoTask) => t.id == id, 0);
    if |found| == 0 then Failure(NoMatch)
    else if |found| == 1 then
      assert found[0] in found;
      Success(found[0])
    else
      assert found[0] in found && found[1] in found;
      Failure(SeveralMatches)
  }

  /** `AddTask`: appended as it is, without looking at ids, and the event fires. */
  function AddTask(s: Store, t: TodoTask): (r: Store)
    ensures |r.tasks| == |s.tasks| + 1 && r.tasks[..|s.tasks|] == s.tasks && r.tasks[|s.tasks|] == t
    ensures r.changes == s.changes + 1
  {
    Store(s.tasks + [t], s.changes + 1)
  }

  /** `EditTask`: renames the one task with the id; `Single` throwing leaves the store and the event alone. */
  function EditTask(s: Store, id: string, newName: string): (r: Result<Store, SingleError>)
    ensures r.Failure? <==> Single(s.tasks, id).Failure?
    ensures r.Failure? ==> r.error == Single(s.tasks, id).error
    ensures r.Success? ==>
              var k := Single(s.tasks, id).value;
              && |r.value.tasks| == |s.tasks|
              && r.value.tasks[k] == s.tasks[k].(name := newName)
              && (forall i :: 0 <= i < |s.tasks| && i != k ==> r.value.tasks[i] == s.tasks[i])
              && r.value.changes == s.changes + 1
  {
    var k :- Single(s.tasks, id);
    Success(Store(s.tasks[k := s.tasks[k].(name := newName)], s.changes + 1))
  }

  /** `DeleteTask`: removes the one task with the id; the others keep their order. */
  function DeleteTask(s: Store, id: string): (r: Result<Store, SingleError>)
    ensures r.Failure? <==> Single(s.tasks, id).Failure?
    ensures r.Failure? ==> r.error == Single(s.tasks, id).error
    ensures r.Success? ==>
              var k := Single(s.tasks, id).value;
              && r.value.tasks == s.tasks[..k] + s.tasks[k + 1..]
              && (forall i :: 0 <= i < |r.value.tasks| ==> r.value.tasks[i].id != id)
              && r.value.changes == s.changes + 1
  {
    var k :- Single(s.tasks, id);
    var rest := s.tasks[..k] + s.tasks[k + 1..];
    assert forall i :: 0 <= i < |rest| ==> rest[i] == (if i < k then s.tasks[i] else s.tasks[i + 1]);
    Success(Store(rest, s.changes + 1))
  }

  /** `ToggleCompletedTask`: flips the one task's flag. */
  function ToggleCompletedTask(s: Store, id: string): (r: Result<Store, SingleError>)
    ensures r.Failure? <==> Single(s.tasks, id).Failure?
    ensures r.Failure? ==> r.error == Single(s.tasks, id).error
    ensures r.Success? ==>
              var k := Single(s.tasks, id).value;
              && |r.value.tasks| == |s.tasks|
              && r.value.tasks[k] == s.tasks[k].(completed := !s.tasks[k].completed)
              && (forall i :: 0 <= i < |s.tasks| && i != k ==> r.value.tasks[i] == s.tasks[i])
              && r.value.changes == s.changes + 1
  {
    var k :- Single(s.tasks, id);
    Success(Store(s.tasks[k := s.tasks[k].(completed := !s.tasks[k].completed)], s.changes + 1))
  }

  /** The ids of the tasks, in order. */
  function Ids(tasks: seq<TodoTask>): seq<string> {
    seq(|tasks|, i requires 0 <= i < |tasks| => tasks[i].id)
  }

  /** Renaming and toggling keep every id and its position. */
  lemma EditAndToggleKeepIds(s: Store, id: string, newName: string)
    ensures EditTask(s, id, newName).Success? ==> Ids(EditTask(s, id, newName).value.tasks) == Ids(s.tasks)
    ensures ToggleCompletedTask(s, id).Success? ==> Ids(ToggleCompletedTask(s, id).value.tasks) == Ids(s.tasks)
  {
  }

  /** Toggling the same task twice gives the list back; only the event count moves, by two. */
  lemma ToggleTwice(s: Store, id: string)
    requires ToggleCompletedTask(s, id).Success?
    ensures var once := ToggleCompletedTask(s, id).value;
            ToggleCompletedTask(once, id) == Success(Store(s.tasks, s.changes + 2))
  {
    var k := Single(s.tasks, id).value;
    var once := ToggleCompletedTask(s, id).value;
    assert forall i :: 0 <= i < |once.tasks| && once.tasks[i].id == id ==> i == k;
    assert Single(once.tasks, id) == Success(k);
    assert once.tasks[k := once.tasks[k].(completed := !once.tasks[k].completed)] == s.tasks;
  }

  /** A task added under a new id can then be deleted, which gives the old list back. */
  lemma AddThenDelete(s: Store, t: TodoTask)
    requires forall i :: 0 <= i < |s.tasks| ==> s.tasks[i].id != t.id
    ensures DeleteTask(AddTask(s, t), t.id) == Success(Store(s.tasks, s.changes + 2))
  {
    var added := AddTask(s, t).tasks;
    assert Single(added, t.id) == Success(|s.tasks|);
    assert added[..|s.tasks|] + added[|s.tasks| + 1..] == s.tasks;
  }

  /** Adding a task whose id is taken makes that id unusable: every later `Single` on it throws. */
  lemma DuplicateIdBlocksSingle(s: Store, t: TodoTask)
    requires exists i :: 0 <= i < |s.tasks| && s.tasks[i].id == t.id
    ensures Single(AddTask(s, t).tasks, t.id) == Failure(SeveralMatches)
    ensures EditTask(AddTask(s, t), t.id, "x").Failure? && DeleteTask(AddTask(s, t), t.id).Failure?
  {
    var i :| 0 <= i < |s.tasks| && s.tasks[i].id == t.id;
    var added := AddTask(s, t).tasks;
    assert added[i].id == t.id && added[|s.tasks|].id == t.id;
  }

  predicate DistinctIds(tasks: seq<TodoTask>) {
    forall i, j :: 0 <= i < j < |tasks| ==> tasks[i].id != tasks[j].id
  }

  /** With distinct ids, each task's id finds exactly that task. */
  lemma SingleOfDistinct(tasks: seq<TodoTask>, k: nat)
    requires DistinctIds(tasks) && k < |tasks|
    ensures Single(tasks, tasks[k].id) == Success(k)
  {
  }

  /** The initial ids are distinct, so each of them names exactly one task. */
  lemma InitialIdsResolve()
    ensures DistinctIds(Initial.tasks)
    ensures forall k :: 0 <= k < 3 ==> Single(Initial.tasks, Initial.tasks[k].id) == Success(k)
  {
    var t := Initial.tasks;
    assert forall k :: 0 <= k < 3 ==> |t[k].id| == 6 && t[k].id[5] == "012"[k];
    forall k | 0 <= k < 3 ensures Single(t, t[k].id) == Success(k) {
      SingleOfDistinct(t, k);
    }
  }
}
