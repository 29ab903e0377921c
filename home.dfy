/**
  The task list held by the Home screen: an ordered sequence of
  `{id, title, done}` records and the four handlers that replace it
  (add, toggle, edit, remove). Each handler computes the new list with a
  pure transform (a filter, a map or an append) and then stores it, so the
  transforms are functions here and the screen is a class whose methods
  assign their results.
*/
module Home {

  datatype Task = Task(id: int, title: string, done: bool)

  /** Some task in the list carries `title` (exact, case-sensitive match). */
  predicate TitleTaken(tasks: seq<Task>, title: string) {
    exists i :: 0 <= i < |tasks| && tasks[i].title == title
  }

  /** Some task in the list carries `id`. */
  predicate HasId(tasks: seq<Task>, id: int) {
    exists i :: 0 <= i < |tasks| && tasks[i].id == id
  }

  /** No two tasks share a title. */
  predicate UniqueTitles(tasks: seq<Task>) {
    forall i, j :: 0 <= i < j < |tasks| ==> tasks[i].title != tasks[j].title
  }

  /** No two tasks share an id. */
  predicate UniqueIds(tasks: seq<Task>) {
    forall i, j :: 0 <= i < j < |tasks| ==> tasks[i].id != tasks[j].id
  }

  /** The tasks whose title equals `title`, in list order (the duplicate
      check's filter). */
  function SameTitle(tasks: seq<Task>, title: string): (r: seq<Task>)
    ensures forall t :: t in r <==> t in tasks && t.title == title
    ensures |r| <= |tasks|
  {
    if tasks == [] then []
    else (if tasks[0].title == title then [tasks[0]] else []) + SameTitle(tasks[1..], title)
  }

  /** The outcome of an add: the new list, and whether the
      "task already registered" notice is raised. */
  datatype AddOutcome = AddOutcome(tasks: seq<Task>, alreadyExists: bool)

  /** Adding `title` under the id `id`: refused with the notice when the
      title is taken, otherwise a new undone task is appended. */
  function Add(tasks: seq<Task>, title: string, id: int): (r: AddOutcome)
    ensures r.alreadyExists <==> TitleTaken(tasks, title)
    ensures r.alreadyExists ==> r.tasks == tasks
    ensures !r.alreadyExists ==>
      && |r.tasks| == |tasks| + 1
      && r.tasks[..|tasks|] == tasks
      && r.tasks[|tasks|] == Task(id, title, false)
  {
    var matching := SameTitle(tasks, title);
    assert TitleTaken(tasks, title) ==> matching != [] by {
      if TitleTaken(tasks, title) {
        var i :| 0 <= i < |tasks| && tasks[i].title == title;
        assert tasks[i] in matching;
      }
    }
    assert matching != [] ==> TitleTaken(tasks, title) by {
      if matching != [] {
        assert matching[0] in tasks;
      }
    }
    if |matching| > 0 then AddOutcome(tasks, true)
    else AddOutcome(tasks + [Task(id, title, false)], false)
  }

  /** Flipping `done` on every task whose id is `id`. */
  function Toggle(tasks: seq<Task>, id: int): (r: seq<Task>)
    ensures |r| == |tasks|
    ensures forall i :: 0 <= i < |tasks| ==>
      && r[i].id == tasks[i].id
      && r[i].title == tasks[i].title
      && r[i].done == (if tasks[i].id == id then !tasks[i].done else tasks[i].done)
  {
    if tasks == [] then []
    else
      var t := tasks[0];
      [if t.id == id then t.(done := !t.done) else t] + Toggle(tasks[1..], id)
  }

  /** Setting the title of every task whose id is `id` to `title`, with no
      validation and no duplicate check. */
  function Edit(tasks: seq<Task>, id: int, title: string): (r: seq<Task>)
    ensures |r| == |tasks|
    ensures forall i :: 0 <= i < |tasks| ==>
      && r[i].id == tasks[i].id
      && r[i].done == tasks[i].done
      && r[i].title == (if tasks[i].id == id then title else tasks[i].title)
  {
    if tasks == [] then []
    else
      var t := tasks[0];
      [if t.id == id then t.(title := title) else t] + Edit(tasks[1..], id, title)
  }

  /** Dropping every task whose id is `id`, keeping the others in order. */
  function Remove(tasks: seq<Task>, id: int): (r: seq<Task>)
    ensures forall t :: t in r <==> t in tasks && t.id != id
    ensures |r| <= |tasks|
  {
    if tasks == [] then []
    else (if tasks[0].id == id then [] else [tasks[0]]) + Remove(tasks[1..], id)
  }

  /** An add never creates a second task with an existing title. */
  lemma AddKeepsTitlesUnique(tasks: seq<Task>, title: string, id: int)
    requires UniqueTitles(tasks)
    ensures UniqueTitles(Add(tasks, title, id).tasks)
  {
  }

  /** An add under a fresh id keeps ids unique. */
  lemma AddKeepsIdsUnique(tasks: seq<Task>, title: string, id: int)
    requires UniqueIds(tasks) && !HasId(tasks, id)
    ensures UniqueIds(Add(tasks, title, id).tasks)
  {
  }

  /** Toggling the same id twice gives back the original list. */
  lemma ToggleTwice(tasks: seq<Task>, id: int)
    ensures Toggle(Toggle(tasks, id), id) == tasks
  {
  }

  /** Toggling an id that no task carries returns an identical list. */
  lemma ToggleAbsent(tasks: seq<Task>, id: int)
    requires !HasId(tasks, id)
    ensures Toggle(tasks, id) == tasks
  {
  }

  /** Editing an id that no task carries returns an identical list. */
  lemma EditAbsent(tasks: seq<Task>, id: int, title: string)
    requires !HasId(tasks, id)
    ensures Edit(tasks, id, title) == tasks
  {
  }

  /** Unlike add, edit does not keep titles unique, and it accepts the
      empty title: renaming the second of two tasks to the first one's
      title, or to "", goes through. */
  lemma EditAllowsDuplicateAndEmpty()
    ensures var tasks := [Task(1, "Buy milk", false), Task(2, "Walk", false)];
      && UniqueTitles(tasks)
      && !UniqueTitles(Edit(tasks, 2, "Buy milk"))
      && Edit(tasks, 2, "")[1].title == ""
  {
  }

  /** Removing an id that no task carries returns an identical list. */
  lemma {:induction false} RemoveAbsent(tasks: seq<Task>, id: int)
    requires !HasId(tasks, id)
    ensures Remove(tasks, id) == tasks
  {
    if tasks != [] {
      assert tasks[0].id != id;
      RemoveAbsent(tasks[1..], id);
      assert [tasks[0]] + tasks[1..] == tasks;
    }
  }

  /** Remove works element by element: removing from a concatenation is
      concatenating the removals, so the survivors keep their relative
      order. */
  lemma {:induction false} RemoveConcat(a: seq<Task>, b: seq<Task>, id: int)
    ensures Remove(a + b, id) == Remove(a, id) + Remove(b, id)
  {
    if a != [] {
      assert (a + b)[1..] == a[1..] + b;
      RemoveConcat(a[1..], b, id);
    } else {
      assert a + b == b;
    }
  }

  /** With unique ids, the id of the task at position `k` occurs neither
      before nor after it. */
  lemma IdOnlyAt(tasks: seq<Task>, k: int)
    requires UniqueIds(tasks) && 0 <= k < |tasks|
    ensures !HasId(tasks[..k], tasks[k].id) && !HasId(tasks[k + 1..], tasks[k].id)
  {
    var before, after := tasks[..k], tasks[k + 1..];
    forall i | 0 <= i < |before| ensures before[i].id != tasks[k].id {
      assert before[i] == tasks[i];
    }
    forall i | 0 <= i < |after| ensures after[i].id != tasks[k].id {
      assert after[i] == tasks[k + 1 + i];
    }
  }

  /** Removing the id of `x` from a list where only `x` carries it drops
      `x` and keeps the rest as it was. */
  lemma RemoveSplice(before: seq<Task>, x: Task, after: seq<Task>)
    requires !HasId(before, x.id) && !HasId(after, x.id)
    ensures Remove(before + [x] + after, x.id) == before + after
  {
    RemoveConcat(before + [x], after, x.id);
    RemoveConcat(before, [x], x.id);
    RemoveAbsent(before, x.id);
    RemoveAbsent(after, x.id);
    assert Remove([x], x.id) == [];
    assert before + [] == before;
  }

  /** With unique ids, removing the id of the task at position `k` removes
      exactly that task and keeps every other one, in order. */
  lemma RemoveExactlyOne(tasks: seq<Task>, k: int)
    requires UniqueIds(tasks) && 0 <= k < |tasks|
    ensures Remove(tasks, tasks[k].id) == tasks[..k] + tasks[k + 1..]
  {
    IdOnlyAt(tasks, k);
    assert tasks == tasks[..k] + [tasks[k]] + tasks[k + 1..];
    RemoveSplice(tasks[..k], tasks[k], tasks[k + 1..]);
  }

  /** Removal never creates a second task with an existing id. */
  lemma {:induction false} RemoveKeepsIdsUnique(tasks: seq<Task>, id: int)
    requires UniqueIds(tasks)
    ensures UniqueIds(Remove(tasks, id))
  {
    if tasks != [] {
      RemoveKeepsIdsUnique(tasks[1..], id);
      var rest := Remove(tasks[1..], id);
      if tasks[0].id != id {
        forall t | t in rest ensures t.id != tasks[0].id {
          var j :| 0 <= j < |tasks[1..]| && tasks[1..][j] == t;
          assert tasks[j + 1] == t;
        }
        var r := [tasks[0]] + rest;
        forall i, j | 0 <= i < j < |r| ensures r[i].id != r[j].id {
          if i == 0 {
            assert r[j] in rest;
          } else {
            assert r[i] == rest[i - 1] && r[j] == rest[j - 1];
          }
        }
      }
    }
  }

  /** Toggle and edit keep every id in place, so unique ids stay unique. */
  lemma ToggleEditKeepIdsUnique(tasks: seq<Task>, id: int, title: string)
    requires UniqueIds(tasks)
    ensures UniqueIds(Toggle(tasks, id)) && UniqueIds(Edit(tasks, id, title))
  {
  }

  /** The Home screen: it holds the task list and replaces it in each
      handler. The task counter shown in the header is `|tasks|`. */
  class HomeScreen {
    var tasks: seq<Task>

    /** The number shown by the header: one per task held, duplicates
        included, and zero exactly when the list is empty. */
    function TasksCounter(): (n: nat)
      reads this
      ensures n == |multiset(tasks)|
      ensures n == 0 <==> tasks == []
    {
      |tasks|
    }

    constructor ()
      ensures tasks == [] && TasksCounter() == 0
    {
      tasks := [];
    }

    /** `id` stands for the clock reading the source uses as a fresh id.
        `alreadyExists` reports the "task already registered" notice. */
    method HandleAddTask(newTaskTitle: string, id: int) returns (alreadyExists: bool)
      modifies this
      ensures alreadyExists <==> TitleTaken(old(tasks), newTaskTitle)
      ensures tasks == Add(old(tasks), newTaskTitle, id).tasks
      ensures TasksCounter() == old(TasksCounter()) + (if alreadyExists then 0 else 1)
      ensures UniqueTitles(old(tasks)) ==> UniqueTitles(tasks)
      ensures UniqueIds(old(tasks)) && !HasId(old(tasks), id) ==> UniqueIds(tasks)
    {
      if UniqueTitles(tasks) {
        AddKeepsTitlesUnique(tasks, newTaskTitle, id);
      }
      if UniqueIds(tasks) && !HasId(tasks, id) {
        AddKeepsIdsUnique(tasks, newTaskTitle, id);
      }
      var outcome := Add(tasks, newTaskTitle, id);
      alreadyExists := outcome.alreadyExists;
      if !alreadyExists {
        tasks := outcome.tasks;
      }
    }

    method HandleToggleTaskDone(id: int)
      modifies this
      ensures tasks == Toggle(old(tasks), id)
      ensures TasksCounter() == old(TasksCounter())
      ensures !HasId(old(tasks), id) ==> tasks == old(tasks)
    {
      if !HasId(tasks, id) {
        ToggleAbsent(tasks, id);
      }
      tasks := Toggle(tasks, id);
    }

    method HandleEditTask(taskId: int, taskNewTitle: string)
      modifies this
      ensures tasks == Edit(old(tasks), taskId, taskNewTitle)
      ensures TasksCounter() == old(TasksCounter())
      ensures !HasId(old(tasks), taskId) ==> tasks == old(tasks)
    {
      if !HasId(tasks, taskId) {
        EditAbsent(tasks, taskId, taskNewTitle);
      }
      tasks := Edit(tasks, taskId, taskNewTitle);
    }

    /** `confirmed` is the answer to the removal dialog: true when "sim"
        is pressed, false when the dialog is dismissed. */
    method HandleRemoveTask(id: int, confirmed: bool)
      modifies this
      ensures tasks == if confirmed then Remove(old(tasks), id) else old(tasks)
      ensures !HasId(old(tasks), id) ==> tasks == old(tasks)
      ensures TasksCounter() <= old(TasksCounter())
    {
      if !HasId(tasks, id) {
        RemoveAbsent(tasks, id);
      }
      if confirmed {
        tasks := Remove(tasks, id);
      }
    }
  }
}
