/**
  One row of the task list and its inline-edit state: whether the row is in
  edit mode (`isEditing`) and the draft title held by the text field
  (`taskNewTitle`). The row never changes the task itself; it forwards
  requests (toggle, remove, rename) to the screen that owns the list.

  The pure part (`Next`, `Emit`, `Run`, `Requests`) says what each user
  intent does to the edit state and which request it sends; the class
  `TaskItemRow` holds the state and has one method per intent, each proved
  against that pure part.
*/
module TaskItem {
  import opened Home

  /** A request the row sends upward through its callbacks. */
  datatype Request =
    | NoRequest
    | ToggleTaskDone(taskId: int)
    | RemoveTask(taskId: int)
    | EditTask(taskId: int, taskNewTitle: string)

  /** What the user can do on a row: tap it, tap the pencil, type in the
      field, tap the cross, confirm the field, tap the trash can. */
  datatype Intent =
    | PressRow
    | StartEditing
    | ChangeText(text: string)
    | CancelEditing
    | SubmitEditing
    | PressDelete

  datatype EditState = EditState(isEditing: bool, taskNewTitle: string)

  /** A freshly mounted row is not editing, its draft is the title, and
      its trash button is enabled. */
  function Init(task: Task): (r: EditState)
    ensures !r.isEditing && r.taskNewTitle == task.title
    ensures Emit(task, r, PressDelete) == RemoveTask(task.id)
  {
    EditState(false, task.title)
  }

  /** The edit state after one intent. Starting does not touch the draft,
      submitting does not leave edit mode, and only cancelling puts the
      committed title back into the draft. */
  function Next(task: Task, s: EditState, intent: Intent): (r: EditState)
    ensures r.isEditing <==> intent == StartEditing || (s.isEditing && intent != CancelEditing)
    ensures intent == CancelEditing ==> r.taskNewTitle == task.title
    ensures intent.ChangeText? ==> r.taskNewTitle == intent.text
    ensures !intent.ChangeText? && intent != CancelEditing ==> r.taskNewTitle == s.taskNewTitle
  {
    match intent
    case StartEditing => s.(isEditing := true)
    case ChangeText(text) => s.(taskNewTitle := text)
    case CancelEditing => EditState(false, task.title)
    case PressRow | SubmitEditing | PressDelete => s
  }

  /** The request one intent sends. The trash button is disabled while
      editing, so deleting then sends nothing. */
  function Emit(task: Task, s: EditState, intent: Intent): (r: Request)
    ensures r.NoRequest? || r.taskId == task.id
    ensures r.ToggleTaskDone? <==> intent == PressRow
    ensures r.EditTask? <==> intent == SubmitEditing
    ensures r.EditTask? ==> r.taskNewTitle == s.taskNewTitle
    ensures r.RemoveTask? <==> intent == PressDelete && !s.isEditing
  {
    match intent
    case PressRow => ToggleTaskDone(task.id)
    case SubmitEditing => EditTask(task.id, s.taskNewTitle)
    case PressDelete => if s.isEditing then NoRequest else RemoveTask(task.id)
    case StartEditing | ChangeText(_) | CancelEditing => NoRequest
  }

  /** The edit state after a sequence of intents. */
  function Run(task: Task, s: EditState, intents: seq<Intent>): EditState
    decreases |intents|
  {
    if intents == [] then s
    else Run(task, Next(task, s, intents[0]), intents[1..])
  }

  /** The requests a sequence of intents sends, in order. */
  function Requests(task: Task, s: EditState, intents: seq<Intent>): seq<Request>
    decreases |intents|
  {
    if intents == [] then []
    else
      var r := Emit(task, s, intents[0]);
      (if r == NoRequest then [] else [r]) + Requests(task, Next(task, s, intents[0]), intents[1..])
  }

  /** Typing each of `texts` in turn. */
  function Typing(texts: seq<string>): seq<Intent> {
    if texts == [] then [] else [ChangeText(texts[0])] + Typing(texts[1..])
  }

  function CountSubmits(intents: seq<Intent>): nat {
    if intents == [] then 0
    else (if intents[0] == SubmitEditing then 1 else 0) + CountSubmits(intents[1..])
  }

  function CountEdits(requests: seq<Request>): nat {
    if requests == [] then 0
    else (if requests[0].EditTask? then 1 else 0) + CountEdits(requests[1..])
  }

  /** Running two sequences of intents one after the other is running their
      concatenation. */
  lemma {:induction false} RunConcat(task: Task, s: EditState, a: seq<Intent>, b: seq<Intent>)
    ensures Run(task, s, a + b) == Run(task, Run(task, s, a), b)
    ensures Requests(task, s, a + b) == Requests(task, s, a) + Requests(task, Run(task, s, a), b)
    decreases |a|
  {
    if a == [] {
      assert a + b == b;
    } else {
      assert (a + b)[0] == a[0] && (a + b)[1..] == a[1..] + b;
      RunConcat(task, Next(task, s, a[0]), a[1..], b);
    }
  }

  /** Typing only replaces the draft with the last text typed: edit mode is
      unchanged and nothing is sent. */
  lemma {:induction false} TypingOnlyChangesDraft(task: Task, s: EditState, texts: seq<string>)
    ensures Run(task, s, Typing(texts)).isEditing == s.isEditing
    ensures Run(task, s, Typing(texts)).taskNewTitle ==
      if texts == [] then s.taskNewTitle else texts[|texts| - 1]
    ensures Requests(task, s, Typing(texts)) == []
    decreases |texts|
  {
    if texts != [] {
      TypingOnlyChangesDraft(task, s.(taskNewTitle := texts[0]), texts[1..]);
    }
  }

  /** Start editing, type anything, cancel: while editing the draft is the
      last text typed, and after cancelling the row is back to not editing
      with the draft equal to the committed title; no request is sent. */
  lemma CancelRestoresTitle(task: Task, s: EditState, texts: seq<string>)
    ensures var typed := Run(task, s, [StartEditing] + Typing(texts));
      && typed.isEditing
      && typed.taskNewTitle == (if texts == [] then s.taskNewTitle else texts[|texts| - 1])
    ensures Run(task, s, [StartEditing] + Typing(texts) + [CancelEditing]) == Init(task)
    ensures Requests(task, s, [StartEditing] + Typing(texts) + [CancelEditing]) == []
  {
    var start := Next(task, s, StartEditing);
    RunConcat(task, s, [StartEditing], Typing(texts));
    TypingOnlyChangesDraft(task, start, texts);
    RunConcat(task, s, [StartEditing] + Typing(texts), [CancelEditing]);
  }

  /** Submitting is the only way to rename: every submit sends exactly one
      rename request, and no other intent sends one. Every request names
      this row's task. */
  lemma {:induction false} OneRenamePerSubmit(task: Task, s: EditState, intents: seq<Intent>)
    ensures CountEdits(Requests(task, s, intents)) == CountSubmits(intents)
    ensures forall r :: r in Requests(task, s, intents) ==> !r.NoRequest? && r.taskId == task.id
    decreases |intents|
  {
    if intents != [] {
      var e := Emit(task, s, intents[0]);
      var head := if e == NoRequest then [] else [e];
      var rest := Requests(task, Next(task, s, intents[0]), intents[1..]);
      OneRenamePerSubmit(task, Next(task, s, intents[0]), intents[1..]);
      assert Requests(task, s, intents) == head + rest;
      if head == [] {
        assert head + rest == rest;
      } else {
        assert (head + rest)[1..] == rest;
      }
    }
  }

  /** Once in edit mode, the row stays in edit mode, and its trash button
      sends nothing, until the user cancels; submitting does not leave
      edit mode. */
  lemma {:induction false} NoRemoveUntilCancel(task: Task, s: EditState, intents: seq<Intent>)
    requires s.isEditing
    requires CancelEditing !in intents
    ensures Run(task, s, intents).isEditing
    ensures forall r :: r in Requests(task, s, intents) ==> !r.RemoveTask?
    decreases |intents|
  {
    if intents != [] {
      assert intents[0] != CancelEditing;
      NoRemoveUntilCancel(task, Next(task, s, intents[0]), intents[1..]);
    }
  }

  /** The row component: the task it shows (a property the parent may
      replace on re-render) and its own edit state. */
  class TaskItemRow {
    var task: Task
    var isEditing: bool
    var taskNewTitle: string

    function State(): EditState
      reads this
    {
      EditState(isEditing, taskNewTitle)
    }

    /** Mounting: the draft is initialised from the title once, here. */
    constructor (task: Task)
      ensures this.task == task
      ensures !isEditing && taskNewTitle == task.title
      ensures State() == Init(task)
    {
      this.task := task;
      isEditing := false;
      taskNewTitle := task.title;
    }

    /** The parent re-renders the row with a (possibly renamed or toggled)
        task; the edit state survives, including the draft. */
    method Rerender(task: Task)
      modifies this
      ensures this.task == task
      ensures State() == old(State())
    {
      this.task := task;
    }

    method HandleStartEditing()
      modifies this
      ensures isEditing && taskNewTitle == old(taskNewTitle)
      ensures task == old(task)
      ensures State() == Next(task, old(State()), StartEditing)
    {
      isEditing := true;
    }

    method OnChangeText(text: string)
      modifies this
      ensures taskNewTitle == text && isEditing == old(isEditing)
      ensures task == old(task)
      ensures State() == Next(task, old(State()), ChangeText(text))
    {
      taskNewTitle := text;
    }

    method HandleCancelEditing()
      modifies this
      ensures !isEditing && taskNewTitle == task.title
      ensures task == old(task)
      ensures State() == Next(task, old(State()), CancelEditing)
    {
      taskNewTitle := task.title;
      isEditing := false;
    }

    /** Forwards the draft as it is, unvalidated, and stays in edit mode. */
    method HandleSubmitEditing() returns (request: Request)
      ensures request == EditTask(task.id, taskNewTitle)
      ensures request == Emit(task, State(), SubmitEditing)
      ensures Next(task, State(), SubmitEditing) == State()
    {
      request := EditTask(task.id, taskNewTitle);
    }

    /** The trash button: disabled while editing. */
    method OnPressTrash() returns (request: Request)
      ensures isEditing ==> request == NoRequest
      ensures !isEditing ==> request == RemoveTask(task.id)
      ensures request == Emit(task, State(), PressDelete)
    {
      if isEditing {
        request := NoRequest;
      } else {
        request := RemoveTask(task.id);
      }
    }

    /** Tapping the row asks to toggle this task, in either mode. */
    method OnPressRow() returns (request: Request)
      ensures request == ToggleTaskDone(task.id)
      ensures request == Emit(task, State(), PressRow)
    {
      request := ToggleTaskDone(task.id);
    }
  }
}
