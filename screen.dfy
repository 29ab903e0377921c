/**
  The wiring between the rows and the Home screen: each row's callbacks
  are the screen's handlers, so a request sent by a row is carried out on
  the screen's task list. The removal dialog's answer is a parameter.
*/
module Screen {
  import opened Home
  import opened TaskItem

  /** Carries out one row request on the screen. */
  method Dispatch(screen: HomeScreen, request: Request, confirmed: bool)
    modifies screen
    ensures request.NoRequest? ==> screen.tasks == old(screen.tasks)
    ensures request.ToggleTaskDone? ==> screen.tasks == Toggle(old(screen.tasks), request.taskId)
    ensures request.EditTask? ==>
      screen.tasks == Edit(old(screen.tasks), request.taskId, request.taskNewTitle)
    ensures request.RemoveTask? ==>
      screen.tasks == if confirmed then Remove(old(screen.tasks), request.taskId) else old(screen.tasks)
  {
    match request
    case NoRequest =>
    case ToggleTaskDone(id) => screen.HandleToggleTaskDone(id);
    case EditTask(id, title) => screen.HandleEditTask(id, title);
    case RemoveTask(id) => screen.HandleRemoveTask(id, confirmed);
  }

  /** A session on one task, every assertion proved from the contracts
      above: a duplicate add is refused, cancelling an edit keeps the
      title, submitting renames but stays in edit mode (so the trash
      button stays disabled), and removal needs the user's consent. */
  method BuyMilkSession() {
    var screen := new HomeScreen();
    var alreadyExists := screen.HandleAddTask("Buy milk", 1);
    assert screen.tasks == [Task(1, "Buy milk", false)];

    assert screen.tasks[0].title == "Buy milk";
    alreadyExists := screen.HandleAddTask("Buy milk", 2);
    assert alreadyExists && screen.TasksCounter() == 1;

    var row := new TaskItemRow(screen.tasks[0]);
    var request := row.OnPressRow();
    Dispatch(screen, request, false);
    assert screen.tasks == [Task(1, "Buy milk", true)];
    row.Rerender(screen.tasks[0]);

    row.HandleStartEditing();
    row.OnChangeText("Buy milk 2%");
    row.HandleCancelEditing();
    assert !row.isEditing && row.taskNewTitle == "Buy milk";
    assert screen.tasks == [Task(1, "Buy milk", true)];

    row.HandleStartEditing();
    row.OnChangeText("Buy oat milk");
    request := row.HandleSubmitEditing();
    Dispatch(screen, request, false);
    assert screen.tasks == [Task(1, "Buy oat milk", true)];
    row.Rerender(screen.tasks[0]);
    assert row.isEditing;

    request := row.OnPressTrash();
    assert request == NoRequest;
    row.HandleCancelEditing();
    request := row.OnPressTrash();
    Dispatch(screen, request, false);
    assert screen.tasks == [Task(1, "Buy oat milk", true)];
    Dispatch(screen, request, true);
    assert screen.tasks == [];
  }
}
