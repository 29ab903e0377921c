# native-todo: task list and inline editing, modelled in Dafny

The app is a single-screen to-do list. The Home screen holds an ordered list
of tasks, each `{id, title, done}`. It offers four handlers:

- add refuses a title that exactly matches an existing one and raises the
  "task already registered" notice; otherwise it appends an undone task;
- toggle flips `done` on the task with a given id;
- edit renames the task with a given id, with no duplicate check and no
  validation;
- remove drops the task with a given id, but only after the user confirms.

The header shows the number of tasks. Each row of the list is a component
with its own edit state. `isEditing` says whether the row is in edit mode.
`taskNewTitle` is the draft held by the text field. The row reacts to these
intents: tap the row (toggle), tap the pencil (start editing), type, tap the
cross (cancel), confirm the field (submit) and tap the trash can (delete,
disabled while editing).

Files:

- `home.dfy`, module `Home`: the `Task` record and the list transforms as
  functions (`Add`, `Toggle`, `Edit`, `Remove`). It also holds the lemmas
  about them and the class `HomeScreen`, whose `tasks` field each handler
  replaces with a transform's result.
- `task_item.dfy`, module `TaskItem`: the requests a row sends, the user
  intents, and the edit state. `Next` gives the state after one intent and
  `Emit` the request it sends. `Run` and `Requests` extend these to
  sequences of intents, and the lemmas are stated over them. The class
  `TaskItemRow` has one method per handler, each proved against `Next` and
  `Emit`.
- `screen.dfy`, module `Screen`: `Dispatch`, which carries out a row's
  request on the screen the way the Home screen's callbacks do. It also
  holds `BuyMilkSession`, a client whose assertions follow from the
  contracts alone.

Three behaviours of the code differ from what one might expect, and the
model follows the code:

- One might expect submitting an edit to leave edit mode. The code sends
  the rename and stays in edit mode. `NoRemoveUntilCancel` and
  `BuyMilkSession` show the consequence: after a submit the trash button
  stays disabled until the user cancels.
- One might expect starting an edit to reload the draft from the title.
  The code does not. The draft is set once, when the row mounts, and again
  only on cancel. `Rerender` keeps the draft when the parent passes a
  renamed task.
- One might expect titles to be non-empty. Neither `handleAddTask`,
  `handleEditTask` nor the row checks for an empty title.
  `EditAllowsDuplicateAndEmpty` shows that edit accepts `""` and a
  duplicate title.

## Model

| member | source | states |
|---|---|---|
| `Home.SameTitle` | src/pages/Home.tsx:16-18 | the filtered list holds exactly the tasks with the given title and is no longer than the input |
| `Home.Add` | src/pages/Home.tsx:15-35 | the notice is raised iff some task already has the title, and then the list is unchanged; otherwise the old list is kept as a prefix and exactly one task `(id, title, done = false)` is appended at the end |
| `Home.Toggle` | src/pages/Home.tsx:38-49 | same length and order; at each position id and title are kept, and `done` is flipped exactly where the id matches |
| `Home.Edit` | src/pages/Home.tsx:51-62 | same length and order; at each position id and `done` are kept, and the title becomes the new text exactly where the id matches |
| `Home.Remove` | src/pages/Home.tsx:72 | a task is in the result iff it was in the list and its id differs from the removed id |
| `Home.AddKeepsTitlesUnique` | src/pages/Home.tsx:15-35 | if no two tasks share a title before an add, none do after it |
| `Home.AddKeepsIdsUnique` | src/pages/Home.tsx:29-35 | an add under an id no task carries keeps ids unique |
| `Home.ToggleTwice` | src/pages/Home.tsx:38-49 | toggling the same id twice restores the original list |
| `Home.ToggleAbsent` | src/pages/Home.tsx:39-48 | toggling an id that no task carries returns an identical list |
| `Home.EditAbsent` | src/pages/Home.tsx:52-61 | editing an id that no task carries returns an identical list |
| `Home.EditAllowsDuplicateAndEmpty` | src/pages/Home.tsx:51-62 | edit can rename a task to another task's title, breaking uniqueness, and can set an empty title |
| `Home.RemoveAbsent` | src/pages/Home.tsx:72 | removing an id that no task carries returns an identical list |
| `Home.RemoveConcat` | src/pages/Home.tsx:72 | removal distributes over concatenation, so the remaining tasks keep their relative order |
| `Home.RemoveSplice` | src/pages/Home.tsx:72 | when only the task `x` carries its id, removing that id from `before + [x] + after` gives `before + after` |
| `Home.RemoveExactlyOne` | src/pages/Home.tsx:64-77 | with unique ids, removing the id at position k yields the list without exactly that task, the rest in order |
| `Home.RemoveKeepsIdsUnique` | src/pages/Home.tsx:72 | removal keeps ids unique |
| `Home.ToggleEditKeepIdsUnique` | src/pages/Home.tsx:38-62 | toggle and edit keep ids unique |
| `Home.HomeScreen.TasksCounter` | src/pages/Home.tsx:81 | the header counter: it counts every task held, duplicates included, and is zero exactly when the list is empty; the handlers' contracts say how each one changes it |
| `Home.HomeScreen.constructor` | src/pages/Home.tsx:13 | the screen starts with an empty list and a counter of 0 |
| `Home.HomeScreen.HandleAddTask` | src/pages/Home.tsx:15-36 | the list becomes `Add`'s result; the notice is raised iff the title is taken; the counter grows by one exactly when the add goes through; unique titles stay unique, and so do unique ids when the id is fresh |
| `Home.HomeScreen.HandleToggleTaskDone` | src/pages/Home.tsx:38-49 | the list becomes `Toggle`'s result; the counter is unchanged; an unknown id changes nothing |
| `Home.HomeScreen.HandleEditTask` | src/pages/Home.tsx:51-62 | the list becomes `Edit`'s result; the counter is unchanged; an unknown id changes nothing |
| `Home.HomeScreen.HandleRemoveTask` | src/pages/Home.tsx:64-77 | a declined confirmation leaves the list identical; an accepted one applies `Remove`; an unknown id changes nothing; the counter never grows |
| `TaskItem.Init` | src/components/TaskItem.tsx:38-39 | the state a row mounts in, which the constructor is proved equal to: not editing, draft equal to the title, trash button enabled |
| `TaskItem.Next` | src/components/TaskItem.tsx:43-51 | the state after one intent, which each state-changing method is proved equal to: edit mode is on iff the intent is start, or it was on and the intent is not cancel; cancel restores the title as the draft, typing (line 88) sets the draft to the text, and every other intent leaves the draft alone |
| `TaskItem.Emit` | src/components/TaskItem.tsx:53-58 | the request one intent sends, which each request-sending method is proved equal to: a toggle exactly on a row tap (line 77), a rename carrying the current draft exactly on submit, a remove exactly on delete while not editing (lines 115-119), and every request names this row's task |
| `TaskItem.RunConcat` | src/components/TaskItem.tsx:43-58 | running two intent sequences in turn gives the same state and requests as running their concatenation |
| `TaskItem.TypingOnlyChangesDraft` | src/components/TaskItem.tsx:87-88 | typing leaves edit mode unchanged, sends nothing, and leaves the last typed text as the draft |
| `TaskItem.CancelRestoresTitle` | src/components/TaskItem.tsx:43-51 | after start and any typing, the row is editing with the last typed draft; a cancel then returns it to not editing with the committed title as the draft, and nothing is sent |
| `TaskItem.OneRenamePerSubmit` | src/components/TaskItem.tsx:53-58 | over any sequence of intents, the number of rename requests equals the number of submits, and every request carries this row's task id |
| `TaskItem.NoRemoveUntilCancel` | src/components/TaskItem.tsx:115-119 | from edit mode, until a cancel, the row stays in edit mode (submit included) and never sends a remove request |
| `TaskItem.TaskItemRow.constructor` | src/components/TaskItem.tsx:38-39 | a mounted row is not editing and its draft is the task's title |
| `TaskItem.TaskItemRow.Rerender` | src/components/TaskItem.tsx:31-39 | a new task prop replaces the old one while the edit state, draft included, is kept |
| `TaskItem.TaskItemRow.HandleStartEditing` | src/components/TaskItem.tsx:43-45 | edit mode is on and the draft is unchanged |
| `TaskItem.TaskItemRow.OnChangeText` | src/components/TaskItem.tsx:87-88 | the draft becomes the typed text; edit mode and the task are unchanged |
| `TaskItem.TaskItemRow.HandleCancelEditing` | src/components/TaskItem.tsx:47-51 | the draft is the committed title again and edit mode is off |
| `TaskItem.TaskItemRow.HandleSubmitEditing` | src/components/TaskItem.tsx:53-58 | sends exactly `EditTask(task.id, draft)` with the draft unvalidated, and changes no state, edit mode included |
| `TaskItem.TaskItemRow.OnPressTrash` | src/components/TaskItem.tsx:115-119 | while editing nothing is sent; otherwise a remove request for this task |
| `TaskItem.TaskItemRow.OnPressRow` | src/components/TaskItem.tsx:73-78 | sends a toggle request for this task's id, in either mode |
| `Screen.Dispatch` | src/pages/Home.tsx:85-90 | a row's toggle, rename and remove requests become the screen's handlers on the same list, removal subject to the confirmation; `NoRequest` leaves the list unchanged |

## Left out

- Rendering: JSX, styles, icons and images (src/pages/Home.tsx:79-100,
  src/components/TaskItem.tsx:70-174). This is presentation only. The
  model does not restrict which intents arrive in which mode, although the
  pencil only shows when not editing and the cross and text field only show
  while editing. Each handler is modelled as it acts whenever it is called.
- The focus effect (src/components/TaskItem.tsx:60-68) acts on a native
  input widget. The text field is mounted and focused when edit mode turns
  on, and unmounted when it turns off.
- The alert dialogs. The removal confirmation is the `confirmed` parameter.
  The duplicate-title notice is the `alreadyExists` result.
- Id generation from the clock (src/pages/Home.tsx:30) is the `id`
  parameter of `HandleAddTask`. Uniqueness of ids holds only for a fresh
  id, the precondition of `AddKeepsIdsUnique`.
- React's batched state updates. `handleAddTask` checks the rendered list
  but appends to the pending list, and toggle and edit map the rendered
  list. The model applies each handler to the current list, one event at a
  time.
- The `Header`, `TasksList` and `TodoInput` components are not part of this
  model. They appear only through their props, and `Dispatch` stands for the
  callbacks `TasksList` passes on. How `TasksList` keys its rows is unknown,
  so `Rerender` accepts any task.
- The row's `index` prop only builds test identifiers and is left out.
