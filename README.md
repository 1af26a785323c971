# Farm contracts bot: task state machine in Dafny

This project models the contract board of a Discord bot for a Farming Simulator community.
The store is a list of fields, and each field has a list of tasks. A task is `available`,
`claimed` by one user, or `completed`. Users `/claim` a task by field id and name. They finish
it with `/complete` or with the private "Complete" button handed out on a claim, or they release
it with `/cancel`. Administrators (ManageGuild) `/reopen` completed tasks and add or delete
fields and tasks. A public embed shows the board, and autocompletion suggests fields and task
names.

Every handler reads a snapshot of `contracts.json`, checks its arguments against it, edits the
snapshot and writes it back whole. The model has three layers:

- **Pure transitions** (`StateMachine`). Each handler is a function from the snapshot and the
  typed arguments to a `Transition`: the reply branch (`Outcome`) and the snapshot written back.
  The failure branches return the snapshot unchanged.
- **Imperative handlers** (`CommandHandlers`, `ButtonHandlers`, `LegacyBot`). These are methods
  on a `ContractStore` object that holds the file content. Each reads the store, edits it and
  writes it back. The nested claim scan of `/complete` and `/cancel` is a loop with invariants.
  Each method is proved to produce exactly the transition of the pure layer.
- **Properties** (`Invariants`, `Properties`, and lemmas in the other modules):
  - the consistency rules every transition keeps, also over any sequence of requests;
  - first-match addressing;
  - the order of the checks;
  - round trips;
  - the button id round trip;
  - agreement between the autocompletion and the commands;
  - the board layout.

Both implementations in the repository are modelled:

- the handler modules (`handlers/*.js`, `utils/embedHelpers.js`);
- the older single-file bot (`index.js`), modelled by `LegacyBot` and the `Legacy*` functions.

The old bot differs in three ways:

- Its `/complete` and its button never write `completedBy`.
- Its `/reopen` leaves `completedBy` in place.
- Its board line has no "(completed by …)" note.

So the old bot keeps every consistency rule except "`completedBy` is set exactly when the task
is completed". `Properties.LegacyCompleteDropsCompleter` and
`Properties.LegacyReopenKeepsCompleter` show it breaking that rule.

The code does not check task names for uniqueness within a field: `/addtask` appends a task
under a name the field already has (`Properties.AddTaskCanDuplicateName`). Every lookup then takes the first
match. Field ids stay unique, because `/addfield` rejects an id that is already present.

JavaScript behaviour the handlers rely on is spelled out in `JsText`:

- `split` on one character;
- `parseInt` (leading whitespace, sign, `0x`, longest digit prefix, NaN as `None`);
- decimal number text;
- `join`.

JavaScript truthiness of optional user ids, which decides the board's claimed-by and
completed-by notes, is `Board.Truthy`.

## Model

| member | source | states |
|---|---|---|
| Contracts.FirstIndex | handlers/commandHandlers.js:10 | `findIndex`: the result satisfies the predicate, nothing before it does, and `None` means nothing in the list does |
| Contracts.FieldIndex | handlers/commandHandlers.js:145 | `contracts.find(c => c.field === id)`: the first field with the id, or none with it |
| Contracts.FirstClaimOf | handlers/commandHandlers.js:51-55 | the position where the nested scan stops: a task claimed by the user with no claim of theirs before it; `None` exactly when the user holds no claim |
| Contracts.HoldsClaim | handlers/commandHandlers.js:23 | `contracts.some(c => c.tasks.some(...))` holds exactly when the field-then-task scan finds a field holding a claim of the user |
| Contracts.SetTask | handlers/commandHandlers.js:28-29 | overwriting one task's fields in place changes that task only: every other field and task is unchanged |
| Contracts.WithTasks | handlers/commandHandlers.js:107 | replacing one field's task list leaves the other fields and the field's own id, area and notes unchanged |
| Contracts.RemoveAt | handlers/commandHandlers.js:210 | `splice(i, 1)`: one element fewer; elements before `i` stay and later ones move down by one |
| Contracts.ContractStore.constructor | utils/contractHelpers.js:7-10 | the store starts with the given content |
| Contracts.ContractStore.Read | utils/contractHelpers.js:7-10 | `readContracts` returns the current content |
| Contracts.ContractStore.Write | utils/contractHelpers.js:13-15 | `writeContracts` replaces the whole content |
| StateMachine.ClaimTask | handlers/commandHandlers.js:28-29 | a claimed task is `claimed` by the user; name, reward and completer are kept |
| StateMachine.CompleteTask | handlers/commandHandlers.js:55-57 | a completed task is `completed`, has no claimer and records the user as completer |
| StateMachine.LegacyCompleteTask | index.js:307-308 | the old completion leaves `completedBy` as it was |
| StateMachine.CancelTask | handlers/commandHandlers.js:262-263 | a cancelled task is `available` with no claimer; its completer is kept |
| StateMachine.ReopenTask | handlers/commandHandlers.js:155-157 | a reopened task is `available` with neither claimer nor completer |
| StateMachine.LegacyReopenTask | index.js:376-377 | the old reopen clears the claimer but keeps the completer |
| StateMachine.NewTask | handlers/commandHandlers.js:107 | a new task is `available` with the given name and reward and no claimer or completer |
| StateMachine.Claim | handlers/commandHandlers.js:6-30 | writes nothing unless it claims; a claim changes exactly the addressed task, which becomes claimed by the user |
| StateMachine.Complete | handlers/commandHandlers.js:49-90 | writes nothing unless it completes; the only outcomes are a completion or "nothing to complete" |
| StateMachine.LegacyComplete | index.js:301-325 | the same two outcomes for the old `/complete` |
| StateMachine.Cancel | handlers/commandHandlers.js:256-284 | writes nothing unless it cancels; the only outcomes are a cancellation or "nothing to cancel" |
| StateMachine.CompleteAt | handlers/buttonHandlers.js:4-28 | a button press completes, or answers "contract not found" or "not your claim" and writes nothing; a completion happens only at the parsed indices of a task the presser has claimed, and completes exactly that task with the presser as completer |
| StateMachine.LegacyCompleteAt | index.js:235-257 | the same three outcomes for the old button; a completion makes exactly the addressed task completed and unclaimed, with its completer left as it was |
| StateMachine.Reopen | handlers/commandHandlers.js:137-169 | without ManageGuild: refused and unchanged; otherwise it writes only on success |
| StateMachine.LegacyReopen | index.js:358-381 | the same gate for the old `/reopen`; on success the first completed task with the name in the first field with the id becomes available and unclaimed, keeps its completer, and nothing else changes |
| StateMachine.AddField | handlers/commandHandlers.js:171-196 | the permission gate; on success the store gains exactly one field at the end, with no tasks and notes defaulting to '' |
| StateMachine.AddTask | handlers/commandHandlers.js:92-118 | the permission gate; it writes only on success |
| StateMachine.DeleteField | handlers/commandHandlers.js:198-222 | the permission gate; it writes only on success |
| StateMachine.DeleteTask | handlers/commandHandlers.js:224-254 | the permission gate; it writes only on success |
| StateMachine.Apply | handlers/commandHandlers.js:6-284 | for any request, a failing reply leaves the store unchanged |
| StateMachine.LegacyApply | index.js:233-461 | the old bot writes only on success; it behaves as the handler modules on every request except complete, the button and reopen |
| Invariants.SetTaskKeeps | handlers/commandHandlers.js:28-29 | overwriting one task keeps unique ids, and keeps claimer or completer tracking when the new task keeps it; a non-claimed task adds no claim |
| Invariants.WithTasksKeeps | handlers/commandHandlers.js:107 | a new task list made of copied tasks and fresh available tasks keeps every rule, and maps each claim to a claim in the old store |
| Invariants.RemoveFieldKeeps | handlers/commandHandlers.js:210 | removing a field keeps every rule; each remaining claim was a claim before |
| Invariants.ClaimTaskKeepsSingle | handlers/commandHandlers.js:22-29 | claiming for a user who holds no claim keeps one claim per user |
| Invariants.ClaimKeepsValid | handlers/commandHandlers.js:6-30 | claim keeps the rules: claimer set exactly when claimed, completer set exactly when completed, one claim per user, unique field ids |
| Invariants.CompleteKeepsValid | handlers/commandHandlers.js:49-58 | complete keeps all four rules |
| Invariants.LegacyCompleteKeepsLegacyValid | index.js:301-309 | the old complete keeps every rule except completer tracking |
| Invariants.CancelKeepsValid | handlers/commandHandlers.js:256-264 | cancel keeps all four rules |
| Invariants.CompleteAtKeepsValid | handlers/buttonHandlers.js:25-28 | the button keeps all four rules |
| Invariants.LegacyCompleteAtKeepsLegacyValid | index.js:248-250 | the old button keeps every rule except completer tracking |
| Invariants.ReopenKeepsValid | handlers/commandHandlers.js:155-158 | reopen keeps all four rules |
| Invariants.LegacyReopenKeepsLegacyValid | index.js:376-378 | the old reopen keeps every rule except completer tracking |
| Invariants.AddFieldKeepsValid | handlers/commandHandlers.js:179-185 | addfield keeps all rules; rejecting a present id keeps field ids unique |
| Invariants.AddTaskKeepsValid | handlers/commandHandlers.js:107-108 | addtask keeps all rules |
| Invariants.DeleteFieldKeepsValid | handlers/commandHandlers.js:205-211 | deletefield keeps all rules |
| Invariants.DeleteTaskKeepsValid | handlers/commandHandlers.js:237-243 | deletetask keeps all rules |
| Invariants.ApplyKeepsValid | handlers/commandHandlers.js:6-284 | every handler keeps all rules |
| Invariants.LegacyApplyKeepsLegacyValid | index.js:233-461 | every old handler keeps the rules other than completer tracking |
| Invariants.OnlyClaimingAddsClaims | handlers/commandHandlers.js:49-284 | in the handler modules every request other than a claim only removes claims: a user holding a claim afterwards held one before |
| Invariants.AdminRequestsAddNoClaims | handlers/commandHandlers.js:92-254 | addfield, addtask, deletefield and deletetask never give anyone a claim |
| Invariants.LegacyOnlyClaimingAddsClaims | index.js:233-461 | the same for the old bot, including its own complete, button and reopen |
| Invariants.RunKeepsValid | handlers/commandHandlers.js:6-284 | any sequence of requests, from any users with any permissions, keeps all rules |
| Invariants.LegacyRunKeepsLegacyValid | index.js:233-461 | the same for the old bot, without completer tracking |
| Properties.ClaimChecksFieldThenTask | handlers/commandHandlers.js:10-21 | "field not found" exactly when no field has the id; "task unavailable" exactly when the first such field has no available task with the name |
| Properties.ClaimChecksClaimsLast | handlers/commandHandlers.js:22-30 | once field and task are found: refused exactly when the user holds a claim, else the first available task with the name in the first field with the id is claimed |
| Properties.ClaimGivesSoleClaim | handlers/commandHandlers.js:22-29 | after a successful claim the claimed task is the user's only claim and the first one the scan finds |
| Properties.CompleteTakesFirstClaim | handlers/commandHandlers.js:52-58 | nothing to complete exactly when the user holds no claim; otherwise the first claim in field then task order is completed with the user as completer and nothing else changes |
| Properties.CancelTakesFirstClaim | handlers/commandHandlers.js:259-264 | nothing to cancel exactly when the user holds no claim; otherwise the first claim becomes available, its completer untouched, nothing else changes |
| Properties.ButtonNeedsOwnClaim | handlers/buttonHandlers.js:8-28 | "contract not found" exactly for an index that is absent or out of range; completion exactly when the indexed task is claimed by the presser, at that position, and the store then differs only in that task, now completed, unclaimed and completed by the presser |
| Properties.ButtonAgreesWithComplete | handlers/buttonHandlers.js:17-28 | with one claim per user, a successful press does exactly what `/complete` does, even with stale indices |
| Properties.AdminGate | handlers/commandHandlers.js:93-96 | the five admin requests change nothing without ManageGuild (in both bots); claim, complete, cancel and the button ignore the permission |
| Properties.ReopenFirstCompleted | handlers/commandHandlers.js:145-158 | reopen addresses the first completed task with the name in the first field with the id, and failures are characterized exactly |
| Properties.AddFieldRejectsDuplicate | handlers/commandHandlers.js:178-185 | rejected exactly when the id is present; otherwise the new field is appended after the old ones and is the only field with that id |
| Properties.AddTaskAppends | handlers/commandHandlers.js:102-108 | the new available task goes at the end of the first field with the id; all other tasks and fields are unchanged |
| Properties.AddTaskCanDuplicateName | handlers/commandHandlers.js:107 | names are not checked: after adding, the field can hold two tasks with the same name |
| Properties.DeleteFieldRemovesFirst | handlers/commandHandlers.js:205-211 | exactly the first field with the id is removed; the rest keep their order |
| Properties.DeleteTaskRemovesFirst | handlers/commandHandlers.js:237-243 | exactly the first task with the name (any status) in the first field with the id is removed; everything else keeps its order |
| Properties.ClaimThenCancelRestores | handlers/commandHandlers.js:256-264 | claiming a task and cancelling gives back the original store |
| Properties.ClaimCompleteReopenRestores | handlers/commandHandlers.js:145-158 | claim, complete, reopen gives back the original store when the field had no completed task of that name |
| Properties.DeleteFieldDropsClaim | handlers/commandHandlers.js:205-211 | deleting the field that holds a user's claim leaves them nothing to complete |
| Properties.LegacyCompleteDiffersOnlyInCompleter | index.js:301-309 | the old `/complete` gives the same reply for the same task; the stores differ only in that task's completer |
| Properties.LegacyCompleteDropsCompleter | index.js:306-309 | from a store that tracks completers, the old `/complete` leaves a completed task without one |
| Properties.LegacyButtonDropsCompleter | index.js:248-250 | from a store that tracks completers, a completion by the old button leaves a completed task without one |
| Properties.LegacyButtonDiffersOnlyInCompleter | index.js:244-250 | for every store and any indices, the old button gives the module button's reply; on a completion the two stores differ only in that task's completer, which the old button leaves as it was |
| Properties.LegacyReopenKeepsCompleter | index.js:371-378 | the task the old `/reopen` reopens is available and unclaimed but keeps its old completer; from a store that tracks completers that completer is present, so tracking breaks |
| Properties.LegacyReopenDiffersOnlyInCompleter | index.js:358-381 | for every store, the old `/reopen` gives the same reply as the module one; on success the two stores differ only in the reopened task's completer, which the old one keeps instead of clearing |
| CommandHandlers.FindClaim | handlers/commandHandlers.js:51-86 | the nested `for...of` scan with `found` and `break` stops at the first claim of the user |
| CommandHandlers.FirstClaimUnique | handlers/commandHandlers.js:51-55 | any position claimed by the user with no claim of theirs before it is the first claim |
| CommandHandlers.HandleClaim | handlers/commandHandlers.js:6-47 | the reply and new store are those of the claim transition; a claim reply carries the Complete button for the claimed position |
| CommandHandlers.HandleComplete | handlers/commandHandlers.js:49-90 | the reply and new store are those of the complete transition |
| CommandHandlers.HandleCancel | handlers/commandHandlers.js:256-284 | the reply and new store are those of the cancel transition |
| CommandHandlers.HandleReopen | handlers/commandHandlers.js:137-169 | the reply and new store are those of the reopen transition |
| CommandHandlers.HandleAddField | handlers/commandHandlers.js:171-196 | the reply and new store are those of the addfield transition |
| CommandHandlers.HandleAddTask | handlers/commandHandlers.js:92-118 | the reply and new store are those of the addtask transition |
| CommandHandlers.HandleDeleteField | handlers/commandHandlers.js:198-222 | the reply and new store are those of the deletefield transition |
| CommandHandlers.HandleDeleteTask | handlers/commandHandlers.js:224-254 | the reply and new store are those of the deletetask transition |
| ButtonHandlers.ButtonIdRoundTrip | handlers/buttonHandlers.js:6 | splitting `complete_private_<c>_<t>` on `_` and parsing parts 2 and 3 gives back `c` and `t` |
| ButtonHandlers.ButtonIndices | handlers/buttonHandlers.js:6-8 | destructures parts 2 and 3 of the `_`-split id and runs `parseInt` on each; a missing part is `undefined`, which parses to NaN (`None`); its properties are the round trip above and the missing-parts lemma below |
| ButtonHandlers.ButtonIndicesMissingParts | handlers/buttonHandlers.js:6-8 | an id with fewer than three parts has no field index, one with fewer than four no task index |
| ButtonHandlers.ClaimButtonCompletesClaim | handlers/buttonHandlers.js:6-28 | pressing the button from a claim reply completes exactly that claimed task, as `/complete` would |
| ButtonHandlers.HandleCompleteButton | handlers/buttonHandlers.js:4-61 | the reply and new store are those of the button transition at the parsed indices |
| LegacyBot.ButtonIdsRecognised | index.js:235 | every button id the bot hands out passes its `complete_private_` prefix test |
| LegacyBot.HandleComplete | index.js:301-325 | the reply and new store are those of the old complete transition |
| LegacyBot.HandleCompleteButton | index.js:235-257 | the reply and new store are those of the old button transition |
| LegacyBot.HandleReopen | index.js:358-381 | the reply and new store are those of the old reopen transition |
| LegacyBot.HandleInteraction | index.js:233-523 | prefixed buttons go to the old button; each slash command gives the old bot's transition, and only a claim reply carries a button, which is the Complete button for the claimed position (`complete_private_<c>_<t>`); autocompletion changes nothing; anything else gets no reply and changes nothing |
| Autocomplete.Cap | handlers/autocompleteHandlers.js:12 | `slice(0, 25)`: a prefix of length min(n, 25) |
| Autocomplete.HasTaskWith | handlers/autocompleteHandlers.js:10 | `c.tasks.some(t => t.status === status)`: the filter condition of the field suggestions |
| Autocomplete.FieldsWith | handlers/autocompleteHandlers.js:10 | exactly the fields that have a task in the status |
| Autocomplete.FieldsWithAppend | handlers/autocompleteHandlers.js:10 | the field filter keeps store order |
| Autocomplete.NamesWith | handlers/autocompleteHandlers.js:18-20 | exactly the non-empty names of tasks in the status (`filter(Boolean)` drops '') |
| Autocomplete.NamesWithAppend | handlers/autocompleteHandlers.js:18-20 | the name filter keeps task order |
| Autocomplete.FieldChoice | handlers/autocompleteHandlers.js:12 | a field suggestion's value is the field id |
| Autocomplete.FieldChoices | handlers/autocompleteHandlers.js:12 | one suggestion per field, in order |
| Autocomplete.NameChoices | handlers/autocompleteHandlers.js:22 | one suggestion per name, with the name as value |
| Autocomplete.TaskNameChoices | handlers/autocompleteHandlers.js:15-23 | at most 25 task suggestions |
| Autocomplete.Suggest | handlers/autocompleteHandlers.js:3-61 | a reply of at most 25 choices, given exactly for claim/reopen with field or task focused, addtask/deletefield/deletetask with field focused, and deletetask with name focused |
| Autocomplete.FieldSuggestionsMatchStatus | handlers/autocompleteHandlers.js:8-13 | claim (reopen) field suggestions are fields with an available (completed) task, and all of them when there are at most 25 |
| Autocomplete.TaskSuggestionsMatchStatus | handlers/autocompleteHandlers.js:14-41 | the task suggestions of claim (reopen) for a known field are the non-empty names of its available (completed) tasks in task order, cut to 25; with at most 25 of them every such task is suggested |
| Autocomplete.AllFieldsSuggested | handlers/autocompleteHandlers.js:43-48 | the field option of addtask, deletefield and deletetask lists every field in order, up to 25 |
| Autocomplete.AllTaskNamesSuggested | handlers/autocompleteHandlers.js:52-58 | deletetask's name option lists every task of the field in order, whatever its status, up to 25 |
| Autocomplete.TaskSuggestionFound | handlers/autocompleteHandlers.js:14-23 | a suggested name names a task in the status in the first field with the id |
| Autocomplete.ClaimSuggestionsClaimable | handlers/autocompleteHandlers.js:14-23 | claiming a suggested task either succeeds or is refused only because the user already holds a claim |
| Autocomplete.ReopenSuggestionsReopenable | handlers/autocompleteHandlers.js:32-41 | reopening a suggested task by an administrator succeeds |
| Autocomplete.UnknownFieldSuggestsNothing | handlers/autocompleteHandlers.js:17 | an absent or unknown field option gives an empty task or name list |
| Board.IconStatus | utils/embedHelpers.js:13 | reading a status icon back gives a status with that icon |
| Board.StatusIcon | utils/embedHelpers.js:13 | each status has its own icon: green exactly for available, yellow exactly for claimed, the check mark exactly for completed |
| Board.Suffix | utils/embedHelpers.js:15-20 | the note is non-empty exactly for a claimed task with a truthy claimer or a completed task with a truthy completer, and names that user |
| Board.Truthy | utils/embedHelpers.js:15-17 | JavaScript truthiness of a user id: a missing or empty id is falsy, so no note is shown for it |
| Board.LegacySuffix | index.js:62 | the inline board adds a note exactly for a claimed task with a truthy claimer, never for a completed one |
| Board.TaskLine | utils/embedHelpers.js:14-21 | a task line starts with the status icon and ends with the claimed-by or completed-by note |
| Board.LegacyTaskLine | index.js:60-63 | the old line starts with the status icon and ends with the claimed-by note only |
| Board.TaskLineShowsTask | utils/embedHelpers.js:21 | a task line starts with the icon of the task's status and shows the name in bold after it |
| Board.LegacyTaskLineDrops | index.js:62 | the old line equals the new one except for completed tasks, where it lacks the completer note |
| Board.TaskLines | utils/embedHelpers.js:12-21 | one line per task, in order |
| Board.FieldLines | utils/embedHelpers.js:11-26 | a field with n tasks has 2n-1 lines, none for an empty field |
| Board.FieldLinesShape | utils/embedHelpers.js:12-26 | a field with n tasks shows 2n-1 lines: task lines on even lines, blank separators between them |
| Board.FieldLinesAppend | utils/embedHelpers.js:22-25 | adding a task to a non-empty field adds a blank line and the new task's line |
| Board.BuildFieldLines | utils/embedHelpers.js:11-26 | the inner `forEach` loop produces the field's lines |
| Board.FieldName | utils/embedHelpers.js:34 | `Field ${field} (${area}ha)`; its shape is stated by the lemma below |
| Board.FieldNameShowsId | utils/embedHelpers.js:34 | a field name starts with `Field `, then the field id as printed, and ends with `ha)` |
| Board.FieldValue | utils/embedHelpers.js:27-31 | the joined lines, plus a spacer unless last; stated by the lemma below |
| Board.FieldValueSpacer | utils/embedHelpers.js:27-31 | the last field's value is exactly its lines joined by newlines; every other value is that text followed by a newline and the zero-width spacer |
| Board.BuildEntry | utils/embedHelpers.js:11-35 | the body of the outer loop builds the entry of one field: its name and its value |
| Board.BuildContractEmbed | utils/embedHelpers.js:4-38 | the embed has the title, legend and colour, and one entry per field in order, named `Field <id> (<area>ha)`; the value is the lines joined by newlines, plus a spacer on every field but the last |
| Board.ContractButtons | utils/embedHelpers.js:41-44 | the board carries no public buttons |
| Board.CompleteButtonId | utils/embedHelpers.js:49 | the id starts with `complete_private_` |
| Board.CompleteButton | utils/embedHelpers.js:47-53 | the button's id addresses the position, and its label is `Complete: Field <id> - <name>` |
| JsText.NatText | utils/embedHelpers.js:49 | the text of a non-negative number is non-empty and all digits, with no leading zero except for 0 itself |
| JsText.IntText | utils/embedHelpers.js:33 | the text of a negative number starts with '-'; a non-negative one is its digit text |
| JsText.Join | utils/embedHelpers.js:27 | `join` of no lines is empty; otherwise the result starts with the first line |
| JsText.JoinAppend | utils/embedHelpers.js:27 | joining one more line appends the separator and that line |
| JsText.Split | handlers/buttonHandlers.js:6 | `split` gives at least one part, and no part contains the separator |
| JsText.SplitAtFirst | handlers/buttonHandlers.js:6 | splitting at the first separator gives the text before it, then the split of the rest |
| JsText.SplitWithoutSep | handlers/buttonHandlers.js:6 | a text without the separator splits into itself |
| JsText.TrimStart | handlers/buttonHandlers.js:8 | `parseInt` skips exactly the leading whitespace |
| JsText.DigitRun | handlers/buttonHandlers.js:8 | the longest prefix of digits that `parseInt` reads |
| JsText.LeadingDigits | handlers/buttonHandlers.js:8 | a number is read exactly when the text starts with a digit of the base |
| JsText.ParseInt | handlers/buttonHandlers.js:8 | `parseInt` of a text with no decimal digit at all is NaN (`None`); the read-back of number texts is the lemma below |
| JsText.ParseIntNatText | handlers/buttonHandlers.js:8 | `parseInt` of a number's decimal text gives the number back |
| JsText.DigitsValueOfNatText | handlers/buttonHandlers.js:17 | the digits of a number's text are worth that number |

## Left out

- I/O: reading and writing `contracts.json` are the start and end of each handler method. File errors, JSON parsing and the message-info file are not modelled.
- Discord side effects are represented only by `Outcome` values and the returned button or suggestions. This covers every `interaction.reply`, `deferUpdate` and `respond`, `updateContractMessage` (utils/messageHelpers.js), and the payout notification with its role mention. The reply texts are not modelled.
- `handleSetupContractsCommand` and the `setupcontracts` branch of index.js only post the embed and save its message id. They are I/O, and only the embed they post is modelled.
- Permission lookup is a boolean input, `isAdmin`.
- `reward` and `area` are kept as already formatted text. `toLocaleString()` and float printing depend on the locale and on floating point.
- Concurrency: handlers run one at a time. The interleaving of two handlers between read and write (lost updates) is not modelled.
- The button handler's try/catch (handlers/buttonHandlers.js:5-60) is not modelled: the model has no exceptions, so a throw anywhere in it (parsing, reading or writing the file, or updating the board message after the write, which replies with an error although the task was completed) is out of scope.
- JsText.ParseInt: does not model the loss of precision above 2^53, because the model uses unbounded integers.
- JsText.TrimStart: recognises the common JavaScript whitespace characters. It does not recognise every Unicode space separator.
- Statuses other than the three known ones do not occur. The board's "✅ for anything else" rule is therefore not modelled separately.
- A `completedBy` that is absent and one that is `null` are both `None`.
- The embed timestamp is the posting time (a clock), and its colour is a constant.
- The old bot's board (index.js:51-80) is the module board except for its task line, which is modelled as Board.LegacyTaskLine.
- The old bot's autocompletion (index.js:465-523) tests the add/delete commands with a separate `if` rather than `else if`. For claim and reopen that test can never hold, so both bots share Autocomplete.Suggest.
