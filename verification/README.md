# Todo list: persistence and state layer in Dafny

This project models the core of a client-side todo-list application. The core is:

- the validation rule for todo text: trim it, then accept 1 to 500 characters;
- the storage adapter, which keeps the whole collection under the key `"todos"` of the browser's local key-value store;
- the state manager (the `useTodos` hook), which owns the list and the last error. Every mutation computes a candidate list and saves it. If the save succeeds, the candidate is committed and the error is cleared. If it fails, the old list stays and the error message is recorded;
- the two derived views: the newest-first ordering of the list and the total / completed / pending counts;
- the event handlers of the new-todo input and of the inline editor of a todo row.

Files, one module each:

- `todo_types.dfy`: `Todo`, `UpdateTodoInput` and `Option`.
- `validation.dfy`: `Validation`, with the constants `MinTextLength = 1`, `MaxTextLength = 500` and `StorageKey = "todos"`, `Trim` over an explicit whitespace predicate (the ECMAScript WhiteSpace and LineTerminator code points), and `IsValidTodoText`.
- `web_storage.dfy`: `WebStorage`, the browser store as a class. Its mutable `items` map holds each stored string as JSON.parse sees it: the empty string, not JSON, a JSON non-array, or an array of todos. Constant per-key fault settings say which keys make `setItem` throw (a DOMException with a name and legacy code, or another error) and which make `getItem` or `removeItem` throw.
- `todo_storage.dfy`: `TodoStorage`, the adapter. `SaveTodos`, `IsStorageAvailable` and `ClearTodos` are methods that modify the store. `LoadTodos` is a function that only reads it.
- `use_todos.dfy`: `UseTodos`. It holds the candidate-list functions (prepend, merge, filter, flip) and their lemmas. The class `TodoManager` holds `todos`, `error` and a reference to the store. `Synced()` says that the store holds exactly the in-memory list. Every mutation preserves it, and every successful save establishes it.
- `todo_list.dfy`: `TodoList`, a stable insertion sort by `createdAt`, newest first.
- `todo_stats.dfy`: `TodoStats`.
- `todo_input.dfy`, `todo_item.dfy`: the handler state machines as classes (`InputState`, `ItemState`). A call of the `onAddTodo` / `onEdit` callback is modelled as the handler's returned `Some(text)`.

Where the tests and the code disagree, the model follows the code. `__tests__/lib/hooks/useTodos.test.ts:47-65` expects the mount-time messages `'Storage unavailable'` and a longer "Failed to load todos…" text. `lib/hooks/useTodos.ts:25-31` sets the fixed UNAVAILABLE message and `'Failed to load todos.'`, and `UseTodos.LoadErrorMessage` follows lines 25-31.

## Model

| member | source | states |
|---|---|---|
| Validation.TrimStart | lib/utils/validation.ts:16 | The result is no longer than the input; it is empty iff the input is all whitespace; otherwise it starts with a non-whitespace character |
| Validation.TrimEnd | lib/utils/validation.ts:16 | The result is no longer than the input; it is empty iff the input is all whitespace; otherwise it ends with a non-whitespace character and starts where the input starts |
| Validation.Trim | lib/utils/validation.ts:16 | The trimmed text has no surrounding whitespace, is no longer than the input, and is empty iff the input is all whitespace |
| Validation.TrimSplits | lib/utils/validation.ts:16 | Every string is its trimmed text with whitespace before and after it (trim removes only surrounding whitespace) |
| Validation.TrimPadded | lib/utils/validation.ts:16 | Trimming whitespace + core + whitespace gives back exactly the core when the core has no surrounding whitespace (trim keeps the inner text whole) |
| Validation.TrimIdempotent | lib/utils/validation.ts:16 | Trimming twice is the same as trimming once |
| Validation.IsValidTodoText | lib/utils/validation.ts:15-21 | A valid text is never blank, and every non-blank text of at most 500 characters is valid |
| Validation.ValidityIsTrimInvariant | lib/utils/validation.ts:15-21 | Validating the trimmed text gives the same answer as validating the raw text |
| Validation.ValidIffCoreLengthInRange | lib/utils/validation.ts:15-21 | A text padded with any whitespace is valid iff its core has between 1 and 500 characters |
| Validation.WhitespaceOnlyIsInvalid | lib/utils/validation.ts:17-20 | A text made only of whitespace, including the empty text, is invalid |
| Validation.EmptyAndBlankInvalid | __tests__/lib/utils/validation.test.ts:25-32 | `""` and `"\t\n"` are invalid |
| Validation.RunValidity | lib/utils/validation.ts:17-20 | n copies of a visible character, bare or padded with spaces, are valid iff 1 <= n <= 500 |
| Validation.LengthBoundaries | __tests__/lib/utils/validation.test.ts:34-52 | 500 'a' are valid and 501 are invalid; 3 spaces + 500 'a' + 3 spaces is valid; 2 + 501 + 2 is invalid |
| TodoStorage.ErrorMessage | lib/services/todoStorage.ts:25-30 | The ERROR_MESSAGES table: every code has a message, and each is a full sentence |
| TodoStorage.ErrorMessageTable | lib/services/todoStorage.ts:25-30 | The four fixed messages of UNAVAILABLE, QUOTA_EXCEEDED, SAVE_ERROR and LOAD_ERROR, verbatim |
| TodoStorage.ErrorMessagesDistinct | lib/services/todoStorage.ts:25-30 | No two codes share a message |
| TodoStorage.IsQuotaError | lib/services/todoStorage.ts:59-62 | A DOMException named QuotaExceededError, or one with code 22, is a quota error; a non-DOMException never is |
| TodoStorage.OtherDomExceptionNotQuota | lib/services/todoStorage.ts:59-71 | A DOMException with any other name and code is not a quota error, so the failed save is UNAVAILABLE or SAVE_ERROR according to the probe |
| TodoStorage.AfterProbe | lib/services/todoStorage.ts:38-44 | The probe touches no key other than `__storage_test__`; after a successful probe that key is absent; if the probe write throws, nothing changes |
| TodoStorage.IsStorageAvailable | lib/services/todoStorage.ts:36-45 | Never throws; returns true iff both the probe write and the probe removal of `__storage_test__` succeed; the store changes only under the probe key |
| TodoStorage.SaveFailureCode | lib/services/todoStorage.ts:58-72 | A failed write is never LOAD_ERROR; it is QUOTA_EXCEEDED iff setItem threw a QuotaExceededError / code-22 DOMException; it is SAVE_ERROR iff the fault is not a quota error and the probe succeeds, and UNAVAILABLE iff it is not a quota error and the probe fails |
| TodoStorage.StoreAfterSave | lib/services/todoStorage.ts:53-73 | The whole store after a save: the key holds the todos when the write succeeds, and its value is unchanged when it fails; keys other than the key and `__storage_test__` never change |
| TodoStorage.SaveTodos | lib/services/todoStorage.ts:53-73 | Succeeds iff setItem succeeds, and then the key holds exactly the todos, no other key changes, and loading returns the todos. On failure it throws the classified code with that code's fixed message. The new store is StoreAfterSave: unchanged on a quota error, otherwise changed only by the probe |
| TodoStorage.LoadTodos | lib/services/todoStorage.ts:80-105 | A stored array is returned verbatim. A non-empty result is exactly the array stored under the key. So an absent, empty, non-JSON or non-array value, or a throwing getItem, gives `[]` |
| TodoStorage.ClearTodos | lib/services/todoStorage.ts:111-117 | Removes only the key; a throwing removeItem is swallowed and leaves the store unchanged |
| UseTodos.NewTodo | lib/hooks/useTodos.ts:45-50 | The created todo has the supplied id and timestamp, the trimmed text, and is not completed |
| UseTodos.Merge | lib/hooks/useTodos.ts:79 | The spread merge keeps id and createdAt; each present field of the update overwrites, each absent field keeps its value |
| UseTodos.ApplyUpdate | lib/hooks/useTodos.ts:78-80 | Same length, same ids and timestamps position by position; non-matching todos unchanged; matching todos merged |
| UseTodos.RemoveId | lib/hooks/useTodos.ts:103 | Keeps exactly the todos whose id differs; an absent id gives the list unchanged |
| UseTodos.RemoveIdAppend | lib/hooks/useTodos.ts:103 | Filtering distributes over concatenation, so the kept todos keep their relative order |
| UseTodos.RemoveIdKeepsUnique | lib/hooks/useTodos.ts:103 | On a list with unique ids, the result has unique ids and none equal to the deleted id |
| UseTodos.FlipCompleted | lib/hooks/useTodos.ts:131-133 | Same length; `completed` is negated on matching todos only; everything else is unchanged |
| UseTodos.FlipTwice | lib/hooks/useTodos.ts:131-133 | Flipping the same id twice gives back the original list |
| UseTodos.MutationErrorMessage | lib/hooks/useTodos.ts:59-64 | A StorageError shows its own message. Anything else shows the operation's generic text ('Failed to save todo' / 'Failed to update todo' / 'Failed to delete todo'), which is never an adapter message |
| UseTodos.LoadErrorMessage | lib/hooks/useTodos.ts:23-33 | The mount catch maps UNAVAILABLE to the fixed message, another StorageError to its message, and anything else to 'Failed to load todos.'. For an error built by the adapter the result is always its message |
| UseTodos.TodoManager.Mount | lib/hooks/useTodos.ts:19-34 | The list is the loadTodos result, there is no error, and the list is in sync with a stored array |
| UseTodos.TodoManager.Persist | lib/hooks/useTodos.ts:52-67 | The mutation protocol. A successful save commits the candidate, clears the error and persists exactly the candidate. A failed save keeps the old list, records the classified message and leaves the stored value alone. The whole new store is StoreAfterSave of the candidate. Sync is preserved either way |
| UseTodos.TodoManager.AddTodo | lib/hooks/useTodos.ts:40-69 | Invalid text changes nothing, not even the store. Otherwise the new todo is prepended or the list is rolled back, and the store becomes StoreAfterSave of the prepended list. Sync is preserved. Unique ids stay unique when the supplied id is fresh |
| UseTodos.TodoManager.UpdateTodo | lib/hooks/useTodos.ts:76-95 | Always saves: commits ApplyUpdate (no text validation) or rolls back; the store becomes StoreAfterSave of ApplyUpdate. Sync and unique ids are preserved |
| UseTodos.TodoManager.DeleteTodo | lib/hooks/useTodos.ts:101-118 | Always saves, even for an absent id: commits RemoveId or rolls back; the store becomes StoreAfterSave of RemoveId. Sync and unique ids are preserved |
| UseTodos.TodoManager.ToggleTodo | lib/hooks/useTodos.ts:124-148 | An absent id changes nothing and saves nothing. Otherwise it commits FlipCompleted or rolls back, and the store becomes StoreAfterSave of FlipCompleted. Sync and unique ids are preserved |
| UseTodos.TodoManager.ClearError | lib/hooks/useTodos.ts:153 | The error becomes null and the list is unchanged |
| UseTodos.ToggleTwice | lib/hooks/useTodos.ts:124-148 | With a working store, two toggles of a present id restore the list, leave no error and keep the store in sync |
| UseTodos.BuyMilkScenario | lib/hooks/useTodos.ts:40-148 | On an empty working store: add "Buy milk" gives one uncompleted todo; toggle completes it; delete empties the list and the store holds `[]` |
| TodoList.InsertNewest | components/TodoList.tsx:29 | Inserting into a newest-first list keeps it newest first and adds exactly the one todo |
| TodoList.SortNewestFirst | components/TodoList.tsx:28-29 | The displayed list is non-increasing in createdAt and is a permutation of the input (same multiset, same length) |
| TodoList.SortIsStable | components/TodoList.tsx:29 | For every timestamp, the todos carrying it appear in the same order as in the input (stable sort) |
| TodoList.SortKeepsSorted | components/TodoList.tsx:29 | A list that is already newest first is displayed unchanged |
| TodoStats.CompletedTodos | components/TodoStats.tsx:21 | The filter keeps exactly the completed todos, and keeps all of them iff every todo is completed |
| TodoStats.CompletedMultiplicity | components/TodoStats.tsx:21 | Each completed todo occurs in the result exactly as often as in the input; no uncompleted todo occurs |
| TodoStats.CompletedAppend | components/TodoStats.tsx:21 | The filter distributes over concatenation, so the completed todos keep their input order |
| TodoStats.CompletedCount | components/TodoStats.tsx:21-22 | The filtered list has one entry per completed position, and the completed and uncompleted positions together are all positions |
| TodoStats.ComputeStats | components/TodoStats.tsx:20-22 | total is the length; completed is the number of positions holding a completed todo and pending the number holding an uncompleted one, so pending = total - completed; completed is 0 iff none is completed; pending is 0 iff all are completed |
| TodoInput.InputState.constructor | components/TodoInput.tsx:23-24 | The input starts empty with no error |
| TodoInput.InputState.IsInputEmpty | components/TodoInput.tsx:56 | The add button is disabled iff the input is all whitespace |
| TodoInput.InputState.HandleSubmit | components/TodoInput.tsx:26-40 | A blank input sets 'Please enter a todo', keeps the text and adds nothing. A valid input adds its trimmed text once, then clears the input and the error. An over-long input changes nothing |
| TodoInput.InputState.HandleKeyDown | components/TodoInput.tsx:42-46 | Enter behaves as submit; every other key changes nothing |
| TodoInput.InputState.HandleInputChange | components/TodoInput.tsx:48-54 | The input takes the new value and the error is cleared |
| TodoItem.ItemState.constructor | components/TodoItem.tsx:28-29 | A row starts out of edit mode with the todo's text in the editor |
| TodoItem.ItemState.HandleSave | components/TodoItem.tsx:31-37 | onEdit gets the trimmed text iff it is non-blank and differs from the todo's text; edit mode always ends |
| TodoItem.ItemState.HandleCancel | components/TodoItem.tsx:39-42 | The editor reverts to the todo's text, edit mode ends, nothing is handed over |
| TodoItem.ItemState.HandleKeyDown | components/TodoItem.tsx:44-50 | Enter saves, Escape cancels, any other key changes nothing |
| TodoItem.ItemState.HandleBlur | components/TodoItem.tsx:67 | Losing focus cancels: the typed text is discarded |
| TodoItem.ItemState.HandleChange | components/TodoItem.tsx:65 | Typing replaces the editor's text and keeps the mode |
| TodoItem.ItemState.HandleDoubleClick | components/TodoItem.tsx:74 | Double-click enters edit mode |
| TodoItem.ItemState.HandleTextKeyDown | components/TodoItem.tsx:82-87 | Enter or Space on the text enters edit mode; other keys change nothing |
| TodoItem.EditSkipsLengthLimit | components/TodoItem.tsx:31-37 | Double-click, typing 501 characters and Enter hands a text to onEdit that isValidTodoText rejects: the edit path checks only for blank text, and updateTodo does not validate |

## Left out

- Rendering: markup, styling, ARIA labels, icons, the wiring in `components/TodoApp.tsx`, `components/EmptyState.tsx`, `app/page.tsx` and the `v0-source/` skin. `components/TodoApp.tsx:50` maps an edit to `updateTodo(id, { text })`; in the model that is `TodoManager.UpdateTodo` with only `text` present.
- JSON text: `JSON.stringify` and `JSON.parse` are replaced by the parsed shape of the stored value (`WebStorage.Stored`). Serialising a todo array cannot throw, so the write is the only failure point of a save. A stored array whose elements are not todo objects is not represented; the source would return such an array unchecked.
- Browser and foreign calls: `localStorage` is the `LocalStorage` class with fixed per-key fault settings. It does not model faults that change over time or depend on the size of the value. `crypto.randomUUID` and `Date.now` are the `id` and `createdAt` parameters of `AddTodo`; UUID format and freshness are not modelled.
- React scheduling: the functional `setTodos` updater, effect timing, re-renders and strict-mode double calls. Each operation is one sequential method call.
- String details: `String.prototype.trim` uses the whitespace predicate in `Validation.IsWhitespace`, and lengths are counted in code points (`|s|`), not UTF-16 units.
- UseTodos.TodoManager.Persist: the save is always made through the modelled adapter, which throws only StorageErrors. So the generic per-operation messages and the whole mount-time catch are unreachable there. They are stated separately by `MutationErrorMessage` and `LoadErrorMessage`.
- `createdAt` is an unbounded `int`. In the source it is a JavaScript number (`Date.now()`), so the comparator's subtraction in `components/TodoList.tsx:29` and the JSON round-trip are exact only below 2^53; timestamps that large are not modelled.
- Text length and id uniqueness are not invariants of the manager. `updateTodo` does not validate text and ids are never checked for freshness. Uniqueness appears only conditionally in the ensures clauses.
- TodoInput.InputState.HandleInputChange: the input element's `maxLength` of 500 is a browser constraint and is not modelled, so the handler accepts any value.
- TodoItem.ItemState.constructor: the row's todo is fixed for the object's lifetime. A re-render with a changed `todo` prop keeps `isEditing` and `editText` in the source, and that is not modelled.
