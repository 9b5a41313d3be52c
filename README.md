# CHAOS task board — a Dafny model

CHAOS ("The Anti-Task Manager") is a sticky-note board. The FastAPI service
in `backend/server.py` keeps tasks in a MongoDB collection: each task has
text, a position, a size, a priority, a colour, an optional date, a
completed flag and a creation time. The React client in `frontend/src/App.js`
shows the open tasks as cards. It updates its own list optimistically before
the server answers. It lets the user drag and resize cards. In focus mode it
blurs every card except the three highest-ranked ones.

This project models both halves:

- `task.dfy` (module `TaskModel`): the `Task`, `TaskCreate` and `TaskUpdate`
  records with their defaults. It also has the update dictionary that drops
  nulls (`UpdateData`) and the MongoDB `$set` that applies it to one document
  (`ApplySet`, described field by field through `FieldOf`).
- `task_table.dfy` (module `TaskService`): the collection is only used
  through single-document operations keyed by `id`, so it is a class
  `TaskTable` holding a `map<string, Task>`. Its five handlers are methods.
  The 400 and 404 `HTTPException`s are an `HttpError` inside a `Result`.
  `IsListing` is the specification of the listing query.
- `board.dfy` (module `Board`): the client's list transforms as recursive
  functions. They cover the temporary card and its replacement, the spread
  merge, the id filter, `find`, and the ranking comparator with an insertion
  sort proved stable. The class `App` holds the React state (`tasks`,
  `focusMode`, `explosions`). Its methods rewrite that state the way the
  `setTasks`/`setExplosions` calls do. `ImportantTasks` sorts the state list
  in place, as `tasks.sort` does.
- `card.dfy` (module `Card`): the pointer bookkeeping of `handleMouseDown`
  and `handleResizeStart`, and the clamped updates that `handleMouseMove`
  sends.
- `task_input.dfy` (module `TaskInput`): ECMAScript `trim`, the
  `selectedDate || null` rule, and the input form as a class with `Submit`
  and `TogglePriority`.

Values the program takes from the outside world are parameters:

- the uuid4 id of a new task is `freshId`, with the precondition that it is
  not already in the table;
- `datetime.utcnow()`, `Date.now()` and `new Date()` are integer timestamps;
- the random placement of a new card is the `x`, `y` arguments of `Submit`;
- the outcome of each HTTP request the client makes is an `Option` argument
  (`None` when the request failed).

Coordinates are `real`.

Functions that only compute and carry no contract of their own have rows
below that name the lemmas stating their contracts.

## Model

| member | source | states |
|---|---|---|
| `TaskModel.NewTask` | backend/server.py:30-49 | A created task has the generated id and the clock reading. Its width is 350, its height 200 and it is not completed, whatever the body says. Text and date are copied. x, y, priority and colour are copied when supplied and otherwise default to 100, 100, "LOW" and "red". |
| `TaskModel.CreateWithTextOnly` | backend/server.py:30-49 | A body with only `text` gives exactly the documented defaults. |
| `TaskModel.UpdateData` | backend/server.py:82-84 | The update dictionary holds no null and only schema-typed values. It never names id or created_at. It is empty exactly when every field of the update is None, so falsy values are kept. Each entry is the value the body supplied. |
| `TaskModel.RawValue` | backend/server.py:82 | The value `task_update.dict()` holds under each field: Null for None and for id and created_at, which an update body lacks. `UpdateDataKeepsSupplied` and `RawValueFits` state its contract: a field reaches the dictionary exactly when its value is not Null, and that value has the field's type. |
| `TaskModel.UpdateDataKeepsSupplied` | backend/server.py:51-60 | A field reaches the dictionary exactly when the body supplied a non-null value for it. |
| `TaskModel.ApplySetFieldwise` | backend/server.py:87-90 | `$set` overwrites exactly the fields named in the dictionary and leaves every other field unchanged, id and created_at included. |
| `TaskModel.ApplySet` | backend/server.py:87-90 | `{"$set": update_data}` on one document. `ApplySetFieldwise` states its contract: the named fields take the given values and every other field keeps its value. |
| `TaskModel.FieldsDetermineTask` | backend/server.py:30-41 | Two documents that agree on every field are equal. |
| `TaskModel.UpdateKeepsIdentity` | backend/server.py:82-90 | An update never changes id or created_at, and never clears a stored date. |
| `TaskModel.UpdateCanReopen` | backend/server.py:60-90 | `completed: false` is applied, so an update re-opens a completed task. |
| `TaskModel.RawValueFits` | backend/server.py:51-60 | Every value an update body supplies has the type its field has in the schema. |
| `TaskService.InsertionPoint` | backend/server.py:77 | The insertion point in a newest-first list: every entry before it is at least as new, and the entry at it is strictly older. |
| `TaskService.InsertNewest` | backend/server.py:77 | Insertion keeps a list newest first. It adds exactly the new task and keeps ids distinct when the new id is absent. |
| `TaskService.CompletedNeverListed` | backend/server.py:77 | A completed task never appears in a listing. |
| `TaskService.SmallTableListedInFull` | backend/server.py:77 | Below the cap, every open task appears in the listing. |
| `TaskService.TaskTable.constructor` | backend/server.py:17-20 | The collection starts empty and keyed by id. |
| `TaskService.TaskTable.Create` | backend/server.py:68-73 | Stores and returns `NewTask(body, freshId, now)` under `freshId`. Nothing else in the table changes. |
| `TaskService.TaskTable.List` | backend/server.py:75-78 | The result is a listing (`IsListing`): it contains only stored open tasks, each once, newest first, at most 1000 of them. An open task is left out only when the cap is reached and it is no newer than the last task listed. |
| `TaskService.TaskTable.Update` | backend/server.py:80-96 | An all-None update gives 400 with the table unchanged, whether or not the id exists. Otherwise an unknown id gives 404 with the table unchanged. Otherwise exactly the supplied fields are set, and the returned task equals the stored one. |
| `TaskService.TaskTable.Delete` | backend/server.py:98-105 | An unknown id gives 404 with no change. Otherwise the task is removed, the rest is unchanged and the message is "Task deleted successfully". |
| `TaskService.TaskTable.Complete` | backend/server.py:107-117 | An unknown id gives 404 with no change. Otherwise `completed` becomes true, nothing else changes, and the message is "Task completed successfully". |
| `TaskService.CompleteTwice` | backend/server.py:107-117 | Completing twice gives the same answer both times and the state of one call. |
| `TaskService.DeleteTwice` | backend/server.py:98-105 | A second delete of the same id gives 404. The table ends up without the id. |
| `TaskService.Lifecycle` | backend_test.py:220-288 | Create with text only gives priority "LOW". Complete answers "Task completed successfully", and the listing then excludes the task. The first delete succeeds and the second gives 404. Update, complete and delete on an id never issued all give 404. |
| `Board.TempTaskMatchesServer` | frontend/src/App.js:511-521 | The optimistic card equals the record the server creates from the same payload, apart from id and created_at. So it has width 350, height 200 and `completed == false`. |
| `Board.TempTask` | frontend/src/App.js:514-521 | The optimistic card: the payload with a temporary id, 350 by 200, not completed and timestamped now. `TempTaskMatchesServer` states its contract. |
| `Board.ReplaceById` | frontend/src/App.js:526-530 | Every entry with the temporary id becomes the server record, every other entry is kept, and the length is unchanged. |
| `Board.SettleReplacesTempInPlace` | frontend/src/App.js:522-530 | When the temporary id is new, settling gives the server record in front of the list as it was before the create. |
| `Board.SpreadMatchesServer` | frontend/src/App.js:540-546 | The client's `{...task, ...updates}` equals the server's null-dropping `$set` of the same update. |
| `Board.Spread` | frontend/src/App.js:541 | `{ ...task, ...updates }`. `SpreadMatchesServer` states its contract: it equals the server's `$set` of the same update. |
| `Board.UpdateInList` | frontend/src/App.js:540-542 | Length and order are kept. Entries with the id become the merge with `updates` winning. Every other entry is unchanged. |
| `Board.WithoutId` | frontend/src/App.js:555 | The result holds exactly the entries whose id differs. It is no longer than the input, and equals the input when no entry has the id. |
| `Board.WithoutIdConcat` | frontend/src/App.js:555 | The filter distributes over concatenation, so the kept entries stay in their original relative order. |
| `Board.FindIndex` | frontend/src/App.js:565 | The index is that of the first entry with the id, or the length when there is none. |
| `Board.BurstAt` | frontend/src/App.js:569-573 | The burst is at the card's centre, equidistant from opposite edges. |
| `Board.WithoutExplosion` | frontend/src/App.js:583-585 | Keeps exactly the bursts with another id. |
| `Board.WithoutExplosionConcat` | frontend/src/App.js:584 | The burst filter distributes over concatenation, so the kept bursts keep their order and number even when two share an id. |
| `Board.CompareAntisymmetric` | frontend/src/App.js:589-593 | Swapping the arguments of the comparator negates its result. |
| `Board.CompareTransitive` | frontend/src/App.js:589-593 | On LOW/HIGH priorities, the comparator is transitive. |
| `Board.CompareCycleOffEnumeration` | frontend/src/App.js:589-593 | With a third priority string, three tasks compare in a cycle. |
| `Board.Compare` | frontend/src/App.js:589-593 | The `importantTasks` comparator. `CompareAntisymmetric`, `CompareTransitive` and `RankOrder` state its contract: it is antisymmetric, transitive on LOW/HIGH, and puts HIGH before LOW and newer before older. |
| `Board.InsertRanked` | frontend/src/App.js:589 | Insertion adds exactly the new task (as a multiset). |
| `Board.InsertRankedSorted` | frontend/src/App.js:589-593 | On LOW/HIGH priorities, insertion keeps the list sorted by the comparator. |
| `Board.SortByRank` | frontend/src/App.js:588-593 | The sort gives a permutation of the list. It is ordered by `SortByRankSorted` and stable by `SortByRankStable`. |
| `Board.SortByRankSorted` | frontend/src/App.js:588-593 | On LOW/HIGH priorities, the sorted list is ordered by the comparator. |
| `Board.SortByRankStable` | frontend/src/App.js:588-595 | On LOW/HIGH priorities, cards that tie on priority and creation time keep their input order, as the stable `Array.prototype.sort` keeps them. So the top-three cut takes tied cards in list order. |
| `Board.RankOrder` | frontend/src/App.js:588-595 | Every HIGH card precedes every LOW card. Equal priorities go newest first. No card outside the top three ranks strictly above one inside it. |
| `Board.Ids` | frontend/src/App.js:595 | The ids of the list, position by position. |
| `Board.TopIds` | frontend/src/App.js:594-595 | At most three ids: those of the first `min(3, n)` ranked cards, in order. |
| `Board.Sharp` | frontend/src/App.js:612-619 | The sharp cards are exactly the cards that are not blurred. |
| `Board.IsBlurred` | frontend/src/App.js:619 | `focusMode && !importantTasks.includes(task.id)`. `Sharp`, `ChaosModeBlursNothing` and `AtMostThreeSharp` state its contract: no card is blurred outside focus mode, and in focus mode at most three cards (with distinct ids) are not. |
| `Board.ChaosModeBlursNothing` | frontend/src/App.js:619 | With focus mode off, no card is blurred. |
| `Board.SharpBound` | frontend/src/App.js:619 | With distinct ids, the number of sharp cards is at most the number of important ids that name a card. |
| `Board.FewerDistinctThanEntries` | frontend/src/App.js:594-595 | A list of ids has no more distinct ids than entries. |
| `Board.AtMostThreeSharp` | frontend/src/App.js:612-619 | In focus mode, with distinct ids, at most three cards are sharp. |
| `Board.App.constructor` | frontend/src/App.js:480-482 | The board starts with no tasks, no bursts and focus mode off. |
| `Board.App.LoadTasks` | frontend/src/App.js:485-492 | A successful fetch replaces the list. A failed one leaves it unchanged. |
| `Board.App.ToggleFocusMode` | frontend/src/App.js:500-504 | The space bar flips focus mode and nothing else. |
| `Board.App.BeginCreate` | frontend/src/App.js:514-522 | The temporary card (350 by 200, not completed) is put in front of the list. The old list is kept for the failure path. |
| `Board.App.SettleCreate` | frontend/src/App.js:525-535 | On success the temporary id is replaced by the server record. On failure the list before the create is restored. |
| `Board.App.CreateTask` | frontend/src/App.js:511-536 | Both halves together: success with a new temporary id gives the server record in front of the old list. Failure gives the old list. |
| `Board.App.UpdateTask` | frontend/src/App.js:538-551 | The list becomes `UpdateInList` of the old list. Focus mode and bursts are unchanged. |
| `Board.App.DeleteTask` | frontend/src/App.js:553-562 | The list becomes `WithoutId` of the old list. |
| `Board.App.CompleteTask` | frontend/src/App.js:564-581 | An id that is not on the board changes nothing. Otherwise exactly one burst is appended, at the centre of the first matching card, and every card with that id is removed. |
| `Board.App.RemoveExplosion` | frontend/src/App.js:583-585 | The burst with that id is dropped. Tasks are unchanged. |
| `Board.App.ImportantTasks` | frontend/src/App.js:587-595 | The state list is replaced by its ranked permutation. The result is the ids of its first three entries. |
| `Card.Max` | frontend/src/App.js:82-95 | `Math.max` returns one of its arguments, and that value is at least both. |
| `Card.DragTo` | frontend/src/App.js:82-90 | A drag sends only x and y. Both are at least 0. Each equals the pointer-derived value when that value is not negative. |
| `Card.ResizeTo` | frontend/src/App.js:92-96 | A resize sends only width and height. Width is at least 350 and height at least 200. Each follows the pointer when that keeps it above the minimum. |
| `Card.OnMouseMove` | frontend/src/App.js:80-98 | An update is sent exactly when dragging or resizing. A drag that is not a resize sends `DragTo`'s position, and a resize sends `ResizeTo`'s size. Every position sent is at least 0 and every size at least the minimum. It never touches text, priority, colour, date or completion. |
| `Card.GrabWithoutMoving` | frontend/src/App.js:41-61 | Pressing and moving zero distance neither moves nor resizes a card that is on screen and at least the minimum size. |
| `Card.GrabOffset` | frontend/src/App.js:45-48 | The pointer's offset from the card's corner. `GrabWithoutMoving` states its contract: a press and a move of zero distance leave an on-screen card where it is. |
| `Card.GrabSize` | frontend/src/App.js:55-60 | The pointer and the card's size at the start of a resize. `GrabWithoutMoving` states its contract: resizing from it without moving keeps the size. |
| `Card.MouseMoveKeepsClamps` | frontend/src/App.js:80-98 | After a mouse move goes through `updateTask`, a dragged card's x and y are the clamped pointer position, at least 0. A resized card's width and height are the clamped pointer size, at least 350 by 200. Nothing else on the card changes, and other cards are unchanged. |
| `TaskInput.LeadingSpaces` | frontend/src/App.js:315 | The count of leading white-space characters: all of them are white space, and the next one is not. |
| `TaskInput.TrailingSpaces` | frontend/src/App.js:315 | The same from the end of the string. |
| `TaskInput.IsSpace` | frontend/src/App.js:315 | The white space and line terminators ECMAScript `trim` strips. `LeadingSpaces`, `TrailingSpaces` and `Trim` state its role: `trim` cuts exactly these characters from both ends. |
| `TaskInput.Trim` | frontend/src/App.js:315-318 | The result is a contiguous piece of the text with only white space cut from both ends. It neither starts nor ends with white space. |
| `TaskInput.BlankIffAllSpace` | frontend/src/App.js:315 | The text trims to nothing exactly when it is all white space. |
| `TaskInput.TrimIdempotent` | frontend/src/App.js:318 | Trimming twice is the same as trimming once. |
| `TaskInput.DateOrNull` | frontend/src/App.js:321 | An empty date is sent as null. Any other date is sent unchanged. |
| `TaskInput.Toggled` | frontend/src/App.js:406 | The button gives HIGH exactly when the priority was LOW. It always gives LOW or HIGH. |
| `TaskInput.ToggleTwice` | frontend/src/App.js:406 | Toggling LOW or HIGH twice gives it back. |
| `TaskInput.TaskInputForm.constructor` | frontend/src/App.js:295-300 | The form starts with empty text, LOW priority, empty date, yellow colour and both pickers closed. |
| `TaskInput.TaskInputForm.CanSubmit` | frontend/src/App.js:465 | The submit button is enabled exactly when the text is not all white space. |
| `TaskInput.TaskInputForm.TogglePriority` | frontend/src/App.js:404-407 | Only the priority changes, and it stays LOW or HIGH. |
| `TaskInput.TaskInputForm.Submit` | frontend/src/App.js:313-330 | Blank text sends nothing and changes nothing. Otherwise the form sends the trimmed, non-empty text with priority, colour, the date (empty as null) and the placement. Text and date are then cleared and the pickers closed. Priority and colour are kept. |

## Left out

- MongoDB and motor, async/await, FastAPI routing, CORS, logging,
  environment loading and the shutdown hook (backend/server.py:1-27,
  119-138) are framework and I/O plumbing. The collection is a map.
- The GET `/api/` banner (backend/server.py:64-66) returns a constant and
  touches no state.
- Schema validation (the 422 answer for a body without `text` or with a
  wrong type) is done by the framework. The model's record types admit only
  well-typed bodies.
- uuid4 generation and `Date.now()` ids are not modelled. A new server id
  is assumed not to be in the table (the `freshId` precondition). Two
  documents sharing an `id` therefore cannot arise in the model, although
  the collection does not itself forbid it.
- Concurrency is not modelled. That covers the read that follows the write
  in `update_task`, and the interleaving of the client's awaits and stale
  closures. Each operation is atomic on the current state. `createTask` is
  split at its `await` into `BeginCreate` and `SettleCreate`.
- The client's background PUT, DELETE and POST calls are left out (their
  failures are only logged). So is the way the client's list and the
  server's table drift apart when one of those calls fails.
- Floating point is not modelled: coordinates are exact reals (no NaN,
  infinities or rounding). Random initial placement is a parameter. Particle
  angles, velocities and timers are not modelled.
- `created_at` is an integer. The server sends a timestamp without a time
  zone while the optimistic card carries an ISO string with `Z`, so a
  browser outside UTC may read the two in different zones. The model
  compares plain integers.
- Board.SortByRank: the order is proved only when every priority is LOW or
  HIGH. With any other priority string the comparator is not a consistent
  order (`CompareCycleOffEnumeration`). The order the browser's sort then
  gives is engine-defined, and the model's insertion sort need not match it.
- Board.AtMostThreeSharp: assumes the cards have distinct ids. Two cards
  with the same id would both be sharp when that id is among the top three.
- TaskInput.IsSpace: covers the white-space and line-terminator characters
  listed in its comment (the Unicode space separators as of the current
  standard). Later additions to Unicode are not tracked.
- React rendering, SVG icons, framer-motion animations, hover state and the
  document and keyboard listener wiring are not modelled. The text, date and
  colour setters of the input bar are plain assignments and are not modelled
  either. The components under `components/` and `priority-task-input.tsx`
  are hover-timer UI and are not part of this model.
