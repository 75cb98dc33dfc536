# Notes view: list reconciliation and form state

A model of the logic inside the single React component of a small note-taking
client (`src/App.js`). The component keeps one state record
`{id, note, c01, notes}`: `notes` is the list of notes shown, `note` the text
in the input, `id` the id of the note being edited (empty in "new note" mode).
The list is loaded once and then kept up to date by three real-time
subscriptions (note created, deleted, updated); the form sends create, update
and delete mutations to a managed backend.

The model has five modules:

- `NoteList` (`note_list.dfy`): the `Note` record, the id filter
  `notes.filter(note => note.id !== id)` (`WithoutId`) and lodash's
  `_.findIndex(notes, {id})` (`FindIndex`, first matching index or -1).
- `JsArray` (`js_array.dfy`): `Array.prototype.slice` on integers as section
  23.1.3.28 of ECMAScript 2023 defines it, negative indices counting from the
  end and every index clamped into the array.
- `Reconcile` (`reconcile.dfy`): the three subscription handlers as pure
  functions from the previous list and the event's note to the next list.
- `Editor` (`editor.dfy`): the state record and the form transitions (load,
  type, select, submit, delete, button caption). A transition that calls the
  backend returns the `Request` it sends together with the state stored after
  the call succeeds.
- `Session` (`session.dfy`): a run of actions (load, form actions,
  subscription events) applied one after another. It shows that the list
  depends only on the load and the events.

The update handler is modelled as written: `_.findIndex` gives -1 for an id
the list does not hold. `slice(0, -1)` then drops the last entry and
`slice(0)` copies the whole list, so the result is
`notes[..|notes|-1] + [u] + notes`. That is `[u]` for an empty list and twice
the length otherwise, and from two entries on it holds duplicate ids. The
comment on the handler (src/App.js:53) describes it as swapping the note at
its previous index, which presumes the id is already in the list; for an
unknown id the code does something else, and the model follows the code
(`Reconcile.OnUpdate`, `Reconcile.OnUpdateUnknownGrows`,
`Reconcile.OnUpdateUnknownDuplicates`, `Session.ScenarioUnknownUpdate`).

## Model

| member | source | states |
|---|---|---|
| `NoteList.WithoutId` | src/App.js:43 | The filtered list holds no entry with the id. A note is in it exactly when it was in the input and has another id. Its length is the input's minus the number of matching entries. With no matching entry the list comes back unchanged. |
| `NoteList.WithoutIdAppend` | src/App.js:31 | Filtering a concatenation is concatenating the filtered parts, so kept entries keep their relative order. |
| `NoteList.WithoutIdUnique` | src/App.js:31 | Filtering a list whose ids are distinct leaves them distinct. |
| `NoteList.FindIndex` | src/App.js:54 | The result is -1 exactly when no entry has the id. Otherwise it is a valid index whose entry has the id, and no earlier entry has it. |
| `JsArray.Slice` | src/App.js:55 | `slice` never yields more entries than the array has. With 0 <= start <= end <= length it is the plain subrange. `slice(0, -k)` with 0 < k <= length drops the last k entries. When end <= start and either end >= 0 or start < 0, the result is empty. |
| `Reconcile.OnCreate` | src/App.js:31-32 | After a create the new note is the last entry and the only one with its id. The length is the old length minus the entries that had that id, plus one. A note is in the result exactly when it is the new note, or an old entry with a different id. |
| `Reconcile.OnCreateKeepsOthers` | src/App.js:31-32 | Removing the new note's id from the result gives the old list minus that id, so every other entry survives in its original order. |
| `Reconcile.OnCreateIdempotent` | src/App.js:31-32 | Applying the same create event twice gives the same list as applying it once. |
| `Reconcile.OnCreateUnique` | src/App.js:31-32 | A create keeps a list's ids distinct. |
| `Reconcile.OnDelete` | src/App.js:43 | After a delete no entry has the id. The other entries are kept and the length drops by the number of matches. If the id was absent the list is unchanged. |
| `Reconcile.OnDeleteKeepsOrder` | src/App.js:43 | A delete acts entry by entry: over a concatenation it deletes from each part, and a single entry is dropped exactly when it has the id. |
| `Reconcile.OnDeleteIdempotent` | src/App.js:43 | Applying the same delete twice gives the same list as applying it once. |
| `Reconcile.OnDeleteUnique` | src/App.js:43 | A delete keeps a list's ids distinct. |
| `Reconcile.OnUpdate` | src/App.js:54-55 | For a known id the length is kept, the first entry with the id becomes the new note, and every other position is unchanged. For an unknown id the result is `notes[..n-1] + [u] + notes` on a non-empty list and `[u]` on an empty one. |
| `Reconcile.OnUpdateReplacesFirst` | src/App.js:54-55 | If index i holds the first entry with the note's id, the update equals the list with index i replaced by the note. |
| `Reconcile.OnUpdateUnknownGrows` | src/App.js:54-55 | An update for an unknown id always changes the list. The result has length 1 for an empty list and twice the old length otherwise. |
| `Reconcile.OnUpdateUnknownDuplicates` | src/App.js:54-55 | An update for an unknown id makes a list of two or more entries hold a duplicate id. A one-entry list `[m]` becomes `[u, m]`. |
| `Reconcile.OnUpdateUnique` | src/App.js:54-55 | An update for a known id keeps a list's ids distinct. |
| `Reconcile.OnUpdateIdempotent` | src/App.js:54-55 | Applying the same update twice gives the same list as applying it once, whether the id was known or not. |
| `Editor.InitialIsEmpty` | src/App.js:11-16 | The view starts with empty `id`, `note` and `c01` and an empty list, so it is in "new note" mode and the button reads "Add Note". |
| `Editor.Label` | src/App.js:98 | The caption is "Update Note" exactly when the form is editing (non-empty `id`). It is "Add Note" exactly when it is not. |
| `Editor.FetchNotes` | src/App.js:18-21 | The initial load replaces the list with the fetched items and keeps the form fields. |
| `Editor.Type` | src/App.js:97 | Typing sets the draft text and keeps the mode, `c01` and the list. |
| `Editor.Select` | src/App.js:103 | Selecting an item copies its text and id into the form. The form is editing that id unless the id is empty. `c01` and the list are untouched. |
| `Editor.Submit` | src/App.js:68-83 | Submitting sends an update exactly when editing, carrying `id` and the draft; otherwise it sends a create carrying the draft. Either way the form ends with empty text in "new note" mode, and `c01` and the list are untouched. |
| `Editor.Delete` | src/App.js:86-91 | Deleting sends a delete for the given id and clears the draft text. It keeps the mode and so the caption: a form that was editing still reads "Update Note". The list is untouched. |
| `Editor.EditRoundTrip` | src/App.js:71-75 | Selecting a note with an id, typing text and submitting sends an update of that id with the typed text. The form returns to the starting state with empty `id` and `note`, and its caption reads "Add Note". |
| `Editor.CreateRoundTrip` | src/App.js:76-80 | In "new note" mode, typing then submitting sends a create with the typed text. The form is left with empty text, still in "new note" mode. |
| `Session.Run` | src/App.js:28-91 | A session applies the load, the form's `setState` calls and the subscription handlers one after another, each to the state the previous one left. A one-action run is that action's step, and a run sends at most one request per action. |
| `Session.RunAppend` | src/App.js:28-91 | Running one sequence of actions and then another from where the first left off equals running their concatenation: the requests are the first run's followed by the second's. |
| `Session.Step` | src/App.js:28-58 | A subscription event sends nothing and leaves the form fields alone. A form action other than the load leaves the list alone. Exactly submit and delete send one request each. |
| `Session.RunNotes` | src/App.js:82 | After any run the list is what the load and the subscription events alone make of it. In this sequential model the form's own actions never change the list (see the asynchronous-interleaving line under Left out), and created or updated notes arrive only through the subscriptions. |
| `Session.RunRequests` | src/App.js:68-91 | A run sends exactly one request per submit or delete action. |
| `Session.EventsKeepForm` | src/App.js:28-58 | A run made only of subscription events sends nothing and leaves `id`, `note` and `c01` as they were. |
| `Session.ScenarioKnownIds` | src/App.js:28-58 | Load [a, b], then receive a create of c, an update b' of b and a delete of a, all with distinct ids. The list ends as [b', c], with b' in b's old place. |
| `Session.ScenarioUnknownUpdate` | src/App.js:50-58 | Load [a, b], then receive an update x whose id neither holds. The list ends as [a, x, a, b]. |

## Left out

- The backend calls (`API.graphql` with the list query, the three mutations and the three subscription documents). The documents live in generated files that are not part of this model. A call is represented only by the `Request` value it would send, and the state is modelled only for the case where the call succeeds. A failed mutation leaves the state as it was, because the `setState` after the `await` never runs, and that path is not modelled.
- Acquiring the subscriptions in `useEffect` and releasing them with `unsubscribe`: this is resource lifecycle, not a state change.
- Asynchronous interleaving. `fetchNotes`, `handleSubmit` and `handleDelete` write `{...state, ...}` from the closure captured at render time. So they can overwrite a list that a subscription changed in the meantime. Each transition is modelled against the state it is given. In particular `fetchNotes` runs only from the mount effect (src/App.js:23-24, 66), so its `{...state}` is always the first render's state: a draft typed or a note selected while the load is in flight is reset to empty when the load lands. The model's load keeps whatever form fields the state it is given holds.
- `ev.preventDefault()`, JSX rendering, the `state.notes ? … : null` guard, CSS classes and `withAuthenticator`: these are presentation.
- lodash internals: `_.findIndex(xs, {id})` is modelled as the first index whose entry's id equals `id`, else -1.
- `JsArray.Slice`: only integer arguments are modelled. `ToIntegerOrInfinity`, which the algorithm applies to every argument, is the identity on the integer indices the handlers pass.
- The code has no transition that clears the selection on its own; in the sequential model the form returns to "new note" mode only through a successful update submit or by selecting an item whose id is empty (the load that lands after a selection, described above, is the asynchronous exception).
