/** The view's single state record `{id, note, c01, notes}` and the local
    transitions the form performs. A transition that talks to the backend
    returns the request it sends together with the state it stores once that
    request has succeeded; the backend itself is not modelled.
 */
module Editor {
  import opened NoteList

  /** `id` is the note being edited ('' in "new note" mode), `note` the text
      bound to the input, `c01` a field the view initialises and never reads,
      `notes` the list shown below the form. */
  datatype State = State(id: string, note: string, c01: string, notes: seq<Note>)

  /** The state the view starts from. */
  const Initial: State := State("", "", "", [])

  /** The view starts with an empty form in "new note" mode over an empty list. */
  lemma InitialIsEmpty()
    ensures Initial.id == "" && Initial.note == "" && Initial.c01 == ""
    ensures Initial.notes == []
    ensures ModeOf(Initial) == Creating && Label(Initial) == "Add Note"
  {
  }

  /** The mutations the form sends to the backend. */
  datatype Request =
    | CreateNote(note: string)
    | UpdateNote(id: string, note: string)
    | DeleteNote(id: string)

  /** A request together with the state stored after it succeeded. */
  datatype Sent = Sent(request: Request, next: State)

  /** The two form modes: a JavaScript string is truthy exactly when it is
      non-empty, so the form is editing whenever `id` is non-empty. */
  datatype Mode = Creating | Editing(id: string)

  function ModeOf(s: State): Mode {
    if s.id == "" then Creating else Editing(s.id)
  }

  /** The form fields (everything except the list) agree. */
  predicate SameForm(s: State, t: State) {
    s.id == t.id && s.note == t.note && s.c01 == t.c01
  }

  /** The submit button's caption. */
  function Label(s: State): (r: string)
    ensures r == "Update Note" <==> ModeOf(s).Editing?
    ensures r == "Add Note" <==> ModeOf(s) == Creating
  {
    if s.id != "" then "Update Note" else "Add Note"
  }

  /** Initial load: the fetched items replace the list; the form is kept. */
  function FetchNotes(s: State, items: seq<Note>): (r: State)
    ensures r.notes == items && SameForm(s, r)
  {
    s.(notes := items)
  }

  /** Typing into the input replaces the draft text and nothing else. */
  function Type(s: State, text: string): (r: State)
    ensures r.note == text
    ensures ModeOf(r) == ModeOf(s) && r.c01 == s.c01 && r.notes == s.notes
  {
    s.(note := text)
  }

  /** Clicking a list item copies its text and id into the form. */
  function Select(s: State, item: Note): (r: State)
    ensures r.note == item.note && r.id == item.id
    ensures ModeOf(r) == if item.id == "" then Creating else Editing(item.id)
    ensures r.c01 == s.c01 && r.notes == s.notes
  {
    s.(note := item.note, id := item.id)
  }

  /** Submitting the form: an update of `id` when editing, otherwise a
      create. Either way the form ends empty in "new note" mode and the list
      is untouched: the new or changed note only reaches the list through a
      subscription event. */
  function Submit(s: State): (r: Sent)
    ensures r.request.UpdateNote? <==> ModeOf(s).Editing?
    ensures ModeOf(s).Editing? ==> r.request == UpdateNote(s.id, s.note)
    ensures ModeOf(s) == Creating ==> r.request == CreateNote(s.note)
    ensures ModeOf(r.next) == Creating && r.next.note == ""
    ensures r.next.c01 == s.c01 && r.next.notes == s.notes
  {
    if s.id != "" then
      Sent(UpdateNote(s.id, s.note), s.(id := "", note := ""))
    else
      Sent(CreateNote(s.note), s.(note := ""))
  }

  /** Deleting a note: the draft text is cleared whichever note was deleted,
      but the mode is kept, so a form that was editing still says
      "Update Note" and still holds the id. */
  function Delete(s: State, noteId: string): (r: Sent)
    ensures r.request == DeleteNote(noteId)
    ensures r.next.note == ""
    ensures ModeOf(r.next) == ModeOf(s) && Label(r.next) == Label(s)
    ensures r.next.c01 == s.c01 && r.next.notes == s.notes
  {
    Sent(DeleteNote(noteId), s.(note := ""))
  }

  /** Editing round trip: select a note with an id, type new text, submit.
      The backend receives an update of that id with the typed text, and the
      form is back to its clean "new note" state over the same list. */
  lemma EditRoundTrip(s: State, item: Note, text: string)
    requires item.id != ""
    ensures Submit(Type(Select(s, item), text))
              == Sent(UpdateNote(item.id, text), s.(id := "", note := ""))
    ensures Label(Submit(Type(Select(s, item), text)).next) == "Add Note"
  {
  }

  /** Creating round trip: in "new note" mode, typing then submitting sends a
      create with the typed text and leaves the form empty, still creating. */
  lemma CreateRoundTrip(s: State, text: string)
    requires ModeOf(s) == Creating
    ensures Submit(Type(s, text)) == Sent(CreateNote(text), s.(note := ""))
  {
  }
}
