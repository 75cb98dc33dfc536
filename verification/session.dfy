/** A session of the notes view as a sequence of actions: the initial load,
    the user's form actions, and the three subscription events. Every action
    is applied to the state the previous one produced; the requests the form
    sends are collected in order.
 */
module Session {
  import opened NoteList
  import opened Editor
  import Reconcile

  datatype Action =
    | Load(items: seq<Note>)
    | Input(text: string)
    | Pick(item: Note)
    | SubmitForm
    | RemoveNote(noteId: string)
    | Created(note: Note)
    | Deleted(note: Note)
    | Updated(note: Note)
  {
    /** Subscription events, as opposed to the load and the user's actions. */
    predicate IsEvent() {
      Created? || Deleted? || Updated?
    }
  }

  /** The requests an action sends and the state it leaves. */
  datatype Effect = Effect(sent: seq<Request>, next: State)

  function Step(s: State, a: Action): (e: Effect)
    ensures a.IsEvent() ==> e.sent == [] && SameForm(s, e.next)
    ensures !a.IsEvent() && !a.Load? ==> e.next.notes == s.notes
    ensures |e.sent| == if a.SubmitForm? || a.RemoveNote? then 1 else 0
  {
    match a
    case Load(items) => Effect([], FetchNotes(s, items))
    case Input(text) => Effect([], Type(s, text))
    case Pick(item) => Effect([], Select(s, item))
    case SubmitForm =>
      var r := Submit(s);
      Effect([r.request], r.next)
    case RemoveNote(noteId) =>
      var r := Delete(s, noteId);
      Effect([r.request], r.next)
    case Created(n) => Effect([], s.(notes := Reconcile.OnCreate(s.notes, n)))
    case Deleted(n) => Effect([], s.(notes := Reconcile.OnDelete(s.notes, n.id)))
    case Updated(n) => Effect([], s.(notes := Reconcile.OnUpdate(s.notes, n)))
  }

  /** The actions applied one after another, each to the state the previous
      one left, with the requests collected in order. */
  function Run(s: State, acts: seq<Action>): (e: Effect)
    ensures |e.sent| <= |acts|
    ensures |acts| == 1 ==> e == Step(s, acts[0])
    decreases |acts|
  {
    if |acts| == 0 then Effect([], s)
    else
      var first := Step(s, acts[0]);
      var rest := Run(first.next, acts[1..]);
      Effect(first.sent + rest.sent, rest.next)
  }

  /** Running `a` and then `b` from where `a` left off is running `a + b`. */
  lemma {:induction false} RunAppend(s: State, a: seq<Action>, b: seq<Action>)
    ensures Run(s, a + b)
              == Effect(Run(s, a).sent + Run(Run(s, a).next, b).sent, Run(Run(s, a).next, b).next)
    decreases |a|
  {
    if |a| == 0 {
      assert a + b == b;
    } else {
      assert (a + b)[0] == a[0];
      assert (a + b)[1..] == a[1..] + b;
      var first := Step(s, a[0]);
      RunAppend(first.next, a[1..], b);
    }
  }

  /** What one action does to the list when the form is ignored. */
  function NotesStep(notes: seq<Note>, a: Action): seq<Note> {
    match a
    case Load(items) => items
    case Created(n) => Reconcile.OnCreate(notes, n)
    case Deleted(n) => Reconcile.OnDelete(notes, n.id)
    case Updated(n) => Reconcile.OnUpdate(notes, n)
    case _ => notes
  }

  /** The list as determined by the load and the events alone. */
  function NotesAfter(notes: seq<Note>, acts: seq<Action>): seq<Note>
    decreases |acts|
  {
    if |acts| == 0 then notes
    else NotesAfter(NotesStep(notes, acts[0]), acts[1..])
  }

  /** Number of actions that send a request to the backend. */
  function RequestCount(acts: seq<Action>): nat
    decreases |acts|
  {
    if |acts| == 0 then 0
    else (if acts[0].SubmitForm? || acts[0].RemoveNote? then 1 else 0) + RequestCount(acts[1..])
  }

  /** In this sequential model the form's actions never change the list:
      after any run, the list is what the load and the subscription events
      made of it, whatever the user typed, selected, submitted or deleted in
      between. */
  lemma {:induction false} RunNotes(s: State, acts: seq<Action>)
    ensures Run(s, acts).next.notes == NotesAfter(s.notes, acts)
    decreases |acts|
  {
    if |acts| > 0 {
      RunNotes(Step(s, acts[0]).next, acts[1..]);
    }
  }

  /** Exactly one request per submit or delete, and none for anything else. */
  lemma {:induction false} RunRequests(s: State, acts: seq<Action>)
    ensures |Run(s, acts).sent| == RequestCount(acts)
    decreases |acts|
  {
    if |acts| > 0 {
      RunRequests(Step(s, acts[0]).next, acts[1..]);
    }
  }

  /** A run made only of subscription events leaves the form as it was. */
  lemma {:induction false} EventsKeepForm(s: State, acts: seq<Action>)
    requires forall k :: 0 <= k < |acts| ==> acts[k].IsEvent()
    ensures SameForm(s, Run(s, acts).next) && Run(s, acts).sent == []
    decreases |acts|
  {
    if |acts| > 0 {
      EventsKeepForm(Step(s, acts[0]).next, acts[1..]);
    }
  }

  /** One action at the head of a run. */
  lemma NotesAfterCons(notes: seq<Note>, a: Action, rest: seq<Action>)
    ensures NotesAfter(notes, [a] + rest) == NotesAfter(NotesStep(notes, a), rest)
  {
  }

  lemma CreateThird(a: Note, b: Note, c: Note)
    requires a.id != c.id && b.id != c.id
    ensures Reconcile.OnCreate([a, b], c) == [a, b, c]
  {
  }

  lemma UpdateSecond(a: Note, b: Note, c: Note, b': Note)
    requires a.id != b.id && b'.id == b.id
    ensures Reconcile.OnUpdate([a, b, c], b') == [a, b', c]
  {
    Reconcile.OnUpdateReplacesFirst([a, b, c], b', 1);
  }

  lemma DeleteFirst(a: Note, b': Note, c: Note)
    requires a.id != b'.id && a.id != c.id
    ensures Reconcile.OnDelete([a, b', c], a.id) == [b', c]
  {
  }

  /** The list side of the scenario below, one event at a time. */
  lemma KnownIdsList(a: Note, b: Note, c: Note, b': Note)
    requires a.id != b.id && a.id != c.id && b.id != c.id && b'.id == b.id
    ensures NotesAfter([], [Load([a, b]), Created(c), Updated(b'), Deleted(a)]) == [b', c]
  {
    CreateThird(a, b, c);
    UpdateSecond(a, b, c, b');
    DeleteFirst(a, b', c);
    var acts := [Load([a, b]), Created(c), Updated(b'), Deleted(a)];
    assert acts == [Load([a, b])] + ([Created(c)] + ([Updated(b')] + [Deleted(a)]));
    NotesAfterCons([], Load([a, b]), [Created(c)] + ([Updated(b')] + [Deleted(a)]));
    NotesAfterCons([a, b], Created(c), [Updated(b')] + [Deleted(a)]);
    NotesAfterCons([a, b, c], Updated(b'), [Deleted(a)]);
    NotesAfterCons([a, b', c], Deleted(a), []);
    assert [Deleted(a)] + [] == [Deleted(a)];
  }

  /** Load two notes, then receive a create of a third, an update of the
      second and a delete of the first: the updated note keeps its place. */
  lemma ScenarioKnownIds(a: Note, b: Note, c: Note, b': Note)
    requires a.id != b.id && a.id != c.id && b.id != c.id && b'.id == b.id
    ensures Run(Initial, [Load([a, b]), Created(c), Updated(b'), Deleted(a)]).next.notes == [b', c]
  {
    KnownIdsList(a, b, c, b');
    RunNotes(Initial, [Load([a, b]), Created(c), Updated(b'), Deleted(a)]);
  }

  /** The list side of the scenario below. */
  lemma UnknownUpdateList(a: Note, b: Note, x: Note)
    requires a.id != x.id && b.id != x.id
    ensures NotesAfter([], [Load([a, b]), Updated(x)]) == [a, x, a, b]
  {
    assert Reconcile.OnUpdate([a, b], x) == [a, x, a, b] by {
      assert !HasId([a, b], x.id) by {
        assert [a, b][0].id != x.id && [a, b][1].id != x.id;
      }
      assert [a, b][..1] == [a];
    }
    assert [Load([a, b]), Updated(x)] == [Load([a, b])] + [Updated(x)];
    NotesAfterCons([], Load([a, b]), [Updated(x)]);
    NotesAfterCons([a, b], Updated(x), []);
    assert [Updated(x)] + [] == [Updated(x)];
  }

  /** An update for a note the view never received, over a two-note list:
      the list becomes four entries long instead of staying as it was. */
  lemma ScenarioUnknownUpdate(a: Note, b: Note, x: Note)
    requires a.id != x.id && b.id != x.id
    ensures Run(Initial, [Load([a, b]), Updated(x)]).next.notes == [a, x, a, b]
  {
    UnknownUpdateList(a, b, x);
    RunNotes(Initial, [Load([a, b]), Updated(x)]);
  }
}
