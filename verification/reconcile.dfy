/** The three real-time subscription handlers of the notes view. Each one maps
    the event's payload and the previous list of notes to the next list; the
    view stores the result in place of the old list.
 */
module Reconcile {
  import opened NoteList
  import JsArray

  /** onCreateNote: drop every entry with the new note's id, then append it. */
  function OnCreate(notes: seq<Note>, n: Note): (r: seq<Note>)
    ensures |r| > 0 && r[|r| - 1] == n
    ensures CountId(r, n.id) == 1
    ensures |r| == |notes| - CountId(notes, n.id) + 1
    ensures forall m :: m in r <==> m == n || (m in notes && m.id != n.id)
  {
    var kept := WithoutId(notes, n.id);
    CountIdAppend(kept, [n], n.id);
    assert CountId([n], n.id) == 1 by {
      assert [n][1..] == [];
    }
    kept + [n]
  }

  /** Every entry whose id differs from the new note's survives a create, in
      its original relative order. */
  lemma OnCreateKeepsOthers(notes: seq<Note>, n: Note)
    ensures WithoutId(OnCreate(notes, n), n.id) == WithoutId(notes, n.id)
  {
    var kept := WithoutId(notes, n.id);
    WithoutIdAppend(kept, [n], n.id);
    WithoutIdSingle(n, n.id);
    WithoutIdIdempotent(notes, n.id);
  }

  /** A create event delivered twice has the effect of delivering it once. */
  lemma OnCreateIdempotent(notes: seq<Note>, n: Note)
    ensures OnCreate(OnCreate(notes, n), n) == OnCreate(notes, n)
  {
    OnCreateKeepsOthers(notes, n);
  }

  /** A create keeps a list free of duplicate ids. */
  lemma OnCreateUnique(notes: seq<Note>, n: Note)
    requires UniqueIds(notes)
    ensures UniqueIds(OnCreate(notes, n))
  {
    var kept := WithoutId(notes, n.id);
    WithoutIdUnique(notes, n.id);
    var r := OnCreate(notes, n);
    forall i, j | 0 <= i < j < |r| ensures r[i].id != r[j].id {
      if j == |r| - 1 {
        assert r[i] == kept[i];
      } else {
        assert r[i] == kept[i] && r[j] == kept[j];
      }
    }
  }

  /** onDeleteNote: drop every entry with the deleted note's id. */
  function OnDelete(notes: seq<Note>, id: string): (r: seq<Note>)
    ensures !HasId(r, id)
    ensures forall m :: m in r <==> m in notes && m.id != id
    ensures |r| == |notes| - CountId(notes, id)
    ensures !HasId(notes, id) ==> r == notes
  {
    WithoutId(notes, id)
  }

  /** Deletion acts entry by entry: over a concatenation it deletes from each
      part, and a single entry is dropped exactly when it carries the id, so
      the surviving entries keep their order. */
  lemma OnDeleteKeepsOrder(a: seq<Note>, b: seq<Note>, id: string)
    ensures OnDelete(a + b, id) == OnDelete(a, id) + OnDelete(b, id)
    ensures forall m :: OnDelete([m], id) == if m.id == id then [] else [m]
  {
    WithoutIdAppend(a, b, id);
    forall m ensures OnDelete([m], id) == if m.id == id then [] else [m] {
      WithoutIdSingle(m, id);
    }
  }

  /** A delete event delivered twice has the effect of delivering it once. */
  lemma OnDeleteIdempotent(notes: seq<Note>, id: string)
    ensures OnDelete(OnDelete(notes, id), id) == OnDelete(notes, id)
  {
  }

  /** A delete keeps a list free of duplicate ids. */
  lemma OnDeleteUnique(notes: seq<Note>, id: string)
    requires UniqueIds(notes)
    ensures UniqueIds(OnDelete(notes, id))
  {
    WithoutIdUnique(notes, id);
  }

  /** onUpdateNote: take `_.findIndex` of the updated note's id and rebuild the
      list as `slice(0, index) ++ [note] ++ slice(index + 1)`. When the id is
      known, the first entry carrying it is replaced in place. When it is
      unknown, the index is -1, `slice(0, -1)` is everything but the last
      entry and `slice(0)` is the whole list. */
  function OnUpdate(notes: seq<Note>, u: Note): (r: seq<Note>)
    ensures HasId(notes, u.id) ==>
              var i := FindIndex(notes, u.id);
              && |r| == |notes|
              && r[i] == u
              && forall j :: 0 <= j < |notes| && j != i ==> r[j] == notes[j]
    ensures !HasId(notes, u.id) && |notes| > 0 ==> r == notes[..|notes| - 1] + [u] + notes
    ensures !HasId(notes, u.id) && |notes| == 0 ==> r == [u]
  {
    var index := FindIndex(notes, u.id);
    JsArray.Slice(notes, 0, index) + [u] + JsArray.Slice(notes, index + 1, |notes|)
  }

  /** The entry that gets replaced is the first one carrying the id. */
  lemma OnUpdateReplacesFirst(notes: seq<Note>, u: Note, i: nat)
    requires i < |notes| && notes[i].id == u.id
    requires forall j :: 0 <= j < i ==> notes[j].id != u.id
    ensures OnUpdate(notes, u) == notes[i := u]
  {
  }

  /** An update for an id the list does not hold does not leave the list
      unchanged: an empty list becomes `[u]`, any other list doubles in length. */
  lemma OnUpdateUnknownGrows(notes: seq<Note>, u: Note)
    requires !HasId(notes, u.id)
    ensures |OnUpdate(notes, u)| == if |notes| == 0 then 1 else 2 * |notes|
    ensures OnUpdate(notes, u) != notes
  {
  }

  /** From two entries on, that growth duplicates ids: the first entry comes
      back at position |notes|. A one-entry list becomes `[u, old]`. */
  lemma OnUpdateUnknownDuplicates(notes: seq<Note>, u: Note)
    requires !HasId(notes, u.id)
    ensures |notes| >= 2 ==> !UniqueIds(OnUpdate(notes, u))
    ensures |notes| == 1 ==> OnUpdate(notes, u) == [u, notes[0]]
  {
    var n := |notes|;
    if n >= 2 {
      var r := OnUpdate(notes, u);
      var front := notes[..n - 1];
      assert r == front + [u] + notes;
      assert r[0] == front[0] == notes[0];
      assert r[n] == notes[0];
      assert 0 < n < |r| && r[0].id == r[n].id;
    } else if n == 1 {
      assert notes[..0] == [];
      assert notes == [notes[0]];
    }
  }

  /** An update for a known id keeps a list free of duplicate ids. */
  lemma OnUpdateUnique(notes: seq<Note>, u: Note)
    requires UniqueIds(notes) && HasId(notes, u.id)
    ensures UniqueIds(OnUpdate(notes, u))
  {
  }

  /** Whatever the list, after one update the note is present with its id at
      the first matching position, so a redelivered update changes nothing. */
  lemma OnUpdateIdempotent(notes: seq<Note>, u: Note)
    ensures OnUpdate(OnUpdate(notes, u), u) == OnUpdate(notes, u)
  {
    var r := OnUpdate(notes, u);
    if HasId(notes, u.id) {
      var i := FindIndex(notes, u.id);
      OnUpdateReplacesFirst(r, u, i);
      assert r[i := u] == r;
    } else if |notes| == 0 {
      OnUpdateReplacesFirst(r, u, 0);
    } else {
      var i := |notes| - 1;
      assert r[i] == u;
      forall j | 0 <= j < i ensures r[j].id != u.id {
        assert r[j] == notes[j];
      }
      OnUpdateReplacesFirst(r, u, i);
      assert r[i := u] == r;
    }
  }
}
