/** The Note record kept in the client's list, and the two list primitives the
    subscription handlers are built from: the id filter
    `notes.filter(note => note.id !== id)` and lodash's `_.findIndex(notes, {id})`.
 */
module NoteList {

  /** A note as delivered by the backend: an opaque id and the user's text. */
  datatype Note = Note(id: string, note: string)

  /** Some entry of `xs` carries `id`. */
  predicate HasId(xs: seq<Note>, id: string) {
    exists k :: 0 <= k < |xs| && xs[k].id == id
  }

  /** No two entries of `xs` share an id. */
  predicate UniqueIds(xs: seq<Note>) {
    forall i, j :: 0 <= i < j < |xs| ==> xs[i].id != xs[j].id
  }

  /** Number of entries of `xs` that carry `id`. */
  function CountId(xs: seq<Note>, id: string): (c: nat)
    ensures c <= |xs|
    ensures c == 0 <==> !HasId(xs, id)
  {
    if |xs| == 0 then 0
    else
      assert HasId(xs, id) <==> xs[0].id == id || HasId(xs[1..], id) by {
        HasIdCons(xs, id);
      }
      (if xs[0].id == id then 1 else 0) + CountId(xs[1..], id)
  }

  lemma HasIdCons(xs: seq<Note>, id: string)
    requires |xs| > 0
    ensures HasId(xs, id) <==> xs[0].id == id || HasId(xs[1..], id)
  {
  }

  /** The entries of `xs` whose id differs from `id`, in their original order
      (`Array.prototype.filter` with the predicate `note.id !== id`). */
  function WithoutId(xs: seq<Note>, id: string): (r: seq<Note>)
    ensures forall k :: 0 <= k < |r| ==> r[k].id != id
    ensures forall m :: m in r <==> m in xs && m.id != id
    ensures |r| + CountId(xs, id) == |xs|
    ensures !HasId(xs, id) ==> r == xs
  {
    if |xs| == 0 then []
    else
      HasIdCons(xs, id);
      assert xs == [xs[0]] + xs[1..];
      if xs[0].id != id then [xs[0]] + WithoutId(xs[1..], id)
      else WithoutId(xs[1..], id)
  }

  /** Filtering distributes over concatenation: the kept entries keep their
      relative order. Together with the one-element case below this pins the
      filter down completely. */
  lemma {:induction false} WithoutIdAppend(a: seq<Note>, b: seq<Note>, id: string)
    ensures WithoutId(a + b, id) == WithoutId(a, id) + WithoutId(b, id)
  {
    if |a| == 0 {
      assert a + b == b;
    } else {
      assert (a + b)[0] == a[0];
      assert (a + b)[1..] == a[1..] + b;
      WithoutIdAppend(a[1..], b, id);
      if a[0].id != id {
        calc {
          WithoutId(a + b, id);
          [a[0]] + WithoutId(a[1..] + b, id);
          [a[0]] + (WithoutId(a[1..], id) + WithoutId(b, id));
          ([a[0]] + WithoutId(a[1..], id)) + WithoutId(b, id);
        }
      }
    }
  }

  lemma WithoutIdSingle(m: Note, id: string)
    ensures WithoutId([m], id) == if m.id == id then [] else [m]
  {
  }

  /** Filtering twice by the same id is filtering once. */
  lemma WithoutIdIdempotent(xs: seq<Note>, id: string)
    ensures WithoutId(WithoutId(xs, id), id) == WithoutId(xs, id)
  {
  }

  /** Counting over a concatenation. */
  lemma {:induction false} CountIdAppend(a: seq<Note>, b: seq<Note>, id: string)
    ensures CountId(a + b, id) == CountId(a, id) + CountId(b, id)
  {
    if |a| == 0 {
      assert a + b == b;
    } else {
      assert (a + b)[0] == a[0];
      assert (a + b)[1..] == a[1..] + b;
      CountIdAppend(a[1..], b, id);
    }
  }

  /** Prepending a note whose id the list lacks keeps its ids distinct. */
  lemma UniqueCons(m: Note, rest: seq<Note>)
    requires UniqueIds(rest) && !HasId(rest, m.id)
    ensures UniqueIds([m] + rest)
  {
  }

  /** Filtering introduces no id that was not there. */
  lemma WithoutIdHasId(xs: seq<Note>, id: string, other: string)
    requires HasId(WithoutId(xs, id), other)
    ensures HasId(xs, other)
  {
  }

  /** Filtering keeps distinct ids distinct. */
  lemma {:induction false} WithoutIdUnique(xs: seq<Note>, id: string)
    requires UniqueIds(xs)
    ensures UniqueIds(WithoutId(xs, id))
  {
    if |xs| > 0 {
      var tail := xs[1..];
      assert UniqueIds(tail) by {
        forall i, j | 0 <= i < j < |tail| ensures tail[i].id != tail[j].id {
          assert tail[i] == xs[i + 1] && tail[j] == xs[j + 1];
        }
      }
      WithoutIdUnique(tail, id);
      if xs[0].id != id {
        forall k | 0 <= k < |tail| ensures tail[k].id != xs[0].id {
          assert tail[k] == xs[k + 1];
        }
        if HasId(WithoutId(tail, id), xs[0].id) {
          WithoutIdHasId(tail, id, xs[0].id);
          assert false;
        }
        UniqueCons(xs[0], WithoutId(tail, id));
      }
    }
  }

  /** lodash `_.findIndex(xs, {id})`: the index of the first entry carrying
      `id`, or -1 when there is none. */
  function FindIndex(xs: seq<Note>, id: string): (r: int)
    ensures -1 <= r < |xs|
    ensures r == -1 <==> !HasId(xs, id)
    ensures 0 <= r ==> xs[r].id == id
    ensures 0 <= r ==> forall j :: 0 <= j < r ==> xs[j].id != id
  {
    if |xs| == 0 then -1
    else if xs[0].id == id then 0
    else
      HasIdCons(xs, id);
      var k := FindIndex(xs[1..], id);
      if k == -1 then -1 else k + 1
  }
}
