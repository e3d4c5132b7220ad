/**
 * The note list the NoteStores keep: an ordered list of `{id, task}`
 * records. The functions here are the list operations the stores' handlers
 * perform, one per distinct way a version performs them, and the lemmas
 * relate the versions to each other and to the unique-id invariant.
 */
module NoteModel {
  import opened JsArray

  type NoteId = string

  /** A note. The empty id stands for a note without an id (`{task}` records and notes saved before ids existed). */
  datatype Note = Note(id: NoteId, task: string)

  /** The argument of a merging `update`: the id to match and, when present, the new task. */
  datatype NotePatch = NotePatch(id: NoteId, task: Option<string>)

  /**
   * What `init` receives from storage: nothing (a falsy value), a record whose
   * `notes` field is not an array, or a record holding a list of notes.
   */
  datatype StoredData = Absent | NotesNotArray | Stored(notes: seq<Note>)

  /**
   * The argument of `remove` in 10_polishing_kanban: a position, or an object
   * pattern that lodash's `findIndex` matches against the notes (a field
   * present in the pattern must be equal in the note).
   */
  datatype RemoveArg = Position(index: int) | Pattern(id: Option<NoteId>, task: Option<string>)

  // ---------------------------------------------------------------------
  // Searching

  /** `notes.findIndex(note => note.id === id)`: the first note with the id, or -1. */
  function NoteIndex(notes: seq<Note>, id: NoteId): (r: int)
    ensures -1 <= r < |notes|
    ensures r == -1 ==> forall k :: 0 <= k < |notes| ==> notes[k].id != id
    ensures 0 <= r ==> notes[r].id == id && forall k :: 0 <= k < r ==> notes[k].id != id
  {
    if notes == [] then -1
    else if notes[0].id == id then 0
    else
      var k := NoteIndex(notes[1..], id);
      if k == -1 then -1 else k + 1
  }

  /** `notes.filter(note => note.id === id)`. */
  function WithId(notes: seq<Note>, id: NoteId): (r: seq<Note>)
    ensures |r| <= |notes|
    ensures forall k :: 0 <= k < |r| ==> r[k].id == id && r[k] in notes
  {
    if notes == [] then []
    else
      var rest := WithId(notes[1..], id);
      assert forall k :: 0 <= k < |rest| ==> rest[k] in notes by {
        forall k | 0 <= k < |rest| ensures rest[k] in notes {
          assert rest[k] in notes[1..];
        }
      }
      (if notes[0].id == id then [notes[0]] else []) + rest
  }

  /** The filter is empty exactly when the search fails, and otherwise starts with the note the search finds. */
  lemma {:induction false} WithIdFirst(notes: seq<Note>, id: NoteId)
    ensures WithId(notes, id) == [] <==> NoteIndex(notes, id) == -1
    ensures WithId(notes, id) != [] ==> WithId(notes, id)[0] == notes[NoteIndex(notes, id)]
  {
    if notes != [] && notes[0].id != id {
      WithIdFirst(notes[1..], id);
    }
  }

  /**
   * The `findIndex(arr, 'id', value)` helper of 10_linting_in_webpack:
   * `o && arr.indexOf(o)` for `o` the first note with the id. It answers
   * `undefined` (None), not -1, when no note has the id.
   */
  function FindIndexOpt(notes: seq<Note>, id: NoteId): (r: Option<nat>)
    ensures r.None? <==> forall k :: 0 <= k < |notes| ==> notes[k].id != id
    ensures r.Some? ==> (r.value < |notes| && notes[r.value].id == id &&
      forall k :: 0 <= k < r.value ==> notes[k].id != id)
  {
    var o := WithId(notes, id);
    WithIdFirst(notes, id);
    if o == [] then None
    else
      var i := NoteIndex(notes, id);
      IndexOfAtMost(notes, o[0], i);
      var j := IndexOf(notes, o[0]);
      assert notes[j].id == id;
      Some(j)
  }

  /** `notes.filter(note => note.id === id)[0]`: the first note with the id, or `undefined`. */
  function Lookup(notes: seq<Note>, id: NoteId): (r: Option<Note>)
    ensures r.None? ==> forall k :: 0 <= k < |notes| ==> notes[k].id != id
    ensures r.Some? ==> r.value.id == id && r.value in notes
  {
    var m := WithId(notes, id);
    WithIdFirst(notes, id);
    if m == [] then None else Some(m[0])
  }

  /** `notes[findIndex(...)]`, with `notes[-1]` being `undefined`, answers what the filter answers. */
  lemma {:induction false} LookupByPosition(notes: seq<Note>, id: NoteId)
    ensures var i := NoteIndex(notes, id);
      Lookup(notes, id) == if i < 0 then None else Some(notes[i])
  {
    WithIdFirst(notes, id);
  }

  /** lodash's `findIndex(notes, pattern)`: the first note with every field of the pattern, or -1. */
  function Matches(note: Note, id: Option<NoteId>, task: Option<string>): bool
  {
    (id.None? || note.id == id.value) && (task.None? || note.task == task.value)
  }

  function PatternIndex(notes: seq<Note>, id: Option<NoteId>, task: Option<string>): (r: int)
    ensures -1 <= r < |notes|
    ensures r == -1 ==> forall k :: 0 <= k < |notes| ==> !Matches(notes[k], id, task)
    ensures 0 <= r ==> Matches(notes[r], id, task) && forall k :: 0 <= k < r ==> !Matches(notes[k], id, task)
  {
    if notes == [] then -1
    else if Matches(notes[0], id, task) then 0
    else
      var k := PatternIndex(notes[1..], id, task);
      if k == -1 then -1 else k + 1
  }

  /** A pattern naming only an id finds what the id search finds. */
  lemma {:induction false} PatternByIdIsNoteIndex(notes: seq<Note>, id: NoteId)
    ensures PatternIndex(notes, Some(id), None) == NoteIndex(notes, id)
  {
    if notes != [] && notes[0].id != id {
      PatternByIdIsNoteIndex(notes[1..], id);
    }
  }

  // ---------------------------------------------------------------------
  // The unique-id invariant

  /** The ids of the notes, with multiplicity. */
  function IdBag(notes: seq<Note>): multiset<NoteId>
  {
    if notes == [] then multiset{} else multiset{notes[0].id} + IdBag(notes[1..])
  }

  /** No two notes share an id. */
  ghost predicate UniqueNoteIds(notes: seq<Note>)
  {
    forall id :: IdBag(notes)[id] <= 1
  }

  lemma {:induction false} IdBagConcat(a: seq<Note>, b: seq<Note>)
    ensures IdBag(a + b) == IdBag(a) + IdBag(b)
  {
    if a == [] {
      assert a + b == b;
    } else {
      assert (a + b)[0] == a[0];
      assert (a + b)[1..] == a[1..] + b;
      IdBagConcat(a[1..], b);
    }
  }

  lemma {:induction false} IdBagOne(n: Note)
    ensures IdBag([n]) == multiset{n.id}
  {
    assert [n][1..] == [];
  }

  /** An id is in the bag exactly when some note carries it. */
  lemma {:induction false} IdBagHas(notes: seq<Note>, id: NoteId)
    ensures IdBag(notes)[id] > 0 <==> NoteIndex(notes, id) >= 0
  {
    if notes != [] {
      IdBagHas(notes[1..], id);
    }
  }

  /** Dropping position `i` drops exactly its id. */
  lemma {:induction false} IdBagDrop(notes: seq<Note>, i: int)
    requires 0 <= i < |notes|
    ensures IdBag(notes[..i] + notes[i + 1..]) + multiset{notes[i].id} == IdBag(notes)
  {
    assert notes == notes[..i] + [notes[i]] + notes[i + 1..];
    IdBagConcat(notes[..i] + [notes[i]], notes[i + 1..]);
    IdBagConcat(notes[..i], [notes[i]]);
    IdBagConcat(notes[..i], notes[i + 1..]);
    IdBagOne(notes[i]);
  }

  /** Inserting `x` at position `j` adds exactly its id. */
  lemma {:induction false} IdBagInsert(notes: seq<Note>, j: int, x: Note)
    requires 0 <= j <= |notes|
    ensures IdBag(notes[..j] + [x] + notes[j..]) == IdBag(notes) + multiset{x.id}
  {
    assert notes == notes[..j] + notes[j..];
    IdBagConcat(notes[..j] + [x], notes[j..]);
    IdBagConcat(notes[..j], [x]);
    IdBagConcat(notes[..j], notes[j..]);
    IdBagOne(x);
  }

  /** A list whose bag is at most that of a list with unique ids has unique ids. */
  lemma {:induction false} SmallerBagUnique(a: seq<Note>, b: seq<Note>)
    requires IdBag(a) <= IdBag(b) && UniqueNoteIds(b)
    ensures UniqueNoteIds(a)
  {
    forall id ensures IdBag(a)[id] <= 1 {
      assert IdBag(a)[id] <= IdBag(b)[id];
    }
  }

  /** Appending a note whose id no note carries keeps the ids unique. */
  lemma {:induction false} AppendKeepsUnique(notes: seq<Note>, x: Note)
    requires UniqueNoteIds(notes) && NoteIndex(notes, x.id) == -1
    ensures UniqueNoteIds(notes + [x])
  {
    IdBagConcat(notes, [x]);
    IdBagOne(x);
    IdBagHas(notes, x.id);
    forall id ensures IdBag(notes + [x])[id] <= 1 {
      assert IdBag(notes + [x])[id] == IdBag(notes)[id] + multiset{x.id}[id];
    }
  }

  // ---------------------------------------------------------------------
  // update

  /** `Object.assign({}, note, patch)` */
  function Merge(note: Note, patch: NotePatch): Note
  {
    Note(patch.id, if patch.task.Some? then patch.task.value else note.task)
  }

  /** `notes.map(note => note.id === patch.id ? Object.assign({}, note, patch) : note)` */
  function UpdateMerged(notes: seq<Note>, patch: NotePatch): (r: seq<Note>)
    ensures |r| == |notes|
  {
    seq(|notes|, k requires 0 <= k < |notes| => if notes[k].id == patch.id then Merge(notes[k], patch) else notes[k])
  }

  /**
   * What the merge does, note by note: ids never change, notes with another
   * id are untouched, and every note with the id takes the patch's task when
   * the patch has one.
   */
  lemma {:induction false} UpdateMergedEffect(notes: seq<Note>, patch: NotePatch)
    ensures var r := UpdateMerged(notes, patch);
      forall k :: 0 <= k < |notes| ==>
        r[k].id == notes[k].id &&
        (notes[k].id != patch.id ==> r[k] == notes[k]) &&
        (notes[k].id == patch.id && patch.task.Some? ==> r[k].task == patch.task.value) &&
        (patch.task.None? ==> r[k] == notes[k])
  {
  }

  /** Merging keeps the list of ids, hence the unique-id invariant. */
  lemma {:induction false} UpdateMergedKeepsIds(notes: seq<Note>, patch: NotePatch)
    ensures IdBag(UpdateMerged(notes, patch)) == IdBag(notes)
  {
    if notes != [] {
      var r := UpdateMerged(notes, patch);
      UpdateMergedKeepsIds(notes[1..], patch);
      assert r[1..] == UpdateMerged(notes[1..], patch);
    }
  }

  /** Merging the same patch twice is merging it once. */
  lemma {:induction false} UpdateMergedIdempotent(notes: seq<Note>, patch: NotePatch)
    ensures UpdateMerged(UpdateMerged(notes, patch), patch) == UpdateMerged(notes, patch)
  {
  }

  /** `findIndex` by id, then `notes[i].task = task`; a failed search is skipped. */
  function SetTaskFound(notes: seq<Note>, id: NoteId, task: string): (r: seq<Note>)
    ensures NoteIndex(notes, id) == -1 ==> r == notes
    ensures var i := NoteIndex(notes, id);
      0 <= i ==> r == notes[i := Note(id, task)]
  {
    var i := NoteIndex(notes, id);
    if i < 0 then notes else notes[i := notes[i].(task := task)]
  }

  /** Setting a task keeps the ids. */
  lemma {:induction false} SetTaskKeepsIds(notes: seq<Note>, i: int, task: string)
    requires 0 <= i < |notes|
    ensures IdBag(notes[i := notes[i].(task := task)]) == IdBag(notes)
  {
    var r := notes[i := notes[i].(task := task)];
    IdBagDrop(notes, i);
    IdBagDrop(r, i);
    assert r[..i] + r[i + 1..] == notes[..i] + notes[i + 1..];
  }

  /** With unique ids, setting the found note's task is the merge of a patch carrying the task. */
  lemma {:induction false} SetTaskFoundIsMerge(notes: seq<Note>, id: NoteId, task: string)
    requires UniqueNoteIds(notes)
    ensures SetTaskFound(notes, id, task) == UpdateMerged(notes, NotePatch(id, Some(task)))
  {
    var i := NoteIndex(notes, id);
    var r, m := SetTaskFound(notes, id, task), UpdateMerged(notes, NotePatch(id, Some(task)));
    forall k | 0 <= k < |notes| ensures r[k] == m[k] {
      if notes[k].id == id && k != i {
        assert 0 <= i;
        OtherIdTwice(notes, i, k);
      }
    }
  }

  /** Two different positions carrying the same id break the invariant. */
  lemma {:induction false} OtherIdTwice(notes: seq<Note>, i: int, k: int)
    requires 0 <= i < |notes| && 0 <= k < |notes| && i != k && notes[i].id == notes[k].id
    ensures !UniqueNoteIds(notes)
  {
    var lo, hi := if i < k then i else k, if i < k then k else i;
    IdBagDrop(notes, lo);
    var rest := notes[..lo] + notes[lo + 1..];
    assert rest[hi - 1] == notes[hi];
    IdBagHas(rest, notes[hi].id);
    assert IdBag(notes)[notes[i].id] >= 2;
  }

  // ---------------------------------------------------------------------
  // delete

  /** `notes.filter(note => note.id !== id)` */
  function DeleteAll(notes: seq<Note>, id: NoteId): (r: seq<Note>)
    ensures |r| <= |notes|
    ensures forall k :: 0 <= k < |r| ==> r[k].id != id
  {
    if notes == [] then []
    else (if notes[0].id == id then [] else [notes[0]]) + DeleteAll(notes[1..], id)
  }

  /** The filter drops exactly the id: every other id keeps its count. */
  lemma {:induction false} DeleteAllIds(notes: seq<Note>, id: NoteId)
    ensures IdBag(DeleteAll(notes, id)) == IdBag(notes)[id := 0]
  {
    if notes != [] {
      var rest := DeleteAll(notes[1..], id);
      DeleteAllIds(notes[1..], id);
      assert IdBag(notes) == multiset{notes[0].id} + IdBag(notes[1..]);
      if notes[0].id != id {
        assert DeleteAll(notes, id) == [notes[0]] + rest;
        IdBagConcat([notes[0]], rest);
        IdBagOne(notes[0]);
      } else {
        assert DeleteAll(notes, id) == rest;
      }
    }
  }

  /** Filtering out an id no note carries changes nothing. */
  lemma {:induction false} DeleteAllUnknown(notes: seq<Note>, id: NoteId)
    requires NoteIndex(notes, id) == -1
    ensures DeleteAll(notes, id) == notes
  {
    if notes != [] {
      DeleteAllUnknown(notes[1..], id);
      assert notes == [notes[0]] + notes[1..];
    }
  }

  /** `findIndex` by id, then `notes.slice(0, i).concat(notes.slice(i + 1))`; a failed search is skipped. */
  function DeleteFound(notes: seq<Note>, id: NoteId): (r: seq<Note>)
    ensures NoteIndex(notes, id) == -1 ==> r == notes
    ensures var i := NoteIndex(notes, id);
      0 <= i ==> r == notes[..i] + notes[i + 1..] && |r| == |notes| - 1
  {
    var i := NoteIndex(notes, id);
    if i < 0 then notes else SliceOut(notes, i)
  }

  /** The filter works on each part of a concatenation separately. */
  lemma {:induction false} DeleteAllConcat(a: seq<Note>, b: seq<Note>, id: NoteId)
    ensures DeleteAll(a + b, id) == DeleteAll(a, id) + DeleteAll(b, id)
  {
    if a == [] {
      assert a + b == b;
    } else {
      assert (a + b)[0] == a[0];
      assert (a + b)[1..] == a[1..] + b;
      DeleteAllConcat(a[1..], b, id);
    }
  }

  /** With unique ids, cutting out the found note is the filter. */
  lemma DeleteFoundIsDeleteAll(notes: seq<Note>, id: NoteId)
    requires UniqueNoteIds(notes)
    ensures DeleteFound(notes, id) == DeleteAll(notes, id)
  {
    var i := NoteIndex(notes, id);
    if i < 0 {
      DeleteAllUnknown(notes, id);
    } else {
      NoIdIsNoIndex(notes[..i], id);
      NoIdAfterFound(notes, id);
      DeleteAllAround(notes, i, id);
    }
  }

  /** With unique ids no note after the found one carries its id. */
  lemma NoIdAfterFound(notes: seq<Note>, id: NoteId)
    requires UniqueNoteIds(notes) && 0 <= NoteIndex(notes, id)
    ensures NoteIndex(notes[NoteIndex(notes, id) + 1..], id) == -1
  {
    var i := NoteIndex(notes, id);
    var after := notes[i + 1..];
    forall k | 0 <= k < |after| ensures after[k].id != id {
      if after[k].id == id {
        OtherIdTwice(notes, i, i + 1 + k);
      }
    }
    NoIdIsNoIndex(after, id);
  }

  /** The filter of a list with the id at `i` only is the list without position `i`. */
  lemma DeleteAllAround(notes: seq<Note>, i: int, id: NoteId)
    requires 0 <= i < |notes| && notes[i].id == id
    requires NoteIndex(notes[..i], id) == -1 && NoteIndex(notes[i + 1..], id) == -1
    ensures DeleteAll(notes, id) == notes[..i] + notes[i + 1..]
  {
    var before, after := notes[..i], notes[i + 1..];
    calc {
      DeleteAll(notes, id);
      { assert notes == before + [notes[i]] + after; }
      DeleteAll(before + [notes[i]] + after, id);
      { DeleteAllConcat(before + [notes[i]], after, id); }
      DeleteAll(before + [notes[i]], id) + DeleteAll(after, id);
      { DeleteAllConcat(before, [notes[i]], id); }
      DeleteAll(before, id) + DeleteAll([notes[i]], id) + DeleteAll(after, id);
      { DeleteAllUnknown(before, id); DeleteAllUnknown(after, id); assert DeleteAll([notes[i]], id) == []; }
      before + [] + after;
      { assert before + [] == before; }
      before + after;
    }
  }

  lemma {:induction false} NoIdIsNoIndex(notes: seq<Note>, id: NoteId)
    requires forall k :: 0 <= k < |notes| ==> notes[k].id != id
    ensures NoteIndex(notes, id) == -1
  {
    if notes != [] {
      NoIdIsNoIndex(notes[1..], id);
    }
  }

  /**
   * `findIndex` by id, then `notes.slice(0, i).concat(notes.slice(i + 1))`
   * without checking the search: an unknown id gives -1, and the list
   * becomes every note but the last followed by all notes again.
   */
  function DeleteSliced(notes: seq<Note>, id: NoteId): (r: seq<Note>)
    ensures 0 <= NoteIndex(notes, id) ==> r == DeleteFound(notes, id)
    ensures NoteIndex(notes, id) == -1 && notes != [] ==> r == notes[..|notes| - 1] + notes
  {
    SliceOut(notes, NoteIndex(notes, id))
  }

  /**
   * Deleting an unknown id from two or more notes glues the whole list
   * behind all but its last note, so the first note is listed twice.
   */
  lemma DeleteSlicedDuplicates(notes: seq<Note>, id: NoteId)
    requires NoteIndex(notes, id) == -1 && |notes| >= 2
    ensures var r := DeleteSliced(notes, id);
      |r| == 2 * |notes| - 1 && r[0] == r[|notes| - 1] == notes[0] && !UniqueNoteIds(r)
  {
    var r := DeleteSliced(notes, id);
    assert r[0] == notes[0];
    assert r[|notes| - 1] == notes[0];
    OtherIdTwice(r, 0, |notes| - 1);
  }

  /** Cutting out the found note keeps the ids unique. */
  lemma {:induction false} DeleteFoundKeepsUnique(notes: seq<Note>, id: NoteId)
    requires UniqueNoteIds(notes)
    ensures UniqueNoteIds(DeleteFound(notes, id))
  {
    var i := NoteIndex(notes, id);
    if i >= 0 {
      IdBagDrop(notes, i);
      SmallerBagUnique(DeleteFound(notes, id), notes);
    }
  }

  /** The filter keeps the ids unique. */
  lemma {:induction false} DeleteAllKeepsUnique(notes: seq<Note>, id: NoteId)
    requires UniqueNoteIds(notes)
    ensures UniqueNoteIds(DeleteAll(notes, id))
  {
    DeleteAllIds(notes, id);
    SmallerBagUnique(DeleteAll(notes, id), notes);
  }

  // ---------------------------------------------------------------------
  // get

  /** `ids.map(id => notes.filter(note => note.id === id)).filter(a => a).map(a => a[0])`: one entry per id. */
  function GetEach(notes: seq<Note>, ids: seq<NoteId>): (r: seq<Option<Note>>)
    ensures |r| == |ids|
    ensures forall k :: 0 <= k < |ids| ==> r[k] == Lookup(notes, ids[k])
  {
    if ids == [] then [] else [Lookup(notes, ids[0])] + GetEach(notes, ids[1..])
  }

  /** `ids.map(id => notes[findIndex(id)])`, where `notes[-1]` is `undefined`. */
  function GetByPosition(notes: seq<Note>, ids: seq<NoteId>): (r: seq<Option<Note>>)
    ensures |r| == |ids|
  {
    if ids == [] then []
    else
      var i := NoteIndex(notes, ids[0]);
      [if i < 0 then None else Some(notes[i])] + GetByPosition(notes, ids[1..])
  }

  /** The filter-based and the position-based lookups answer the same. */
  lemma {:induction false} GetByPositionIsGetEach(notes: seq<Note>, ids: seq<NoteId>)
    ensures GetByPosition(notes, ids) == GetEach(notes, ids)
  {
    if ids != [] {
      LookupByPosition(notes, ids[0]);
      GetByPositionIsGetEach(notes, ids[1..]);
    }
  }

  /** `ids.map(id => notes.filter(note => note.id === id)).filter(a => a.length).map(a => a[0])`: the known ids only. */
  function KnownNotes(notes: seq<Note>, ids: seq<NoteId>): (r: seq<Note>)
    ensures |r| <= |ids|
  {
    if ids == [] then []
    else
      var m := WithId(notes, ids[0]);
      (if m == [] then [] else [m[0]]) + KnownNotes(notes, ids[1..])
  }

  /** Every note KnownNotes answers carries one of the ids and comes from the store. */
  lemma {:induction false} KnownNotesSound(notes: seq<Note>, ids: seq<NoteId>)
    ensures forall k :: 0 <= k < |KnownNotes(notes, ids)| ==>
      KnownNotes(notes, ids)[k].id in ids && KnownNotes(notes, ids)[k] in notes
  {
    if ids != [] {
      var m := WithId(notes, ids[0]);
      var rest := KnownNotes(notes, ids[1..]);
      KnownNotesSound(notes, ids[1..]);
      var r := KnownNotes(notes, ids);
      assert r == (if m == [] then [] else [m[0]]) + rest;
      forall k | 0 <= k < |r| ensures r[k].id in ids && r[k] in notes {
        if m != [] && k == 0 {
          assert r[0] == m[0];
        } else {
          var j := if m == [] then k else k - 1;
          assert r[k] == rest[j];
          assert rest[j].id in ids[1..] && rest[j] in notes;
          assert ids[1..][IndexOf(ids[1..], rest[j].id)] == ids[IndexOf(ids[1..], rest[j].id) + 1];
        }
      }
    }
  }

  /** The entries of a lookup that found something, in order. */
  function Found(r: seq<Option<Note>>): seq<Note>
  {
    if r == [] then [] else (if r[0].Some? then [r[0].value] else []) + Found(r[1..])
  }

  /** Dropping the unknown ids is the one-entry-per-id lookup with its `undefined` entries removed. */
  lemma {:induction false} KnownNotesAreFound(notes: seq<Note>, ids: seq<NoteId>)
    ensures KnownNotes(notes, ids) == Found(GetEach(notes, ids))
  {
    if ids != [] {
      KnownNotesAreFound(notes, ids[1..]);
      assert GetEach(notes, ids)[1..] == GetEach(notes, ids[1..]);
    }
  }

  /** A known first id contributes the note it names, in front of the rest. */
  lemma KnownNotesCons(notes: seq<Note>, ids: seq<NoteId>)
    requires ids != [] && NoteIndex(notes, ids[0]) >= 0
    ensures KnownNotes(notes, ids) == [notes[NoteIndex(notes, ids[0])]] + KnownNotes(notes, ids[1..])
  {
    WithIdFirst(notes, ids[0]);
  }

  /** When every id is known, nothing is dropped: one note per id, in the order of the ids. */
  lemma {:induction false} KnownNotesAllKnown(notes: seq<Note>, ids: seq<NoteId>)
    requires forall k :: 0 <= k < |ids| ==> NoteIndex(notes, ids[k]) >= 0
    ensures var r := KnownNotes(notes, ids);
      |r| == |ids| && forall k :: 0 <= k < |ids| ==> r[k].id == ids[k]
  {
    if ids != [] {
      KnownNotesCons(notes, ids);
      KnownNotesAllKnown(notes, ids[1..]);
    }
  }

  // ---------------------------------------------------------------------
  // move

  /**
   * The `move` of 10_implementing_dnd and 10_linting_in_webpack: with both
   * notes found, `$splice: [[sourceIndex, 1], [targetIndex, 0, source]]`;
   * with only the target found, the source is inserted at its position; with
   * only the source found, it is removed; otherwise nothing happens.
   */
  function MoveNote(notes: seq<Note>, source: Note, targetId: NoteId): (r: seq<Note>)
  {
    var si, ti := NoteIndex(notes, source.id), NoteIndex(notes, targetId);
    if si >= 0 && ti >= 0 then SpliceAll(notes, [SpliceArgs(si, 1, []), SpliceArgs(ti, 0, [source])])
    else if ti >= 0 then SpliceAll(notes, [SpliceArgs(ti, 0, [source])])
    else if si >= 0 then SliceOut(notes, si)
    else notes
  }

  lemma {:induction false} SpliceOne<T>(s: seq<T>, a: SpliceArgs<T>)
    ensures SpliceAll(s, [a]) == Splice(s, a.start, a.deleteCount, a.items)
  {
    assert [a][1..] == [];
  }

  /**
   * The four cases by the notes' counts: a move between two listed notes
   * keeps the length and puts the source where the target was; a missing
   * source is added, a missing target makes the source disappear, and with
   * neither listed the list stays as it is.
   */
  lemma {:induction false} MoveNoteCases(notes: seq<Note>, source: Note, targetId: NoteId)
    ensures var si, ti, r := NoteIndex(notes, source.id), NoteIndex(notes, targetId), MoveNote(notes, source, targetId);
      (si >= 0 && ti >= 0 ==> |r| == |notes| && r[ti] == source) &&
      (si < 0 && ti >= 0 ==> |r| == |notes| + 1 && r == notes[..ti] + [source] + notes[ti..]) &&
      (si >= 0 && ti < 0 ==> |r| == |notes| - 1 && r == notes[..si] + notes[si + 1..]) &&
      (si < 0 && ti < 0 ==> r == notes)
  {
    var si, ti := NoteIndex(notes, source.id), NoteIndex(notes, targetId);
    if si >= 0 && ti >= 0 {
      RemoveInsert(notes, si, ti, source);
    } else if ti >= 0 {
      SpliceOne(notes, SpliceArgs(ti, 0, [source]));
    }
  }

  /** Every case of the move keeps the ids unique: a listed source trades its id for itself, a missing one brings a new id. */
  lemma MoveNoteKeepsUnique(notes: seq<Note>, source: Note, targetId: NoteId)
    requires UniqueNoteIds(notes)
    ensures UniqueNoteIds(MoveNote(notes, source, targetId))
  {
    var si, ti := NoteIndex(notes, source.id), NoteIndex(notes, targetId);
    var r := MoveNote(notes, source, targetId);
    if si >= 0 && ti >= 0 {
      MoveNoteBothKeepIds(notes, source, targetId);
    } else if ti >= 0 {
      MoveNoteInsertKeepsUnique(notes, source, targetId);
    } else if si >= 0 {
      IdBagDrop(notes, si);
      SmallerBagUnique(r, notes);
    }
  }

  /** With source and target both listed the move only reorders: the ids are those of before. */
  lemma MoveNoteBothKeepIds(notes: seq<Note>, source: Note, targetId: NoteId)
    requires 0 <= NoteIndex(notes, source.id) && 0 <= NoteIndex(notes, targetId)
    ensures IdBag(MoveNote(notes, source, targetId)) == IdBag(notes)
  {
    var si, ti := NoteIndex(notes, source.id), NoteIndex(notes, targetId);
    var rest := notes[..si] + notes[si + 1..];
    RemoveInsertShape(notes, si, ti, source);
    IdBagDrop(notes, si);
    IdBagInsert(rest, ti, source);
  }

  /** An unlisted source inserted at a listed target brings an id no note had. */
  lemma MoveNoteInsertKeepsUnique(notes: seq<Note>, source: Note, targetId: NoteId)
    requires UniqueNoteIds(notes)
    requires NoteIndex(notes, source.id) < 0 && 0 <= NoteIndex(notes, targetId)
    ensures UniqueNoteIds(MoveNote(notes, source, targetId))
  {
    var ti := NoteIndex(notes, targetId);
    var r := MoveNote(notes, source, targetId);
    SpliceOne(notes, SpliceArgs(ti, 0, [source]));
    IdBagInsert(notes, ti, source);
    IdBagHas(notes, source.id);
    forall id ensures IdBag(r)[id] <= 1 {
      assert IdBag(r)[id] == IdBag(notes)[id] + multiset{source.id}[id];
    }
  }

  /** Dragging a listed note onto itself changes nothing. */
  lemma {:induction false} MoveNoteOntoItself(notes: seq<Note>, i: int)
    requires 0 <= i < |notes| && NoteIndex(notes, notes[i].id) == i
    ensures MoveNote(notes, notes[i], notes[i].id) == notes
  {
    RemoveInsertSame(notes, i);
  }

  /**
   * The `move` of 10_polishing_kanban: `splices = [[targetIndex, 0, source]]`,
   * preceded by `[sourceIndex, 1]` when the source is found. The target's
   * position is not checked: -1 inserts the source before the last note.
   */
  function MoveSpliced(notes: seq<Note>, source: Note, targetId: NoteId): (r: seq<Note>)
  {
    var si, ti := NoteIndex(notes, source.id), NoteIndex(notes, targetId);
    var splices := [SpliceArgs(ti, 0, [source])];
    SpliceAll(notes, if si >= 0 then [SpliceArgs(si, 1, [])] + splices else splices)
  }

  /** Both targets found, the two versions of `move` agree. */
  lemma {:induction false} MoveSplicedAgrees(notes: seq<Note>, source: Note, targetId: NoteId)
    requires NoteIndex(notes, targetId) >= 0
    ensures MoveSpliced(notes, source, targetId) == MoveNote(notes, source, targetId)
  {
  }

  /**
   * The length after the polished `move`: kept when the source was listed,
   * one more when it was not; the source is always in the result, and with
   * an unknown target and a non-empty list it sits just before the last note.
   */
  lemma MoveSplicedLength(notes: seq<Note>, source: Note, targetId: NoteId)
    ensures var si, r := NoteIndex(notes, source.id), MoveSpliced(notes, source, targetId);
      |r| == (if si >= 0 then |notes| else |notes| + 1) && source in r
    ensures var si, ti, r := NoteIndex(notes, source.id), NoteIndex(notes, targetId), MoveSpliced(notes, source, targetId);
      si < 0 && ti < 0 && notes != [] ==> r == notes[..|notes| - 1] + [source] + [notes[|notes| - 1]]
  {
    if NoteIndex(notes, source.id) >= 0 {
      MoveSplicedListed(notes, source, targetId);
    } else {
      MoveSplicedUnlisted(notes, source, targetId);
    }
  }

  /** MoveSplicedLength when the source is listed: it is taken out, then put back. */
  lemma MoveSplicedListed(notes: seq<Note>, source: Note, targetId: NoteId)
    requires 0 <= NoteIndex(notes, source.id)
    ensures var r := MoveSpliced(notes, source, targetId); |r| == |notes| && source in r
  {
    var si, ti := NoteIndex(notes, source.id), NoteIndex(notes, targetId);
    var a, b := SpliceArgs(si, 1, []), SpliceArgs(ti, 0, [source]);
    assert [a] + [b] == [a, b];
    SpliceTwo(notes, a, b);
    var rest := Splice(notes, si, 1, []);
    InsertedPresent(rest, ti, source);
  }

  /** `splice(k, 0, x)` with `k` a position or -1 adds one element, and that element is `x`. */
  lemma InsertedPresent(s: seq<Note>, k: int, x: Note)
    requires -1 <= k <= |s|
    ensures var r := Splice(s, k, 0, [x]); |r| == |s| + 1 && x in r
  {
    var r := Splice(s, k, 0, [x]);
    if k >= 0 {
      assert r[k] == x;
    } else if s == [] {
      assert r == [x];
    } else {
      assert r[|s| - 1] == x;
    }
  }

  /** MoveSplicedLength when the source is not listed: it is only inserted. */
  lemma MoveSplicedUnlisted(notes: seq<Note>, source: Note, targetId: NoteId)
    requires NoteIndex(notes, source.id) < 0
    ensures var r := MoveSpliced(notes, source, targetId); |r| == |notes| + 1 && source in r
    ensures var ti, r := NoteIndex(notes, targetId), MoveSpliced(notes, source, targetId);
      ti < 0 && notes != [] ==> r == notes[..|notes| - 1] + [source] + [notes[|notes| - 1]]
  {
    var ti := NoteIndex(notes, targetId);
    var r := MoveSpliced(notes, source, targetId);
    SpliceOne(notes, SpliceArgs(ti, 0, [source]));
    if ti >= 0 {
      assert r == notes[..ti] + [source] + notes[ti..];
    } else if notes == [] {
      assert r == [source];
    } else {
      assert r == notes[..|notes| - 1] + [source] + [notes[|notes| - 1]];
    }
  }

  /** Inserting with `splice(k, 0, x)` adds exactly the id of `x`, wherever `k` points. */
  lemma {:induction false} IdBagSpliceInsert(notes: seq<Note>, k: int, x: Note)
    requires -1 <= k <= |notes|
    ensures IdBag(Splice(notes, k, 0, [x])) == IdBag(notes) + multiset{x.id}
  {
    if k >= 0 {
      IdBagInsert(notes, k, x);
    } else if notes == [] {
      IdBagOne(x);
    } else {
      assert notes[..|notes| - 1] + [x] + [notes[|notes| - 1]] == notes[..|notes| - 1] + [x] + notes[|notes| - 1..];
      IdBagInsert(notes, |notes| - 1, x);
    }
  }

  /** A found source trades its id for its own: the bag of ids stays the same. */
  lemma {:induction false} MoveSplicedTrade(notes: seq<Note>, si: int, ti: int, source: Note)
    requires 0 <= si < |notes| && -1 <= ti < |notes| && notes[si].id == source.id
    ensures IdBag(SpliceAll(notes, [SpliceArgs(si, 1, []), SpliceArgs(ti, 0, [source])])) == IdBag(notes)
  {
    SpliceTwo(notes, SpliceArgs(si, 1, []), SpliceArgs(ti, 0, [source]));
    var rest := Splice(notes, si, 1, []);
    assert rest == notes[..si] + notes[si + 1..];
    IdBagDrop(notes, si);
    IdBagSpliceInsert(rest, ti, source);
    assert IdBag(Splice(rest, ti, 0, [source])) == IdBag(rest) + multiset{notes[si].id};
  }

  /** The polished `move` keeps the ids unique too, also when the target is not found. */
  lemma {:induction false} MoveSplicedKeepsUnique(notes: seq<Note>, source: Note, targetId: NoteId)
    requires UniqueNoteIds(notes)
    ensures UniqueNoteIds(MoveSpliced(notes, source, targetId))
  {
    var si, ti := NoteIndex(notes, source.id), NoteIndex(notes, targetId);
    var r := MoveSpliced(notes, source, targetId);
    if si >= 0 {
      MoveSplicedTrade(notes, si, ti, source);
    } else {
      SpliceOne(notes, SpliceArgs(ti, 0, [source]));
      IdBagSpliceInsert(notes, ti, source);
      IdBagHas(notes, source.id);
      forall id ensures IdBag(r)[id] <= 1 {
        assert IdBag(r)[id] == IdBag(notes)[id] + multiset{source.id}[id];
      }
    }
  }

  // ---------------------------------------------------------------------
  // remove in 10_polishing_kanban

  /** The position `remove` acts on: a pattern is resolved with lodash's `findIndex`. */
  function Resolve(notes: seq<Note>, arg: RemoveArg): int
  {
    match arg
    case Position(i) => i
    case Pattern(id, task) => PatternIndex(notes, id, task)
  }

  /** `remove(id)`: a negative position changes nothing, any other is sliced out. */
  function RemoveResolved(notes: seq<Note>, arg: RemoveArg): (r: seq<Note>)
    ensures Resolve(notes, arg) < 0 || |notes| <= Resolve(notes, arg) ==> r == notes
    ensures var i := Resolve(notes, arg);
      0 <= i < |notes| ==> r == notes[..i] + notes[i + 1..]
    ensures arg.Pattern? && Resolve(notes, arg) >= 0 ==>
      (|r| == |notes| - 1 && Matches(notes[Resolve(notes, arg)], arg.id, arg.task))
  {
    var i := Resolve(notes, arg);
    if i < 0 then notes else SliceOut(notes, i)
  }

  // ---------------------------------------------------------------------
  // migrate

  /**
   * `data.notes.map(note => { if (!note.id) note.id = uuid.v4(); return note; })`,
   * with `newId(k)` the id `uuid.v4()` gives the `k`-th note.
   */
  function Migrate(notes: seq<Note>, newId: nat -> NoteId): (r: seq<Note>)
    ensures |r| == |notes|
    ensures forall k :: 0 <= k < |notes| ==> r[k].task == notes[k].task
    ensures forall k :: 0 <= k < |notes| && notes[k].id != "" ==> r[k] == notes[k]
  {
    seq(|notes|, k requires 0 <= k < |notes| => if notes[k].id == "" then notes[k].(id := newId(k)) else notes[k])
  }

  /** Once the fresh ids are non-empty, every migrated note has an id. */
  lemma {:induction false} MigrateFillsIds(notes: seq<Note>, newId: nat -> NoteId)
    requires forall k: nat :: newId(k) != ""
    ensures forall k :: 0 <= k < |notes| ==> Migrate(notes, newId)[k].id != ""
  {
    forall k | 0 <= k < |notes| ensures Migrate(notes, newId)[k].id != "" {
      assert k as nat >= 0;
    }
  }

  /** Migrating migrated notes changes nothing more, whatever ids the second run would draw. */
  lemma {:induction false} MigrateIdempotent(notes: seq<Note>, newId: nat -> NoteId, newId2: nat -> NoteId)
    requires forall k: nat :: newId(k) != ""
    ensures Migrate(Migrate(notes, newId), newId2) == Migrate(notes, newId)
  {
    MigrateFillsIds(notes, newId);
  }

  /** Notes that all carry ids come through unchanged. */
  lemma {:induction false} MigrateKeepsIdentified(notes: seq<Note>, newId: nat -> NoteId)
    requires forall k :: 0 <= k < |notes| ==> notes[k].id != ""
    ensures Migrate(notes, newId) == notes
  {
  }
}
