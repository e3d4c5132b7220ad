/*
 * The list edits the early React components perform on their own state,
 * and two pure helpers of later components. A component's `this.state` list
 * is the field of a class; `setState` assigns it.
 */

/** 04_implementing_notes: notes with ids, edited by id. */
module ImplementingNotes04App {
  import opened JsArray
  import opened NoteModel

  class App {
    var notes: seq<Note>

    /** The initial state: three notes, each with an id from `uuid.v4()` (`id1`, `id2`, `id3`). */
    constructor (id1: NoteId, id2: NoteId, id3: NoteId)
      ensures notes == [Note(id1, "Learn webpack"), Note(id2, "Learn React"), Note(id3, "Do laundry")]
    {
      notes := [Note(id1, "Learn webpack"), Note(id2, "Learn React"), Note(id3, "Do laundry")];
    }

    /** `addItem()`: appends `{id, task: 'New task'}` with a fresh id. */
    method AddItem(freshId: NoteId)
      modifies this
      ensures notes == old(notes) + [Note(freshId, "New task")]
      ensures UniqueNoteIds(old(notes)) && NoteIndex(old(notes), freshId) == -1 ==> UniqueNoteIds(notes)
    {
      ghost var before := notes;
      notes := notes + [Note(freshId, "New task")];
      if UniqueNoteIds(before) && NoteIndex(before, freshId) == -1 {
        AppendKeepsUnique(before, Note(freshId, "New task"));
      }
    }

    /**
     * `itemEdited(id, task)`: an unknown id changes nothing; otherwise a
     * non-empty task replaces the note's task and an empty one removes the note.
     */
    method ItemEdited(id: NoteId, task: string)
      modifies this
      ensures NoteIndex(old(notes), id) == -1 ==> notes == old(notes)
      ensures task != "" ==> notes == SetTaskFound(old(notes), id, task)
      ensures task == "" ==> notes == DeleteFound(old(notes), id)
      ensures UniqueNoteIds(old(notes)) ==> UniqueNoteIds(notes)
    {
      ghost var before := notes;
      var noteIndex := NoteIndex(notes, id);
      if noteIndex < 0 {
        return;
      }
      if task != "" {
        notes := notes[noteIndex := notes[noteIndex].(task := task)];
        SetTaskKeepsIds(before, noteIndex, task);
      } else {
        notes := SliceOut(notes, noteIndex);
        if UniqueNoteIds(before) {
          DeleteFoundKeepsUnique(before, id);
        }
      }
    }
  }
}

/** 05_implementing_notes: notes without ids, edited by position. */
module ImplementingNotes05App {
  import opened JsArray
  import opened NoteModel

  class App {
    var notes: seq<Note>

    constructor ()
      ensures notes == [Note("", "Learn Webpack"), Note("", "Learn React"), Note("", "Do laundry")]
    {
      notes := [Note("", "Learn Webpack"), Note("", "Learn React"), Note("", "Do laundry")];
    }

    /** `addItem()`: appends `{task: 'New task'}`. */
    method AddItem()
      modifies this
      ensures notes == old(notes) + [Note("", "New task")]
    {
      notes := notes + [Note("", "New task")];
    }

    /**
     * `itemEdited(i, task)`: a non-empty task replaces the task at `i` (which
     * throws for a position outside the list); an empty one slices `i` out.
     */
    method ItemEdited(i: int, task: string) returns (status: Status)
      modifies this
      ensures task != "" && 0 <= i < |old(notes)| ==> status == Completed && notes == old(notes)[i := old(notes)[i].(task := task)]
      ensures task != "" && !(0 <= i < |old(notes)|) ==> status == TypeError && notes == old(notes)
      ensures task == "" ==> status == Completed && notes == SliceOut(old(notes), i)
    {
      if task != "" {
        if !(0 <= i < |notes|) {
          return TypeError;
        }
        notes := notes[i := notes[i].(task := task)];
      } else {
        notes := SliceOut(notes, i);
      }
      status := Completed;
    }
  }
}

/** 05_implementing_todo/app/App.jsx: the to-do list edited by position. */
module ImplementingTodo05App {
  import opened JsArray
  import opened TodoModel

  class App {
    var todos: seq<Todo>

    constructor ()
      ensures todos == [Todo("Learn Webpack"), Todo("Learn React"), Todo("Do laundry")]
    {
      todos := [Todo("Learn Webpack"), Todo("Learn React"), Todo("Do laundry")];
    }

    method AddItem()
      modifies this
      ensures todos == old(todos) + [Todo("New task")]
    {
      todos := todos + [Todo("New task")];
    }

    method ItemEdited(i: int, task: string) returns (status: Status)
      modifies this
      ensures task != "" && 0 <= i < |old(todos)| ==> status == Completed && todos == old(todos)[i := Todo(task)]
      ensures task != "" && !(0 <= i < |old(todos)|) ==> status == TypeError && todos == old(todos)
      ensures task == "" ==> status == Completed && todos == SliceOut(old(todos), i)
    {
      if task != "" {
        if !(0 <= i < |todos|) {
          return TypeError;
        }
        todos := todos[i := todos[i].(task := task)];
      } else {
        todos := SliceOut(todos, i);
      }
      status := Completed;
    }
  }
}

/** 05_implementing_todo/app/TodoApp.jsx: the same list, rendered item by item. */
module ImplementingTodo05TodoApp {
  import opened JsArray
  import opened TodoModel

  class TodoApp {
    var todos: seq<Todo>

    constructor ()
      ensures todos == [Todo("Learn Webpack"), Todo("Learn React"), Todo("Do laundry")]
    {
      todos := [Todo("Learn Webpack"), Todo("Learn React"), Todo("Do laundry")];
    }

    method AddItem()
      modifies this
      ensures todos == old(todos) + [Todo("New task")]
    {
      todos := todos + [Todo("New task")];
    }

    method ItemEdited(i: int, task: string) returns (status: Status)
      modifies this
      ensures task != "" && 0 <= i < |old(todos)| ==> status == Completed && todos == old(todos)[i := Todo(task)]
      ensures task != "" && !(0 <= i < |old(todos)|) ==> status == TypeError && todos == old(todos)
      ensures task == "" ==> status == Completed && todos == SliceOut(old(todos), i)
    {
      if task != "" {
        if !(0 <= i < |todos|) {
          return TypeError;
        }
        todos := todos[i := todos[i].(task := task)];
      } else {
        todos := SliceOut(todos, i);
      }
      status := Completed;
    }
  }
}

/** `selectNotesByIds` of the kanban Lane component. */
module LaneView {
  import opened JsArray
  import opened NoteModel

  /** The fold `noteIds.reduce((notes, id) => notes.concat(allNotes.filter(note => note.id === id)), acc)`. */
  function Gather(allNotes: seq<Note>, acc: seq<Note>, noteIds: seq<NoteId>): seq<Note>
    decreases |noteIds|
  {
    if noteIds == [] then acc else Gather(allNotes, acc + WithId(allNotes, noteIds[0]), noteIds[1..])
  }

  /** `selectNotesByIds(allNotes, noteIds = [])`: every note of every id, grouped by id in the order of the ids. */
  function SelectNotesByIds(allNotes: seq<Note>, noteIds: Option<seq<NoteId>>): seq<Note>
  {
    Gather(allNotes, [], if noteIds.Some? then noteIds.value else [])
  }

  /** The same notes, group after group: the notes of the first id, then those of the rest. */
  function Groups(allNotes: seq<Note>, noteIds: seq<NoteId>): (r: seq<Note>)
    ensures forall k :: 0 <= k < |r| ==> r[k].id in noteIds && r[k] in allNotes
  {
    if noteIds == [] then []
    else
      var rest := Groups(allNotes, noteIds[1..]);
      assert forall k :: 0 <= k < |rest| ==> rest[k].id in noteIds by {
        forall k | 0 <= k < |rest| ensures rest[k].id in noteIds {
          assert rest[k].id in noteIds[1..];
        }
      }
      WithId(allNotes, noteIds[0]) + rest
  }

  /** The fold adds the groups after what it has gathered so far. */
  lemma {:induction false} GatherIsGroups(allNotes: seq<Note>, acc: seq<Note>, noteIds: seq<NoteId>)
    ensures Gather(allNotes, acc, noteIds) == acc + Groups(allNotes, noteIds)
    decreases |noteIds|
  {
    if noteIds != [] {
      GatherIsGroups(allNotes, acc + WithId(allNotes, noteIds[0]), noteIds[1..]);
    }
  }

  /**
   * What the Lane shows: no ids (the default) show nothing, and every note
   * shown has one of the lane's ids and is one of the store's notes.
   */
  lemma {:induction false} SelectNotesByIdsShowsListed(allNotes: seq<Note>, noteIds: Option<seq<NoteId>>)
    ensures noteIds.None? ==> SelectNotesByIds(allNotes, noteIds) == []
    ensures var ids := if noteIds.Some? then noteIds.value else [];
      var r := SelectNotesByIds(allNotes, noteIds);
      forall k :: 0 <= k < |r| ==> r[k].id in ids && r[k] in allNotes
  {
    GatherIsGroups(allNotes, [], if noteIds.Some? then noteIds.value else []);
  }

  /** Every note carrying an id is in its group: notes that share an id all show. */
  lemma {:induction false} WithIdCount(notes: seq<Note>, id: NoteId)
    ensures |WithId(notes, id)| == IdBag(notes)[id]
  {
    if notes != [] {
      WithIdCount(notes[1..], id);
    }
  }

  /** The number of notes shown: for each listed id, the number of notes carrying it. */
  function CountAll(allNotes: seq<Note>, noteIds: seq<NoteId>): nat
  {
    if noteIds == [] then 0 else IdBag(allNotes)[noteIds[0]] + CountAll(allNotes, noteIds[1..])
  }

  lemma {:induction false} GroupsCount(allNotes: seq<Note>, noteIds: seq<NoteId>)
    ensures |Groups(allNotes, noteIds)| == CountAll(allNotes, noteIds)
  {
    if noteIds != [] {
      WithIdCount(allNotes, noteIds[0]);
      GroupsCount(allNotes, noteIds[1..]);
    }
  }

  /** With unique note ids, a group is the one note the search finds, or nothing. */
  lemma {:induction false} WithIdUnique(notes: seq<Note>, id: NoteId)
    requires UniqueNoteIds(notes)
    ensures WithId(notes, id) == if NoteIndex(notes, id) < 0 then [] else [notes[NoteIndex(notes, id)]]
  {
    WithIdCount(notes, id);
    WithIdFirst(notes, id);
    assert IdBag(notes)[id] <= 1;
  }

  /**
   * With unique note ids, the Lane shows exactly what `getNotesByIds` of
   * 07_implementing_dnd answers: one note per known id, unknown ids skipped.
   */
  lemma {:induction false} SelectIsKnownNotes(allNotes: seq<Note>, noteIds: seq<NoteId>)
    requires UniqueNoteIds(allNotes)
    ensures SelectNotesByIds(allNotes, Some(noteIds)) == KnownNotes(allNotes, noteIds)
  {
    GatherIsGroups(allNotes, [], noteIds);
    GroupsAreKnown(allNotes, noteIds);
  }

  lemma {:induction false} GroupsAreKnown(allNotes: seq<Note>, noteIds: seq<NoteId>)
    requires UniqueNoteIds(allNotes)
    ensures Groups(allNotes, noteIds) == KnownNotes(allNotes, noteIds)
  {
    if noteIds != [] {
      WithIdUnique(allNotes, noteIds[0]);
      WithIdFirst(allNotes, noteIds[0]);
      GroupsAreKnown(allNotes, noteIds[1..]);
    }
  }
}

/** The drag-and-drop experiment in the Notes component of 08_polishing_kanban. */
module NotesView {
  import opened JsArray
  import opened NoteModel

  /** `notes[i]`, which is `undefined` outside the list. */
  function At(notes: seq<Note>, i: int): Option<Note>
  {
    if 0 <= i < |notes| then Some(notes[i]) else None
  }

  /** The notes as JavaScript values, each one defined. */
  function Lift(notes: seq<Note>): (r: seq<Option<Note>>)
    ensures |r| == |notes|
    ensures forall k :: 0 <= k < |notes| ==> r[k] == Some(notes[k])
  {
    seq(|notes|, k requires 0 <= k < |notes| => Some(notes[k]))
  }

  /** The list with the elements at `i` and `j` exchanged. */
  function Swap<T>(s: seq<T>, i: int, j: int): (r: seq<T>)
    requires 0 <= i < |s| && 0 <= j < |s|
    ensures |r| == |s|
  {
    s[i := s[j]][j := s[i]]
  }

  /** A swap only moves elements around, and swapping twice restores the list. */
  lemma {:induction false} SwapPermutes<T>(s: seq<T>, i: int, j: int)
    requires 0 <= i < |s| && 0 <= j < |s|
    ensures multiset(Swap(s, i, j)) == multiset(s)
  {
  }

  lemma SwapTwice<T>(s: seq<T>, i: int, j: int)
    requires 0 <= i < |s| && 0 <= j < |s|
    ensures Swap(Swap(s, i, j), i, j) == s
    ensures i == j ==> Swap(s, i, j) == s
  {
  }

  /**
   * `itemMoved(id, afterId)`: orders the two positions, then builds
   * `newNotes` from the slices around them. `newNotes` is never stored (the
   * cursor update is commented out), so the component's notes stay as they
   * were. For two different positions in the list, `newNotes` is the list
   * with them swapped; for one position, its note comes out twice.
   */
  method ItemMoved(notes: seq<Note>, id: int, afterId: int) returns (newNotes: seq<Option<Note>>)
    ensures var lo, hi := if id > afterId then afterId else id, if id > afterId then id else afterId;
      0 <= lo < hi < |notes| ==> newNotes == Lift(Swap(notes, lo, hi))
    ensures 0 <= id < |notes| && id == afterId ==>
      |newNotes| == |notes| + 1 && newNotes == Lift(notes[..id + 1] + notes[id..])
  {
    var lo, hi := id, afterId;
    if lo > hi {
      var tmp := lo;
      lo := hi;
      hi := tmp;
    }
    var lifted := Lift(notes);
    var start := Slice(lifted, 0, lo);
    var middle := Slice(lifted, lo + 1, hi);
    var end := SliceFrom(lifted, hi + 1);
    newNotes := start + [At(notes, hi)] + middle + [At(notes, lo)] + end;
    if 0 <= lo < hi < |notes| {
      assert newNotes == Lift(Swap(notes, lo, hi)) by {
        var w := Lift(Swap(notes, lo, hi));
        assert |newNotes| == |w|;
        forall k | 0 <= k < |w| ensures newNotes[k] == w[k] {
          if k < lo {
            assert newNotes[k] == start[k];
          } else if k == lo {
          } else if k < hi {
            assert newNotes[k] == middle[k - lo - 1];
          } else if k == hi {
          } else {
            assert newNotes[k] == end[k - hi - 1];
          }
        }
      }
    } else if 0 <= lo == hi < |notes| {
      assert newNotes == Lift(notes[..lo + 1] + notes[lo..]) by {
        var w := Lift(notes[..lo + 1] + notes[lo..]);
        assert |newNotes| == |w|;
        forall k | 0 <= k < |w| ensures newNotes[k] == w[k] {
          if k < lo {
            assert newNotes[k] == start[k];
          } else if k <= lo + 1 {
          } else {
            assert newNotes[k] == end[k - lo - 2];
          }
        }
      }
    }
  }
}
