/*
 * The NoteStores of the book's versions, one module per version. The store
 * keeps its notes in the field `notes`; Alt's `setState({notes})` is an
 * assignment to it, and an in-place `notes[i].task = task` replaces the
 * note at `i`, which leaves the store in the same state. `uuid.v4()` is the
 * parameter `freshId` (or `newId(k)` when `migrate` draws one per note).
 */

/** 10_linting_in_webpack: positions for `update`/`remove`, ids for `move`, with its own `findIndex`. */
module LintingNoteStore {
  import opened JsArray
  import opened NoteModel

  class NoteStore {
    var notes: seq<Note>

    /** `init(data)`: migrated data when `data.notes` is an array, no notes otherwise. */
    method Init(data: StoredData, newId: nat -> NoteId)
      modifies this
      ensures data.Stored? ==> notes == Migrate(data.notes, newId)
      ensures !data.Stored? ==> notes == []
    {
      if data.Stored? {
        notes := Migrate(data.notes, newId);
      } else {
        notes := [];
      }
    }

    /** `create(task)`: appends `{task, id}` with a fresh id. */
    method Create(task: string, freshId: NoteId)
      modifies this
      ensures notes == old(notes) + [Note(freshId, task)]
      ensures UniqueNoteIds(old(notes)) && NoteIndex(old(notes), freshId) == -1 ==> UniqueNoteIds(notes)
    {
      ghost var before := notes;
      notes := notes + [Note(freshId, task)];
      if UniqueNoteIds(before) && NoteIndex(before, freshId) == -1 {
        AppendKeepsUnique(before, Note(freshId, task));
      }
    }

    /** `move({source, target})`: the positions come from `findIndex`, which answers `undefined` for a missing note. */
    method Move(source: Note, target: Note)
      modifies this
      ensures notes == MoveNote(old(notes), source, target.id)
      ensures UniqueNoteIds(old(notes)) ==> UniqueNoteIds(notes)
    {
      ghost var before := notes;
      var sourceIndex := FindIndexOpt(notes, source.id);
      var targetIndex := FindIndexOpt(notes, target.id);
      assert sourceIndex.Some? ==> sourceIndex.value == NoteIndex(notes, source.id);
      assert targetIndex.Some? ==> targetIndex.value == NoteIndex(notes, target.id);
      if sourceIndex.Some? && targetIndex.Some? {
        notes := SpliceAll(notes, [SpliceArgs(sourceIndex.value, 1, []), SpliceArgs(targetIndex.value, 0, [source])]);
      } else if targetIndex.Some? {
        notes := SpliceAll(notes, [SpliceArgs(targetIndex.value, 0, [source])]);
      } else if sourceIndex.Some? {
        Remove(sourceIndex.value);
      }
      if UniqueNoteIds(before) {
        MoveNoteKeepsUnique(before, source, target.id);
      }
    }

    /** `update({id, task})`: `notes[id].task = task`, which throws for a position outside the list. */
    method Update(id: int, task: string) returns (status: Status)
      modifies this
      ensures 0 <= id < |old(notes)| ==> status == Completed && notes == old(notes)[id := old(notes)[id].(task := task)]
      ensures !(0 <= id < |old(notes)|) ==> status == TypeError && notes == old(notes)
    {
      if !(0 <= id < |notes|) {
        return TypeError;
      }
      notes := notes[id := notes[id].(task := task)];
      status := Completed;
    }

    /** `remove(id)`: `notes.slice(0, id).concat(notes.slice(id + 1))`. */
    method Remove(id: int)
      modifies this
      ensures notes == SliceOut(old(notes), id)
      ensures 0 <= id < |old(notes)| ==> notes == old(notes)[..id] + old(notes)[id + 1..]
    {
      notes := SliceOut(notes, id);
    }
  }
}

/** 10_implementing_dnd: as 10_linting_in_webpack, with lodash's `findIndex` and an unguarded `migrate`. */
module ImplementingDndNoteStore {
  import opened JsArray
  import opened NoteModel

  class NoteStore {
    var notes: seq<Note>

    /**
     * `init(data)`: `data ? migrate(data) : {notes: []}`. `migrate` maps over
     * `data.notes`, which throws when that field is not an array.
     */
    method Init(data: StoredData, newId: nat -> NoteId) returns (status: Status)
      modifies this
      ensures data.Absent? ==> status == Completed && notes == []
      ensures data.NotesNotArray? ==> status == TypeError && notes == old(notes)
      ensures data.Stored? ==> status == Completed && notes == Migrate(data.notes, newId)
    {
      match data
      case Absent =>
        notes := [];
        status := Completed;
      case NotesNotArray =>
        status := TypeError;
      case Stored(stored) =>
        notes := Migrate(stored, newId);
        status := Completed;
    }

    method Create(task: string, freshId: NoteId)
      modifies this
      ensures notes == old(notes) + [Note(freshId, task)]
      ensures UniqueNoteIds(old(notes)) && NoteIndex(old(notes), freshId) == -1 ==> UniqueNoteIds(notes)
    {
      ghost var before := notes;
      notes := notes + [Note(freshId, task)];
      if UniqueNoteIds(before) && NoteIndex(before, freshId) == -1 {
        AppendKeepsUnique(before, Note(freshId, task));
      }
    }

    method Move(source: Note, target: Note)
      modifies this
      ensures notes == MoveNote(old(notes), source, target.id)
      ensures UniqueNoteIds(old(notes)) ==> UniqueNoteIds(notes)
    {
      ghost var before := notes;
      var sourceIndex := NoteIndex(notes, source.id);
      var targetIndex := NoteIndex(notes, target.id);
      if sourceIndex >= 0 && targetIndex >= 0 {
        notes := SpliceAll(notes, [SpliceArgs(sourceIndex, 1, []), SpliceArgs(targetIndex, 0, [source])]);
      } else if targetIndex >= 0 {
        notes := SpliceAll(notes, [SpliceArgs(targetIndex, 0, [source])]);
      } else if sourceIndex >= 0 {
        Remove(sourceIndex);
      }
      if UniqueNoteIds(before) {
        MoveNoteKeepsUnique(before, source, target.id);
      }
    }

    method Update(id: int, task: string) returns (status: Status)
      modifies this
      ensures 0 <= id < |old(notes)| ==> status == Completed && notes == old(notes)[id := old(notes)[id].(task := task)]
      ensures !(0 <= id < |old(notes)|) ==> status == TypeError && notes == old(notes)
    {
      if !(0 <= id < |notes|) {
        return TypeError;
      }
      notes := notes[id := notes[id].(task := task)];
      status := Completed;
    }

    method Remove(id: int)
      modifies this
      ensures notes == SliceOut(old(notes), id)
      ensures 0 <= id < |old(notes)| ==> notes == old(notes)[..id] + old(notes)[id + 1..]
    {
      notes := SliceOut(notes, id);
    }
  }
}

/** 10_polishing_kanban: `move` builds its list of splices, and `remove` also takes a pattern. */
module PolishingNoteStore {
  import opened JsArray
  import opened NoteModel

  class NoteStore {
    var notes: seq<Note>

    method Init(data: StoredData, newId: nat -> NoteId) returns (status: Status)
      modifies this
      ensures data.Absent? ==> status == Completed && notes == []
      ensures data.NotesNotArray? ==> status == TypeError && notes == old(notes)
      ensures data.Stored? ==> status == Completed && notes == Migrate(data.notes, newId)
    {
      match data
      case Absent =>
        notes := [];
        status := Completed;
      case NotesNotArray =>
        status := TypeError;
      case Stored(stored) =>
        notes := Migrate(stored, newId);
        status := Completed;
    }

    method Create(task: string, freshId: NoteId)
      modifies this
      ensures notes == old(notes) + [Note(freshId, task)]
      ensures UniqueNoteIds(old(notes)) && NoteIndex(old(notes), freshId) == -1 ==> UniqueNoteIds(notes)
    {
      ghost var before := notes;
      notes := notes + [Note(freshId, task)];
      if UniqueNoteIds(before) && NoteIndex(before, freshId) == -1 {
        AppendKeepsUnique(before, Note(freshId, task));
      }
    }

    /** `move({source, target})`: insert the source at the target's position, after taking it out if it is listed. */
    method Move(source: Note, target: Note)
      modifies this
      ensures notes == MoveSpliced(old(notes), source, target.id)
      ensures UniqueNoteIds(old(notes)) ==> UniqueNoteIds(notes)
    {
      ghost var before := notes;
      var sourceIndex := NoteIndex(notes, source.id);
      var targetIndex := NoteIndex(notes, target.id);
      var splices := [SpliceArgs(targetIndex, 0, [source])];
      if sourceIndex >= 0 {
        splices := [SpliceArgs(sourceIndex, 1, [])] + splices;
      }
      notes := SpliceAll(notes, splices);
      if UniqueNoteIds(before) {
        MoveSplicedKeepsUnique(before, source, target.id);
      }
    }

    method Update(id: int, task: string) returns (status: Status)
      modifies this
      ensures 0 <= id < |old(notes)| ==> status == Completed && notes == old(notes)[id := old(notes)[id].(task := task)]
      ensures !(0 <= id < |old(notes)|) ==> status == TypeError && notes == old(notes)
    {
      if !(0 <= id < |notes|) {
        return TypeError;
      }
      notes := notes[id := notes[id].(task := task)];
      status := Completed;
    }

    /** `remove(id)`: a pattern is resolved to a position first; a negative position changes nothing. */
    method Remove(arg: RemoveArg)
      modifies this
      ensures notes == RemoveResolved(old(notes), arg)
      ensures UniqueNoteIds(old(notes)) ==> UniqueNoteIds(notes)
    {
      ghost var before := notes;
      var id := if arg.Pattern? then PatternIndex(notes, arg.id, arg.task) else arg.index;
      if id < 0 {
        return;
      }
      notes := SliceOut(notes, id);
      if UniqueNoteIds(before) && id < |before| {
        IdBagDrop(before, id);
        SmallerBagUnique(notes, before);
      }
    }
  }
}

/** 10_typing_with_react/proptypes_app: handlers look the note up with `findNote` and give up when it is missing. */
module PropTypesNoteStore {
  import opened JsArray
  import opened NoteModel

  class NoteStore {
    var notes: seq<Note>

    constructor ()
      ensures notes == []
    {
      notes := [];
    }

    /** `create(note)`: the note gets a fresh id and is appended. */
    method Create(note: Note, freshId: NoteId)
      modifies this
      ensures notes == old(notes) + [note.(id := freshId)]
      ensures UniqueNoteIds(old(notes)) && NoteIndex(old(notes), freshId) == -1 ==> UniqueNoteIds(notes)
    {
      ghost var before := notes;
      notes := notes + [note.(id := freshId)];
      if UniqueNoteIds(before) && NoteIndex(before, freshId) == -1 {
        AppendKeepsUnique(before, note.(id := freshId));
      }
    }

    /** `findNote(id)`: the position of the first note with the id, or -1. */
    method FindNote(id: NoteId) returns (r: int)
      ensures -1 <= r < |notes|
      ensures r == -1 ==> forall k :: 0 <= k < |notes| ==> notes[k].id != id
      ensures 0 <= r ==> notes[r].id == id && forall k :: 0 <= k < r ==> notes[k].id != id
    {
      r := NoteIndex(notes, id);
    }

    /** `update({id, task})`: only the found note's task changes; an unknown id changes nothing. */
    method Update(id: NoteId, task: string)
      modifies this
      ensures notes == SetTaskFound(old(notes), id, task)
      ensures UniqueNoteIds(old(notes)) ==> UniqueNoteIds(notes)
    {
      ghost var before := notes;
      var noteIndex := FindNote(id);
      if noteIndex < 0 {
        return;
      }
      notes := notes[noteIndex := notes[noteIndex].(task := task)];
      SetTaskKeepsIds(before, noteIndex, task);
    }

    /** `delete(id)`: only the found note is cut out; an unknown id changes nothing. */
    method Delete(id: NoteId)
      modifies this
      ensures notes == DeleteFound(old(notes), id)
      ensures UniqueNoteIds(old(notes)) ==> UniqueNoteIds(notes)
    {
      ghost var before := notes;
      var noteIndex := FindNote(id);
      if noteIndex < 0 {
        return;
      }
      notes := SliceOut(notes, noteIndex);
      if UniqueNoteIds(before) {
        DeleteFoundKeepsUnique(before, id);
      }
    }

    /** `get(ids = [])`: `notes[findNote(id)]` for every id, `undefined` for an unknown one. */
    method Get(ids: Option<seq<NoteId>>) returns (r: seq<Option<Note>>)
      ensures var given := if ids.Some? then ids.value else [];
        |r| == |given| && forall k :: 0 <= k < |given| ==> r[k] == Lookup(notes, given[k])
    {
      var given := if ids.Some? then ids.value else [];
      r := GetByPosition(notes, given);
      GetByPositionIsGetEach(notes, given);
    }
  }
}

/** 10_typing_with_react/flow_app: `update` merges and `delete` filters. */
module FlowNoteStore {
  import opened JsArray
  import opened NoteModel

  class NoteStore {
    var notes: seq<Note>

    constructor ()
      ensures notes == []
    {
      notes := [];
    }

    method Create(note: Note, freshId: NoteId)
      modifies this
      ensures notes == old(notes) + [note.(id := freshId)]
      ensures UniqueNoteIds(old(notes)) && NoteIndex(old(notes), freshId) == -1 ==> UniqueNoteIds(notes)
    {
      ghost var before := notes;
      notes := notes + [note.(id := freshId)];
      if UniqueNoteIds(before) && NoteIndex(before, freshId) == -1 {
        AppendKeepsUnique(before, note.(id := freshId));
      }
    }

    /** `update(updatedNote)`: every note with its id takes its fields. */
    method Update(patch: NotePatch)
      modifies this
      ensures notes == UpdateMerged(old(notes), patch)
      ensures UniqueNoteIds(old(notes)) ==> UniqueNoteIds(notes)
    {
      ghost var before := notes;
      notes := UpdateMerged(notes, patch);
      UpdateMergedKeepsIds(before, patch);
    }

    /** `delete(id)`: every note with the id is dropped. */
    method Delete(id: NoteId)
      modifies this
      ensures notes == DeleteAll(old(notes), id)
      ensures UniqueNoteIds(old(notes)) ==> UniqueNoteIds(notes)
    {
      ghost var before := notes;
      notes := DeleteAll(notes, id);
      if UniqueNoteIds(before) {
        DeleteAllKeepsUnique(before, id);
      }
    }

    /**
     * `get(ids)`: the filter `(a) => a` keeps every array, empty ones too, so
     * there is one entry per id, `undefined` for an unknown id; falsy ids give [].
     */
    method Get(ids: Option<seq<NoteId>>) returns (r: seq<Option<Note>>)
      ensures var given := if ids.Some? then ids.value else [];
        |r| == |given| && forall k :: 0 <= k < |given| ==> r[k] == Lookup(notes, given[k])
    {
      r := GetEach(notes, if ids.Some? then ids.value else []);
    }
  }
}

/** 07_implementing_dnd: `create` answers the created note, and `getNotesByIds` drops unknown ids. */
module DndNoteStore {
  import opened JsArray
  import opened NoteModel

  class NoteStore {
    var notes: seq<Note>

    constructor ()
      ensures notes == []
    {
      notes := [];
    }

    method Create(note: Note, freshId: NoteId) returns (created: Note)
      modifies this
      ensures created == note.(id := freshId)
      ensures notes == old(notes) + [created]
      ensures UniqueNoteIds(old(notes)) && NoteIndex(old(notes), freshId) == -1 ==> UniqueNoteIds(notes)
    {
      ghost var before := notes;
      created := note.(id := freshId);
      notes := notes + [created];
      if UniqueNoteIds(before) && NoteIndex(before, freshId) == -1 {
        AppendKeepsUnique(before, created);
      }
    }

    method Update(patch: NotePatch)
      modifies this
      ensures notes == UpdateMerged(old(notes), patch)
      ensures UniqueNoteIds(old(notes)) ==> UniqueNoteIds(notes)
    {
      ghost var before := notes;
      notes := UpdateMerged(notes, patch);
      UpdateMergedKeepsIds(before, patch);
    }

    method Delete(id: NoteId)
      modifies this
      ensures notes == DeleteAll(old(notes), id)
      ensures UniqueNoteIds(old(notes)) ==> UniqueNoteIds(notes)
    {
      ghost var before := notes;
      notes := DeleteAll(notes, id);
      if UniqueNoteIds(before) {
        DeleteAllKeepsUnique(before, id);
      }
    }

    /** `getNotesByIds(ids)`: the first note of each known id, in the order of the ids. */
    method GetNotesByIds(ids: Option<seq<NoteId>>) returns (r: seq<Note>)
      ensures var given := if ids.Some? then ids.value else [];
        |r| <= |given| && (forall k :: 0 <= k < |r| ==> r[k].id in given && r[k] in notes) &&
        r == Found(GetEach(notes, given))
    {
      var given := if ids.Some? then ids.value else [];
      r := KnownNotes(notes, given);
      KnownNotesSound(notes, given);
      KnownNotesAreFound(notes, given);
    }
  }
}

/** 06_from_notes_to_kanban: unchecked positions from `findIndex` in `update` and `delete`. */
module FromNotes06NoteStore {
  import opened JsArray
  import opened NoteModel

  class NoteStore {
    var notes: seq<Note>

    constructor ()
      ensures notes == []
    {
      notes := [];
    }

    /** `create(note)`: the note is appended as given. */
    method Create(note: Note)
      modifies this
      ensures notes == old(notes) + [note]
    {
      notes := notes + [note];
    }

    /** `update({id, task})`: `notes[targetId].task = task`, which throws when no note has the id. */
    method Update(id: NoteId, task: string) returns (status: Status)
      modifies this
      ensures status == TypeError <==> NoteIndex(old(notes), id) == -1
      ensures status == TypeError ==> notes == old(notes)
      ensures status == Completed ==> notes == SetTaskFound(old(notes), id, task)
    {
      var targetId := NoteIndex(notes, id);
      if targetId < 0 {
        return TypeError;
      }
      notes := notes[targetId := notes[targetId].(task := task)];
      status := Completed;
    }

    /** `delete(id)`: slices around the found position, so an unknown id glues the notes onto all but the last. */
    method Delete(id: NoteId)
      modifies this
      ensures notes == DeleteSliced(old(notes), id)
    {
      var targetId := NoteIndex(notes, id);
      notes := SliceOut(notes, targetId);
    }

    /** `get(ids)`: `notes[notesIds.indexOf(id)]` per id when ids are given, [] otherwise. */
    method Get(ids: Option<seq<NoteId>>) returns (r: seq<Option<Note>>)
      ensures ids.None? ==> r == []
      ensures ids.Some? ==> |r| == |ids.value| && forall k :: 0 <= k < |ids.value| ==> r[k] == Lookup(notes, ids.value[k])
    {
      if ids.None? {
        return [];
      }
      r := GetByPosition(notes, ids.value);
      GetByPositionIsGetEach(notes, ids.value);
    }
  }
}

/** advanced_techniques/02_typing_with_react/flow-app: `concat`, merging `map`, `filter`. */
module AdvFlowNoteStore {
  import opened JsArray
  import opened NoteModel

  class NoteStore {
    var notes: seq<Note>

    constructor ()
      ensures notes == []
    {
      notes := [];
    }

    method Create(note: Note)
      modifies this
      ensures notes == old(notes) + [note]
      ensures UniqueNoteIds(old(notes)) && NoteIndex(old(notes), note.id) == -1 ==> UniqueNoteIds(notes)
    {
      ghost var before := notes;
      notes := notes + [note];
      if UniqueNoteIds(before) && NoteIndex(before, note.id) == -1 {
        AppendKeepsUnique(before, note);
      }
    }

    method Update(patch: NotePatch)
      modifies this
      ensures notes == UpdateMerged(old(notes), patch)
      ensures UniqueNoteIds(old(notes)) ==> UniqueNoteIds(notes)
    {
      ghost var before := notes;
      notes := UpdateMerged(notes, patch);
      UpdateMergedKeepsIds(before, patch);
    }

    method Delete(id: NoteId)
      modifies this
      ensures notes == DeleteAll(old(notes), id)
      ensures UniqueNoteIds(old(notes)) ==> UniqueNoteIds(notes)
    {
      ghost var before := notes;
      notes := DeleteAll(notes, id);
      if UniqueNoteIds(before) {
        DeleteAllKeepsUnique(before, id);
      }
    }
  }
}

/** 05_react_and_flux: update and delete by id through the `find-index` package, without checking its answer. */
module ReactFlux05NoteStore {
  import opened JsArray
  import opened NoteModel

  class NoteStore {
    var notes: seq<Note>

    constructor ()
      ensures notes == []
    {
      notes := [];
    }

    method Create(note: Note)
      modifies this
      ensures notes == old(notes) + [note]
    {
      notes := notes + [note];
    }

    /** `update(note)`: sets the task of the first note with `note.id`; throws when there is none. */
    method Update(note: Note) returns (status: Status)
      modifies this
      ensures status == TypeError <==> NoteIndex(old(notes), note.id) == -1
      ensures status == TypeError ==> notes == old(notes)
      ensures status == Completed ==> notes == SetTaskFound(old(notes), note.id, note.task)
    {
      var targetId := NoteIndex(notes, note.id);
      if targetId < 0 {
        return TypeError;
      }
      notes := notes[targetId := notes[targetId].(task := note.task)];
      status := Completed;
    }

    method Delete(id: NoteId)
      modifies this
      ensures notes == DeleteSliced(old(notes), id)
    {
      var targetId := NoteIndex(notes, id);
      notes := SliceOut(notes, targetId);
    }
  }
}

/** 08_building_kanban: as 05_react_and_flux, with the book's own `findIndex(notes, 'id', id)`. */
module Building08NoteStore {
  import opened JsArray
  import opened NoteModel

  class NoteStore {
    var notes: seq<Note>

    constructor ()
      ensures notes == []
    {
      notes := [];
    }

    method Create(note: Note)
      modifies this
      ensures notes == old(notes) + [note]
    {
      notes := notes + [note];
    }

    method Update(note: Note) returns (status: Status)
      modifies this
      ensures status == TypeError <==> NoteIndex(old(notes), note.id) == -1
      ensures status == TypeError ==> notes == old(notes)
      ensures status == Completed ==> notes == SetTaskFound(old(notes), note.id, note.task)
    {
      var targetId := NoteIndex(notes, note.id);
      if targetId < 0 {
        return TypeError;
      }
      notes := notes[targetId := notes[targetId].(task := note.task)];
      status := Completed;
    }

    method Delete(id: NoteId)
      modifies this
      ensures notes == DeleteSliced(old(notes), id)
    {
      var targetId := NoteIndex(notes, id);
      notes := SliceOut(notes, targetId);
    }
  }
}

/** 07_react_and_flux: notes are `{task}` records addressed by position. */
module ReactFlux07NoteStore {
  import opened JsArray
  import opened NoteModel

  class NoteStore {
    var notes: seq<Note>

    /** `init(data)`: `data || {notes: []}`; None stands for falsy data. */
    method Init(data: Option<seq<Note>>)
      modifies this
      ensures data.None? ==> notes == []
      ensures data.Some? ==> notes == data.value
    {
      notes := if data.Some? then data.value else [];
    }

    /** `create(task)`: appends `{task}`. */
    method Create(task: string)
      modifies this
      ensures notes == old(notes) + [Note("", task)]
    {
      notes := notes + [Note("", task)];
    }

    method Update(id: int, task: string) returns (status: Status)
      modifies this
      ensures 0 <= id < |old(notes)| ==> status == Completed && notes == old(notes)[id := old(notes)[id].(task := task)]
      ensures !(0 <= id < |old(notes)|) ==> status == TypeError && notes == old(notes)
    {
      if !(0 <= id < |notes|) {
        return TypeError;
      }
      notes := notes[id := notes[id].(task := task)];
      status := Completed;
    }

    method Remove(id: int)
      modifies this
      ensures notes == SliceOut(old(notes), id)
      ensures 0 <= id < |old(notes)| ==> notes == old(notes)[..id] + old(notes)[id + 1..]
    {
      notes := SliceOut(notes, id);
    }
  }
}

/** 07_from_notes_to_kanban: `init` checks that the stored notes are an array. */
module FromNotes07NoteStore {
  import opened JsArray
  import opened NoteModel

  class NoteStore {
    var notes: seq<Note>

    /** `init(data)`: `Array.isArray(data && data.notes) ? data : {notes: []}`. */
    method Init(data: StoredData)
      modifies this
      ensures data.Stored? ==> notes == data.notes
      ensures !data.Stored? ==> notes == []
    {
      notes := if data.Stored? then data.notes else [];
    }

    method Create(task: string)
      modifies this
      ensures notes == old(notes) + [Note("", task)]
    {
      notes := notes + [Note("", task)];
    }

    method Update(id: int, task: string) returns (status: Status)
      modifies this
      ensures 0 <= id < |old(notes)| ==> status == Completed && notes == old(notes)[id := old(notes)[id].(task := task)]
      ensures !(0 <= id < |old(notes)|) ==> status == TypeError && notes == old(notes)
    {
      if !(0 <= id < |notes|) {
        return TypeError;
      }
      notes := notes[id := notes[id].(task := task)];
      status := Completed;
    }

    method Remove(id: int)
      modifies this
      ensures notes == SliceOut(old(notes), id)
      ensures 0 <= id < |old(notes)| ==> notes == old(notes)[..id] + old(notes)[id + 1..]
    {
      notes := SliceOut(notes, id);
    }
  }
}

/** 08_from_notes_to_kanban: no `init`; the constructor starts from no notes. */
module FromNotes08NoteStore {
  import opened JsArray
  import opened NoteModel

  class NoteStore {
    var notes: seq<Note>

    constructor ()
      ensures notes == []
    {
      notes := [];
    }

    method Create(task: string)
      modifies this
      ensures notes == old(notes) + [Note("", task)]
    {
      notes := notes + [Note("", task)];
    }

    method Update(id: int, task: string) returns (status: Status)
      modifies this
      ensures 0 <= id < |old(notes)| ==> status == Completed && notes == old(notes)[id := old(notes)[id].(task := task)]
      ensures !(0 <= id < |old(notes)|) ==> status == TypeError && notes == old(notes)
    {
      if !(0 <= id < |notes|) {
        return TypeError;
      }
      notes := notes[id := notes[id].(task := task)];
      status := Completed;
    }

    method Remove(id: int)
      modifies this
      ensures notes == SliceOut(old(notes), id)
      ensures 0 <= id < |old(notes)| ==> notes == old(notes)[..id] + old(notes)[id + 1..]
    {
      notes := SliceOut(notes, id);
    }
  }
}

/** 06_react_and_flux: `create` pushes onto the list in place. */
module ReactFlux06NoteStore {
  import opened JsArray
  import opened NoteModel

  class NoteStore {
    var notes: seq<Note>

    method Init(data: Option<seq<Note>>)
      modifies this
      ensures data.None? ==> notes == []
      ensures data.Some? ==> notes == data.value
    {
      notes := if data.Some? then data.value else [];
    }

    /** `create(task)`: `this.notes.push({task})`. */
    method Create(task: string)
      modifies this
      ensures notes == old(notes) + [Note("", task)]
    {
      notes := notes + [Note("", task)];
    }

    method Update(id: int, task: string) returns (status: Status)
      modifies this
      ensures 0 <= id < |old(notes)| ==> status == Completed && notes == old(notes)[id := old(notes)[id].(task := task)]
      ensures !(0 <= id < |old(notes)|) ==> status == TypeError && notes == old(notes)
    {
      if !(0 <= id < |notes|) {
        return TypeError;
      }
      notes := notes[id := notes[id].(task := task)];
      status := Completed;
    }

    method Remove(id: int)
      modifies this
      ensures notes == SliceOut(old(notes), id)
      ensures 0 <= id < |old(notes)| ==> notes == old(notes)[..id] + old(notes)[id + 1..]
    {
      notes := SliceOut(notes, id);
    }
  }
}
