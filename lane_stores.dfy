/*
 * The lane stores of the book's kanban versions, one module per version.
 *
 * A store keeps its lanes in the field `lanes`; Alt's `setState({lanes})` is
 * an assignment to that field. Lanes are values here: where the source
 * mutates a lane object that the store's list already holds (`lane.notes =
 * ...`, `lane.notes.push(...)`), the model replaces that lane in the list,
 * which leaves the store in the same state. Every handler is proved to leave
 * the list that the matching LaneModel function computes from the old list,
 * and, where the version keeps it, the well-formed board (unique lane ids,
 * no note referenced twice).
 */

/** advanced_techniques/01_testing_react: every handler is a `map` or `filter` over the lanes. */
module AdvTestingLaneStore {
  import opened JsArray
  import opened LaneModel

  class LaneStore {
    var lanes: seq<Lane>

    constructor ()
      ensures lanes == []
    {
      lanes := [];
    }

    /** `create`: the lane, its notes defaulted to [], is appended. */
    method Create(lane: LaneDraft)
      modifies this
      ensures lanes == old(lanes) + [FromDraft(lane)]
      ensures WellFormed(old(lanes)) && LaneIndex(old(lanes), lane.id) == -1 && FromDraft(lane).notes == [] ==>
        WellFormed(lanes)
    {
      ghost var before := lanes;
      lanes := lanes + [FromDraft(lane)];
      if WellFormed(before) && LaneIndex(before, lane.id) == -1 && FromDraft(lane).notes == [] {
        AppendKeepsWellFormed(before, FromDraft(lane));
      }
    }

    /** `update`: every lane with the patch's id takes the patch's fields. */
    method Update(patch: LanePatch)
      modifies this
      ensures lanes == UpdateMerged(old(lanes), patch)
      ensures WellFormed(old(lanes)) && patch.notes.None? ==> WellFormed(lanes)
    {
      ghost var before := lanes;
      lanes := UpdateMerged(lanes, patch);
      if WellFormed(before) && patch.notes.None? {
        UpdateMergedKeepsWellFormed(before, patch);
      }
    }

    /** `delete`: every lane with the id is dropped. */
    method Delete(id: LaneId)
      modifies this
      ensures lanes == DeleteAll(old(lanes), id)
      ensures WellFormed(old(lanes)) ==> WellFormed(lanes)
    {
      ghost var before := lanes;
      lanes := DeleteAll(lanes, id);
      if WellFormed(before) {
        DeleteAllKeepsWellFormed(before, id);
      }
    }

    /** `attachToLane`: every lane drops the note and the lanes with id `laneId` append it. */
    method AttachToLane(laneId: LaneId, noteId: NoteId)
      modifies this
      ensures lanes == AttachEverywhere(old(lanes), laneId, noteId)
      ensures WellFormed(old(lanes)) ==> WellFormed(lanes)
    {
      ghost var before := lanes;
      lanes := AttachEverywhere(lanes, laneId, noteId);
      if WellFormed(before) {
        AttachEverywhereKeepsWellFormed(before, laneId, noteId);
      }
    }

    /** `detachFromLane`: the lanes with id `laneId` drop every occurrence of the note. */
    method DetachFromLane(laneId: LaneId, noteId: NoteId)
      modifies this
      ensures lanes == DetachFiltered(old(lanes), laneId, noteId)
      ensures WellFormed(old(lanes)) ==> WellFormed(lanes)
    {
      ghost var before := lanes;
      lanes := DetachFiltered(lanes, laneId, noteId);
      if WellFormed(before) {
        DetachFilteredKeepsWellFormed(before, laneId, noteId);
      }
    }

    /**
     * `move`: drag and drop of note `sourceId` onto note `targetId`. When no
     * lane lists one of them the handler throws before it changes anything.
     */
    method Move(sourceId: NoteId, targetId: NoteId) returns (status: Status)
      modifies this
      ensures status == TypeError <==> HolderIndex(old(lanes), sourceId) == -1 || HolderIndex(old(lanes), targetId) == -1
      ensures status == TypeError ==> lanes == old(lanes)
      ensures status == Completed ==> lanes == LaneModel.Move(old(lanes), sourceId, targetId).value
      ensures WellFormed(old(lanes)) ==> WellFormed(lanes)
    {
      var s, t := HolderIndex(lanes, sourceId), HolderIndex(lanes, targetId);
      if s < 0 || t < 0 {
        return TypeError;
      }
      ghost var before := lanes;
      var si, ti := IndexOf(lanes[s].notes, sourceId), IndexOf(lanes[t].notes, targetId);
      if s == t {
        lanes := lanes[s := lanes[s].(notes := SpliceAll(lanes[s].notes, [SpliceArgs(si, 1, []), SpliceArgs(ti, 0, [sourceId])]))];
      } else {
        lanes := lanes[s := lanes[s].(notes := Splice(lanes[s].notes, si, 1, []))];
        lanes := lanes[t := lanes[t].(notes := Splice(lanes[t].notes, ti, 0, [sourceId]))];
      }
      status := Completed;
      if WellFormed(before) {
        MoveKeepsWellFormed(before, sourceId, targetId);
      }
    }
  }
}

/** implementing_kanban/05_editing_lanes: the same handlers without `move`. */
module EditingLanesLaneStore {
  import opened JsArray
  import opened LaneModel

  class LaneStore {
    var lanes: seq<Lane>

    constructor ()
      ensures lanes == []
    {
      lanes := [];
    }

    method Create(lane: LaneDraft)
      modifies this
      ensures lanes == old(lanes) + [FromDraft(lane)]
      ensures WellFormed(old(lanes)) && LaneIndex(old(lanes), lane.id) == -1 && FromDraft(lane).notes == [] ==>
        WellFormed(lanes)
    {
      ghost var before := lanes;
      lanes := lanes + [FromDraft(lane)];
      if WellFormed(before) && LaneIndex(before, lane.id) == -1 && FromDraft(lane).notes == [] {
        AppendKeepsWellFormed(before, FromDraft(lane));
      }
    }

    method Update(patch: LanePatch)
      modifies this
      ensures lanes == UpdateMerged(old(lanes), patch)
      ensures WellFormed(old(lanes)) && patch.notes.None? ==> WellFormed(lanes)
    {
      ghost var before := lanes;
      lanes := UpdateMerged(lanes, patch);
      if WellFormed(before) && patch.notes.None? {
        UpdateMergedKeepsWellFormed(before, patch);
      }
    }

    method Delete(id: LaneId)
      modifies this
      ensures lanes == DeleteAll(old(lanes), id)
      ensures WellFormed(old(lanes)) ==> WellFormed(lanes)
    {
      ghost var before := lanes;
      lanes := DeleteAll(lanes, id);
      if WellFormed(before) {
        DeleteAllKeepsWellFormed(before, id);
      }
    }

    method AttachToLane(laneId: LaneId, noteId: NoteId)
      modifies this
      ensures lanes == AttachEverywhere(old(lanes), laneId, noteId)
      ensures WellFormed(old(lanes)) ==> WellFormed(lanes)
    {
      ghost var before := lanes;
      lanes := AttachEverywhere(lanes, laneId, noteId);
      if WellFormed(before) {
        AttachEverywhereKeepsWellFormed(before, laneId, noteId);
      }
    }

    method DetachFromLane(laneId: LaneId, noteId: NoteId)
      modifies this
      ensures lanes == DetachFiltered(old(lanes), laneId, noteId)
      ensures WellFormed(old(lanes)) ==> WellFormed(lanes)
    {
      ghost var before := lanes;
      lanes := DetachFiltered(lanes, laneId, noteId);
      if WellFormed(before) {
        DetachFilteredKeepsWellFormed(before, laneId, noteId);
      }
    }
  }
}

/**
 * 10_testing_react: handlers look the lane up with `findLane` and give up
 * when it is missing; `attachToLane` falls back to the id of the NoteStore's
 * last note when it is given none.
 */
module TestingLaneStore {
  import opened JsArray
  import opened LaneModel

  class LaneStore {
    var lanes: seq<Lane>

    constructor ()
      ensures lanes == []
    {
      lanes := [];
    }

    /** `findLane`: the position of the first lane with the id, or -1. */
    method FindLane(id: LaneId) returns (r: int)
      ensures -1 <= r < |lanes|
      ensures r == -1 ==> forall k :: 0 <= k < |lanes| ==> lanes[k].id != id
      ensures 0 <= r ==> lanes[r].id == id && forall k :: 0 <= k < r ==> lanes[k].id != id
      ensures r == LaneIndex(lanes, id)
    {
      r := LaneIndex(lanes, id);
    }

    /** `create`: the lane gets the fresh id `freshId` (from `uuid.v4()`), its notes default to [], and it is appended. */
    method Create(lane: LaneDraft, freshId: LaneId)
      modifies this
      ensures lanes == old(lanes) + [FromDraft(lane.(id := freshId))]
      ensures WellFormed(old(lanes)) && LaneIndex(old(lanes), freshId) == -1 && lane.notes.None? ==> WellFormed(lanes)
    {
      ghost var before := lanes;
      lanes := lanes + [FromDraft(lane.(id := freshId))];
      if WellFormed(before) && LaneIndex(before, freshId) == -1 && lane.notes.None? {
        AppendKeepsWellFormed(before, FromDraft(lane.(id := freshId)));
      }
    }

    /** `update`: the first lane with the id is renamed; an unknown id changes nothing. */
    method Update(id: LaneId, name: string)
      modifies this
      ensures lanes == RenameFirst(old(lanes), id, name)
      ensures WellFormed(old(lanes)) ==> WellFormed(lanes)
    {
      ghost var before := lanes;
      var targetId := FindLane(id);
      if targetId < 0 {
        return;
      }
      lanes := lanes[targetId := lanes[targetId].(name := name)];
      if WellFormed(before) {
        RenameFirstKeepsWellFormed(before, id, name);
      }
    }

    /** `delete`: the first lane with the id is cut out; an unknown id changes nothing. */
    method Delete(id: LaneId)
      modifies this
      ensures lanes == DeleteFound(old(lanes), id)
      ensures WellFormed(old(lanes)) ==> WellFormed(lanes)
    {
      ghost var before := lanes;
      var targetId := FindLane(id);
      if targetId < 0 {
        return;
      }
      lanes := SliceOut(lanes, targetId);
      if WellFormed(before) {
        DeleteFoundKeepsWellFormed(before, id);
      }
    }

    /** `removeNote`: the first lane listing the note loses its first occurrence. */
    method RemoveNote(noteId: NoteId)
      modifies this
      ensures lanes == LaneModel.RemoveNote(old(lanes), noteId)
      ensures WellFormed(old(lanes)) ==> WellFormed(lanes)
    {
      ghost var before := lanes;
      var k := HolderIndex(lanes, noteId);
      if k < 0 {
        return;
      }
      var removeNoteIndex := IndexOf(lanes[k].notes, noteId);
      lanes := lanes[k := lanes[k].(notes := SliceOut(lanes[k].notes, removeNoteIndex))];
      if WellFormed(before) {
        RemoveNoteKeepsWellFormed(before, noteId);
      }
    }

    /**
     * `attachToLane`. A missing note id (`!noteId`; "" here) is replaced by
     * `lastNoteId`, the id of the NoteStore's last note; None stands for an
     * empty NoteStore, where reading that id throws.
     */
    method AttachToLane(laneId: LaneId, noteId: NoteId, lastNoteId: Option<NoteId>) returns (status: Status)
      modifies this
      ensures noteId == "" && lastNoteId.None? ==> status == TypeError && lanes == old(lanes)
      ensures noteId != "" ==> status == Completed && lanes == AttachFound(old(lanes), laneId, noteId)
      ensures noteId == "" && lastNoteId.Some? ==>
        status == Completed && lanes == AttachFound(old(lanes), laneId, lastNoteId.value)
      ensures WellFormed(old(lanes)) ==> WellFormed(lanes)
    {
      var n := noteId;
      if n == "" {
        if lastNoteId.None? {
          return TypeError;
        }
        n := lastNoteId.value;
      }
      status := Completed;
      ghost var before := lanes;
      var targetId := FindLane(laneId);
      if targetId < 0 {
        return;
      }
      RemoveNote(n);
      if IndexOf(lanes[targetId].notes, n) == -1 {
        lanes := lanes[targetId := lanes[targetId].(notes := lanes[targetId].notes + [n])];
      }
      if WellFormed(before) {
        AttachFoundKeepsWellFormed(before, laneId, n);
      }
    }

    /** `detachFromLane`: the lane found by id loses the note's first occurrence, if it lists it. */
    method DetachFromLane(laneId: LaneId, noteId: NoteId)
      modifies this
      ensures lanes == DetachFound(old(lanes), laneId, noteId)
      ensures WellFormed(old(lanes)) ==> WellFormed(lanes)
    {
      ghost var before := lanes;
      var targetId := FindLane(laneId);
      if targetId < 0 {
        return;
      }
      var removeIndex := IndexOf(lanes[targetId].notes, noteId);
      if removeIndex != -1 {
        lanes := lanes[targetId := lanes[targetId].(notes := SliceOut(lanes[targetId].notes, removeIndex))];
      }
      if WellFormed(before) {
        DetachFoundKeepsWellFormed(before, laneId, noteId);
      }
    }

    method Move(sourceId: NoteId, targetId: NoteId) returns (status: Status)
      modifies this
      ensures status == TypeError <==> HolderIndex(old(lanes), sourceId) == -1 || HolderIndex(old(lanes), targetId) == -1
      ensures status == TypeError ==> lanes == old(lanes)
      ensures status == Completed ==> lanes == LaneModel.Move(old(lanes), sourceId, targetId).value
      ensures WellFormed(old(lanes)) ==> WellFormed(lanes)
    {
      var s, t := HolderIndex(lanes, sourceId), HolderIndex(lanes, targetId);
      if s < 0 || t < 0 {
        return TypeError;
      }
      ghost var before := lanes;
      var si, ti := IndexOf(lanes[s].notes, sourceId), IndexOf(lanes[t].notes, targetId);
      if s == t {
        lanes := lanes[s := lanes[s].(notes := SpliceAll(lanes[s].notes, [SpliceArgs(si, 1, []), SpliceArgs(ti, 0, [sourceId])]))];
      } else {
        lanes := lanes[s := lanes[s].(notes := Splice(lanes[s].notes, si, 1, []))];
        lanes := lanes[t := lanes[t].(notes := Splice(lanes[t].notes, ti, 0, [sourceId]))];
      }
      status := Completed;
      if WellFormed(before) {
        MoveKeepsWellFormed(before, sourceId, targetId);
      }
    }
  }
}

/**
 * 10_typing_with_react/proptypes_app: `update` merges, `delete` filters,
 * `attachToLane` removes the note first and then pushes it inside a `map`.
 */
module PropTypesLaneStore {
  import opened JsArray
  import opened LaneModel

  class LaneStore {
    var lanes: seq<Lane>

    constructor ()
      ensures lanes == []
    {
      lanes := [];
    }

    method Create(lane: LaneDraft, freshId: LaneId)
      modifies this
      ensures lanes == old(lanes) + [FromDraft(lane.(id := freshId))]
      ensures WellFormed(old(lanes)) && LaneIndex(old(lanes), freshId) == -1 && lane.notes.None? ==> WellFormed(lanes)
    {
      ghost var before := lanes;
      lanes := lanes + [FromDraft(lane.(id := freshId))];
      if WellFormed(before) && LaneIndex(before, freshId) == -1 && lane.notes.None? {
        AppendKeepsWellFormed(before, FromDraft(lane.(id := freshId)));
      }
    }

    method Update(patch: LanePatch)
      modifies this
      ensures lanes == UpdateMerged(old(lanes), patch)
      ensures WellFormed(old(lanes)) && patch.notes.None? ==> WellFormed(lanes)
    {
      ghost var before := lanes;
      lanes := UpdateMerged(lanes, patch);
      if WellFormed(before) && patch.notes.None? {
        UpdateMergedKeepsWellFormed(before, patch);
      }
    }

    method Delete(id: LaneId)
      modifies this
      ensures lanes == DeleteAll(old(lanes), id)
      ensures WellFormed(old(lanes)) ==> WellFormed(lanes)
    {
      ghost var before := lanes;
      lanes := DeleteAll(lanes, id);
      if WellFormed(before) {
        DeleteAllKeepsWellFormed(before, id);
      }
    }

    method RemoveNote(noteId: NoteId)
      modifies this
      ensures lanes == LaneModel.RemoveNote(old(lanes), noteId)
      ensures WellFormed(old(lanes)) ==> WellFormed(lanes)
    {
      ghost var before := lanes;
      var k := HolderIndex(lanes, noteId);
      if k < 0 {
        return;
      }
      var removeNoteIndex := IndexOf(lanes[k].notes, noteId);
      lanes := lanes[k := lanes[k].(notes := SliceOut(lanes[k].notes, removeNoteIndex))];
      if WellFormed(before) {
        RemoveNoteKeepsWellFormed(before, noteId);
      }
    }

    /** `attachToLane`, with the same fallback to the NoteStore's last note as in 10_testing_react. */
    method AttachToLane(laneId: LaneId, noteId: NoteId, lastNoteId: Option<NoteId>) returns (status: Status)
      modifies this
      ensures noteId == "" && lastNoteId.None? ==> status == TypeError && lanes == old(lanes)
      ensures noteId != "" ==> status == Completed && lanes == AttachRemovingAll(old(lanes), laneId, noteId)
      ensures noteId == "" && lastNoteId.Some? ==>
        status == Completed && lanes == AttachRemovingAll(old(lanes), laneId, lastNoteId.value)
      ensures WellFormed(old(lanes)) ==> WellFormed(lanes)
    {
      var n := noteId;
      if n == "" {
        if lastNoteId.None? {
          return TypeError;
        }
        n := lastNoteId.value;
      }
      status := Completed;
      ghost var before := lanes;
      RemoveNote(n);
      lanes := PushIfAbsentWhere(lanes, laneId, n);
      if WellFormed(before) {
        AttachRemovingAllKeepsWellFormed(before, laneId, n);
      }
    }

    method DetachFromLane(laneId: LaneId, noteId: NoteId)
      modifies this
      ensures lanes == DetachFiltered(old(lanes), laneId, noteId)
      ensures WellFormed(old(lanes)) ==> WellFormed(lanes)
    {
      ghost var before := lanes;
      lanes := DetachFiltered(lanes, laneId, noteId);
      if WellFormed(before) {
        DetachFilteredKeepsWellFormed(before, laneId, noteId);
      }
    }

    method Move(sourceId: NoteId, targetId: NoteId) returns (status: Status)
      modifies this
      ensures status == TypeError <==> HolderIndex(old(lanes), sourceId) == -1 || HolderIndex(old(lanes), targetId) == -1
      ensures status == TypeError ==> lanes == old(lanes)
      ensures status == Completed ==> lanes == LaneModel.Move(old(lanes), sourceId, targetId).value
      ensures WellFormed(old(lanes)) ==> WellFormed(lanes)
    {
      var s, t := HolderIndex(lanes, sourceId), HolderIndex(lanes, targetId);
      if s < 0 || t < 0 {
        return TypeError;
      }
      ghost var before := lanes;
      var si, ti := IndexOf(lanes[s].notes, sourceId), IndexOf(lanes[t].notes, targetId);
      if s == t {
        lanes := lanes[s := lanes[s].(notes := SpliceAll(lanes[s].notes, [SpliceArgs(si, 1, []), SpliceArgs(ti, 0, [sourceId])]))];
      } else {
        lanes := lanes[s := lanes[s].(notes := Splice(lanes[s].notes, si, 1, []))];
        lanes := lanes[t := lanes[t].(notes := Splice(lanes[t].notes, ti, 0, [sourceId]))];
      }
      status := Completed;
      if WellFormed(before) {
        MoveKeepsWellFormed(before, sourceId, targetId);
      }
    }
  }
}

/**
 * 08_building_kanban: `update` renames inside a `map`, and `detachFromLane`
 * filters by `note.id !== removeIndex`, which keeps every note.
 */
module BuildingLaneStore {
  import opened JsArray
  import opened LaneModel

  class LaneStore {
    var lanes: seq<Lane>

    constructor ()
      ensures lanes == []
    {
      lanes := [];
    }

    method Create(lane: LaneDraft, freshId: LaneId)
      modifies this
      ensures lanes == old(lanes) + [FromDraft(lane.(id := freshId))]
      ensures WellFormed(old(lanes)) && LaneIndex(old(lanes), freshId) == -1 && lane.notes.None? ==> WellFormed(lanes)
    {
      ghost var before := lanes;
      lanes := lanes + [FromDraft(lane.(id := freshId))];
      if WellFormed(before) && LaneIndex(before, freshId) == -1 && lane.notes.None? {
        AppendKeepsWellFormed(before, FromDraft(lane.(id := freshId)));
      }
    }

    /** `update`: every lane with the id takes the name. */
    method Update(id: LaneId, name: string)
      modifies this
      ensures lanes == Renamed(old(lanes), id, name)
      ensures WellFormed(old(lanes)) ==> WellFormed(lanes)
    {
      ghost var before := lanes;
      lanes := Renamed(lanes, id, name);
      if WellFormed(before) {
        RenamedKeepsWellFormed(before, id, name);
      }
    }

    method Delete(id: LaneId)
      modifies this
      ensures lanes == DeleteAll(old(lanes), id)
      ensures WellFormed(old(lanes)) ==> WellFormed(lanes)
    {
      ghost var before := lanes;
      lanes := DeleteAll(lanes, id);
      if WellFormed(before) {
        DeleteAllKeepsWellFormed(before, id);
      }
    }

    method RemoveNote(noteId: NoteId)
      modifies this
      ensures lanes == LaneModel.RemoveNote(old(lanes), noteId)
      ensures WellFormed(old(lanes)) ==> WellFormed(lanes)
    {
      ghost var before := lanes;
      var k := HolderIndex(lanes, noteId);
      if k < 0 {
        return;
      }
      var removeNoteIndex := IndexOf(lanes[k].notes, noteId);
      lanes := lanes[k := lanes[k].(notes := SliceOut(lanes[k].notes, removeNoteIndex))];
      if WellFormed(before) {
        RemoveNoteKeepsWellFormed(before, noteId);
      }
    }

    method AttachToLane(laneId: LaneId, noteId: NoteId, lastNoteId: Option<NoteId>) returns (status: Status)
      modifies this
      ensures noteId == "" && lastNoteId.None? ==> status == TypeError && lanes == old(lanes)
      ensures noteId != "" ==> status == Completed && lanes == AttachRemovingAll(old(lanes), laneId, noteId)
      ensures noteId == "" && lastNoteId.Some? ==>
        status == Completed && lanes == AttachRemovingAll(old(lanes), laneId, lastNoteId.value)
      ensures WellFormed(old(lanes)) ==> WellFormed(lanes)
    {
      var n := noteId;
      if n == "" {
        if lastNoteId.None? {
          return TypeError;
        }
        n := lastNoteId.value;
      }
      status := Completed;
      ghost var before := lanes;
      RemoveNote(n);
      lanes := PushIfAbsentWhere(lanes, laneId, n);
      if WellFormed(before) {
        AttachRemovingAllKeepsWellFormed(before, laneId, n);
      }
    }

    /** `detachFromLane`: compares string note ids' `id` property with a position, so it never removes anything. */
    method DetachFromLane(laneId: LaneId, noteId: NoteId)
      modifies this
      ensures lanes == DetachByPosition(old(lanes), laneId, noteId)
      ensures lanes == old(lanes)
    {
      lanes := DetachByPosition(lanes, laneId, noteId);
    }

    method Move(sourceId: NoteId, targetId: NoteId) returns (status: Status)
      modifies this
      ensures status == TypeError <==> HolderIndex(old(lanes), sourceId) == -1 || HolderIndex(old(lanes), targetId) == -1
      ensures status == TypeError ==> lanes == old(lanes)
      ensures status == Completed ==> lanes == LaneModel.Move(old(lanes), sourceId, targetId).value
      ensures WellFormed(old(lanes)) ==> WellFormed(lanes)
    {
      var s, t := HolderIndex(lanes, sourceId), HolderIndex(lanes, targetId);
      if s < 0 || t < 0 {
        return TypeError;
      }
      ghost var before := lanes;
      var si, ti := IndexOf(lanes[s].notes, sourceId), IndexOf(lanes[t].notes, targetId);
      if s == t {
        lanes := lanes[s := lanes[s].(notes := SpliceAll(lanes[s].notes, [SpliceArgs(si, 1, []), SpliceArgs(ti, 0, [sourceId])]))];
      } else {
        lanes := lanes[s := lanes[s].(notes := Splice(lanes[s].notes, si, 1, []))];
        lanes := lanes[t := lanes[t].(notes := Splice(lanes[t].notes, ti, 0, [sourceId]))];
      }
      status := Completed;
      if WellFormed(before) {
        MoveKeepsWellFormed(before, sourceId, targetId);
      }
    }
  }
}

/**
 * 07_implementing_dnd: handlers use the position `findIndex` answers
 * without checking it, except `attachToLane`, which removes the note from
 * its old lane before it checks the target.
 */
module DndLaneStore {
  import opened JsArray
  import opened LaneModel

  class LaneStore {
    var lanes: seq<Lane>

    constructor ()
      ensures lanes == []
    {
      lanes := [];
    }

    method Create(lane: LaneDraft)
      modifies this
      ensures lanes == old(lanes) + [FromDraft(lane)]
      ensures WellFormed(old(lanes)) && LaneIndex(old(lanes), lane.id) == -1 && FromDraft(lane).notes == [] ==>
        WellFormed(lanes)
    {
      ghost var before := lanes;
      lanes := lanes + [FromDraft(lane)];
      if WellFormed(before) && LaneIndex(before, lane.id) == -1 && FromDraft(lane).notes == [] {
        AppendKeepsWellFormed(before, FromDraft(lane));
      }
    }

    /** `update`: `lanes[targetId].name = name` throws when no lane has the id. */
    method Update(id: LaneId, name: string) returns (status: Status)
      modifies this
      ensures status == TypeError <==> LaneIndex(old(lanes), id) == -1
      ensures status == TypeError ==> lanes == old(lanes)
      ensures status == Completed ==> lanes == RenameFirst(old(lanes), id, name)
      ensures WellFormed(old(lanes)) ==> WellFormed(lanes)
    {
      var targetId := LaneIndex(lanes, id);
      if targetId < 0 {
        return TypeError;
      }
      ghost var before := lanes;
      lanes := lanes[targetId := lanes[targetId].(name := name)];
      status := Completed;
      if WellFormed(before) {
        RenameFirstKeepsWellFormed(before, id, name);
      }
    }

    /** `delete`: slices around the found position, so an unknown id glues the board onto all but its last lane. */
    method Delete(id: LaneId)
      modifies this
      ensures lanes == DeleteSliced(old(lanes), id)
      ensures 0 <= LaneIndex(old(lanes), id) && WellFormed(old(lanes)) ==> WellFormed(lanes)
    {
      ghost var before := lanes;
      var targetId := LaneIndex(lanes, id);
      lanes := SliceOut(lanes, targetId);
      if 0 <= targetId && WellFormed(before) {
        DeleteFoundKeepsWellFormed(before, id);
      }
    }

    method RemoveNote(noteId: NoteId)
      modifies this
      ensures lanes == LaneModel.RemoveNote(old(lanes), noteId)
      ensures WellFormed(old(lanes)) ==> WellFormed(lanes)
    {
      ghost var before := lanes;
      var k := HolderIndex(lanes, noteId);
      if k < 0 {
        return;
      }
      var removeNoteId := IndexOf(lanes[k].notes, noteId);
      lanes := lanes[k := lanes[k].(notes := SliceOut(lanes[k].notes, removeNoteId))];
      if WellFormed(before) {
        RemoveNoteKeepsWellFormed(before, noteId);
      }
    }

    /** `attachToLane`: the note leaves its old lane even when the target lane does not exist. */
    method AttachToLane(laneId: LaneId, noteId: NoteId)
      modifies this
      ensures lanes == AttachRemoving(old(lanes), laneId, noteId)
      ensures WellFormed(old(lanes)) ==> WellFormed(lanes)
    {
      ghost var before := lanes;
      var targetId := LaneIndex(lanes, laneId);
      RemoveNote(noteId);
      if targetId >= 0 && IndexOf(lanes[targetId].notes, noteId) == -1 {
        lanes := lanes[targetId := lanes[targetId].(notes := lanes[targetId].notes + [noteId])];
      }
      if WellFormed(before) {
        AttachRemovingKeepsWellFormed(before, laneId, noteId);
      }
    }

    /**
     * `detachFromLane`: its guard looks the position up among the note ids,
     * so the removal always runs, also with the position -1 of an absent note.
     */
    method DetachFromLane(laneId: LaneId, noteId: NoteId)
      modifies this
      ensures lanes == DetachUnguarded(old(lanes), laneId, noteId)
      ensures var t := LaneIndex(old(lanes), laneId);
        (t == -1 || noteId in old(lanes)[t].notes) && WellFormed(old(lanes)) ==> WellFormed(lanes)
    {
      ghost var before := lanes;
      var targetId := LaneIndex(lanes, laneId);
      if targetId < 0 {
        return;
      }
      var removeId := IndexOf(lanes[targetId].notes, noteId);
      lanes := lanes[targetId := lanes[targetId].(notes := SliceOut(lanes[targetId].notes, removeId))];
      if noteId in before[targetId].notes && WellFormed(before) {
        DetachFoundKeepsWellFormed(before, laneId, noteId);
      }
    }

    /** `move({sourceData, targetData})`: the notes' ids are read from the two drag records. */
    method Move(sourceId: NoteId, targetId: NoteId) returns (status: Status)
      modifies this
      ensures status == TypeError <==> HolderIndex(old(lanes), sourceId) == -1 || HolderIndex(old(lanes), targetId) == -1
      ensures status == TypeError ==> lanes == old(lanes)
      ensures status == Completed ==> lanes == LaneModel.Move(old(lanes), sourceId, targetId).value
      ensures WellFormed(old(lanes)) ==> WellFormed(lanes)
    {
      var s, t := HolderIndex(lanes, sourceId), HolderIndex(lanes, targetId);
      if s < 0 || t < 0 {
        return TypeError;
      }
      ghost var before := lanes;
      var si, ti := IndexOf(lanes[s].notes, sourceId), IndexOf(lanes[t].notes, targetId);
      if s == t {
        lanes := lanes[s := lanes[s].(notes := SpliceAll(lanes[s].notes, [SpliceArgs(si, 1, []), SpliceArgs(ti, 0, [sourceId])]))];
      } else {
        lanes := lanes[s := lanes[s].(notes := Splice(lanes[s].notes, si, 1, []))];
        lanes := lanes[t := lanes[t].(notes := Splice(lanes[t].notes, ti, 0, [sourceId]))];
      }
      status := Completed;
      if WellFormed(before) {
        MoveKeepsWellFormed(before, sourceId, targetId);
      }
    }
  }
}

/**
 * 06_from_notes_to_kanban: the first lane store with notes. `attachToLane`
 * never takes the note out of its old lane, and `delete` and
 * `detachFromLane` use unchecked positions.
 */
module FromNotes06LaneStore {
  import opened JsArray
  import opened LaneModel

  class LaneStore {
    var lanes: seq<Lane>

    constructor ()
      ensures lanes == []
    {
      lanes := [];
    }

    method Create(lane: LaneDraft)
      modifies this
      ensures lanes == old(lanes) + [FromDraft(lane)]
      ensures WellFormed(old(lanes)) && LaneIndex(old(lanes), lane.id) == -1 && FromDraft(lane).notes == [] ==>
        WellFormed(lanes)
    {
      ghost var before := lanes;
      lanes := lanes + [FromDraft(lane)];
      if WellFormed(before) && LaneIndex(before, lane.id) == -1 && FromDraft(lane).notes == [] {
        AppendKeepsWellFormed(before, FromDraft(lane));
      }
    }

    method Update(id: LaneId, name: string) returns (status: Status)
      modifies this
      ensures status == TypeError <==> LaneIndex(old(lanes), id) == -1
      ensures status == TypeError ==> lanes == old(lanes)
      ensures status == Completed ==> lanes == RenameFirst(old(lanes), id, name)
      ensures WellFormed(old(lanes)) ==> WellFormed(lanes)
    {
      var targetId := LaneIndex(lanes, id);
      if targetId < 0 {
        return TypeError;
      }
      ghost var before := lanes;
      lanes := lanes[targetId := lanes[targetId].(name := name)];
      status := Completed;
      if WellFormed(before) {
        RenameFirstKeepsWellFormed(before, id, name);
      }
    }

    method Delete(id: LaneId)
      modifies this
      ensures lanes == DeleteSliced(old(lanes), id)
      ensures 0 <= LaneIndex(old(lanes), id) && WellFormed(old(lanes)) ==> WellFormed(lanes)
    {
      ghost var before := lanes;
      var targetId := LaneIndex(lanes, id);
      lanes := SliceOut(lanes, targetId);
      if 0 <= targetId && WellFormed(before) {
        DeleteFoundKeepsWellFormed(before, id);
      }
    }

    /** `attachToLane`: pushes the note onto the target lane unless it is there; its old lane keeps it. */
    method AttachToLane(laneId: LaneId, noteId: NoteId)
      modifies this
      ensures lanes == AttachKeeping(old(lanes), laneId, noteId)
    {
      var targetId := LaneIndex(lanes, laneId);
      if targetId < 0 {
        return;
      }
      if IndexOf(lanes[targetId].notes, noteId) == -1 {
        lanes := lanes[targetId := lanes[targetId].(notes := lanes[targetId].notes + [noteId])];
      }
    }

    method DetachFromLane(laneId: LaneId, noteId: NoteId)
      modifies this
      ensures lanes == DetachUnguarded(old(lanes), laneId, noteId)
      ensures var t := LaneIndex(old(lanes), laneId);
        (t == -1 || noteId in old(lanes)[t].notes) && WellFormed(old(lanes)) ==> WellFormed(lanes)
    {
      ghost var before := lanes;
      var targetId := LaneIndex(lanes, laneId);
      if targetId < 0 {
        return;
      }
      var removeId := IndexOf(lanes[targetId].notes, noteId);
      lanes := lanes[targetId := lanes[targetId].(notes := SliceOut(lanes[targetId].notes, removeId))];
      if noteId in before[targetId].notes && WellFormed(before) {
        DetachFoundKeepsWellFormed(before, laneId, noteId);
      }
    }
  }
}

/** 10_linting_in_webpack: lanes are `{name}` records addressed by position. */
module LintingLaneStore {
  import opened JsArray
  import opened LaneModel

  class LaneStore {
    var lanes: seq<NamedLane>

    /** `init(data)`: `data || {lanes: []}`; None stands for falsy data. */
    method Init(data: Option<seq<NamedLane>>)
      modifies this
      ensures data.None? ==> lanes == []
      ensures data.Some? ==> lanes == data.value
    {
      lanes := if data.Some? then data.value else [];
    }

    /** `create(name)`: appends `{name}`. */
    method Create(name: string)
      modifies this
      ensures lanes == old(lanes) + [NamedLane(name)]
    {
      lanes := lanes + [NamedLane(name)];
    }

    /** `update({id, name})`: `lanes[id].name = name`, which throws for a position outside the list. */
    method Update(id: int, name: string) returns (status: Status)
      modifies this
      ensures 0 <= id < |old(lanes)| ==> status == Completed && lanes == old(lanes)[id := NamedLane(name)]
      ensures !(0 <= id < |old(lanes)|) ==> status == TypeError && lanes == old(lanes)
    {
      if !(0 <= id < |lanes|) {
        return TypeError;
      }
      lanes := lanes[id := lanes[id].(name := name)];
      status := Completed;
    }

    /** `remove(id)`: `lanes.slice(0, id).concat(lanes.slice(id + 1))`. */
    method Remove(id: int)
      modifies this
      ensures lanes == SliceOut(old(lanes), id)
      ensures 0 <= id < |old(lanes)| ==> lanes == old(lanes)[..id] + old(lanes)[id + 1..]
    {
      lanes := SliceOut(lanes, id);
    }
  }
}

/** 09_styling_react: `init` and `create` only. */
module StylingLaneStore {
  import opened JsArray
  import opened LaneModel

  class LaneStore {
    var lanes: seq<NamedLane>

    method Init(data: Option<seq<NamedLane>>)
      modifies this
      ensures data.None? ==> lanes == []
      ensures data.Some? ==> lanes == data.value
    {
      lanes := if data.Some? then data.value else [];
    }

    method Create(name: string)
      modifies this
      ensures lanes == old(lanes) + [NamedLane(name)]
    {
      lanes := lanes + [NamedLane(name)];
    }
  }
}

/** 08_from_notes_to_kanban: the constructor and `create` only. */
module FromNotes08LaneStore {
  import opened LaneModel

  class LaneStore {
    var lanes: seq<NamedLane>

    constructor ()
      ensures lanes == []
    {
      lanes := [];
    }

    method Create(name: string)
      modifies this
      ensures lanes == old(lanes) + [NamedLane(name)]
      ensures |lanes| == |old(lanes)| + 1 && lanes[|lanes| - 1].name == name
    {
      lanes := lanes + [NamedLane(name)];
    }
  }
}
