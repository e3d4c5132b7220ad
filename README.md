# Kanban stores of the React book, in Dafny

This project models the list logic of the kanban and to-do application that
the React book builds chapter by chapter. The book keeps dozens of snapshots
of the application. Their stores hold ordered lists of records and change
them in response to Flux actions:

- **Lane stores.** The board is a list of lanes `{id, name, notes}`, where
  `notes` lists note ids. Actions create, rename or merge, delete,
  `attachToLane`, `detachFromLane`, `removeNote` and `move` (drag and drop).
- **Note stores.** An ordered list of notes `{id, task}`. Notes are created,
  updated by id or by position, deleted, looked up by a list of ids,
  back-filled with ids on load (`migrate`) and moved with `$splice`.
- **To-do stores.** The same kind of list of `{task}` records, plus a store
  holding lanes of todos.
- **Component list edits.** `addItem` and `itemEdited` of the first App
  components, `selectNotesByIds` of the Lane component, and the swap that
  `itemMoved` computes in the Notes component.
- **Two string helpers.** `renderTemplate`, the `%key%` substitution used for
  the page template, and `getChapters`, the chapter naming rules of the
  script that builds every chapter.

## Layout

| file | modules |
|---|---|
| `js_array.dfy` | `JsArray`: `indexOf`, `slice`, `splice`, React's `$splice` and `filter`, with JavaScript's negative positions; `Option` and `Status` |
| `lane_model.dfy` | `LaneModel`: lanes as values, one function per way a snapshot changes the board, and the board invariant with the lemmas that keep it |
| `lane_stores.dfy` | one module per lane store snapshot, each with a `LaneStore` class |
| `note_model.dfy` | `NoteModel`: notes as values, the note-list functions and the unique-id invariant |
| `note_stores.dfy` | one module per note store snapshot, each with a `NoteStore` class |
| `todo_stores.dfy` | `TodoModel` and the three to-do stores |
| `components.dfy` | the four early App components, `LaneView` (`selectNotesByIds`) and `NotesView` (`itemMoved`) |
| `template.dfy` | `Template`: `renderTemplate` |
| `build_all.dfy` | `BuildAll`: `getChapters` |

How the JavaScript is modelled:

- A store is a class whose field (`lanes`, `notes` or `todos`) the handlers
  assign; `setState` is that assignment.
- Each handler is proved equal to a function of the old state. The function
  is defined once in `LaneModel` or `NoteModel`, and the properties are
  lemmas about it.
- `uuid.v4()` becomes a parameter of the handler: `freshId`, or `newId(k)`
  for the k-th note in `migrate`.
- A handler that throws a `TypeError` returns `Status.TypeError`. This
  happens when it reads a property of `undefined`, for example
  `lanes[-1].name = name`. Every such throw happens before anything is
  changed, so the state stays as it was. This relies on the contract given
  to `../libs/find_index` under "Left out".
- The empty string as a note id stands for a missing id. Both the `{task}`
  records and the falsy `noteId` of `attachToLane` use it.
- The board invariant is `WellFormed`: lane ids are unique, and no note id is
  referenced twice on the board (`NotesUnique`). The second part implies that
  a note belongs to at most one lane (`UniqueRefsAreSingleHomed`), which is
  the guarantee the Lane component relies on. For notes, the invariant is
  `UniqueNoteIds`.

## Model

| member | source | states |
|---|---|---|
| JsArray.IndexOf | project_source/07_implementing_dnd/kanban_app/app/stores/LaneStore.js:83 | `indexOf`: -1 when absent, else the first position holding the value |
| JsArray.IndexOfAtMost | project_source/10_testing_react/kanban_app/app/stores/LaneStore.js:84 | a position holding the value bounds the answer of `indexOf` from above |
| JsArray.SliceOut | project_source/10_testing_react/kanban_app/app/stores/LaneStore.js:44 | `slice(0, i).concat(slice(i + 1))`: for a position in the list, exactly that element is gone; -1 gives all but the last element followed by the whole list |
| JsArray.SliceOutUndoesAppend | project_source/10_testing_react/kanban_app/app/stores/LaneStore.js:20 | slicing out the last position undoes a `concat` of one element |
| JsArray.Splice | project_source/advanced_techniques/01_testing_react/kanban-app/app/stores/LaneStore.js:72-75 | one splice: a valid range is replaced by the items; start -1 removing nothing inserts before the last element; on an empty list the items alone |
| JsArray.SpliceRemoveOne | project_source/advanced_techniques/01_testing_react/kanban-app/app/stores/LaneStore.js:72 | `[i, 1]` at a valid position drops exactly one copy of that element |
| JsArray.SpliceInsertOne | project_source/advanced_techniques/01_testing_react/kanban-app/app/stores/LaneStore.js:73 | `[i, 0, x]` at a valid position adds exactly one copy of `x` |
| JsArray.SpliceTwo | project_source/advanced_techniques/01_testing_react/kanban-app/app/stores/LaneStore.js:70-76 | the two-step `$splice` list applies its steps in order |
| JsArray.RemoveInsertShape | project_source/advanced_techniques/01_testing_react/kanban-app/app/stores/LaneStore.js:70-76 | removing position `i` then inserting at `j` gives the rest with `x` at `j`, the others in order |
| JsArray.RemoveInsert | project_source/advanced_techniques/01_testing_react/kanban-app/app/stores/LaneStore.js:70-76 | remove-then-insert keeps the length, puts `x` at `j`, and trades one `s[i]` for `x` in the multiset |
| JsArray.RemoveInsertSame | project_source/advanced_techniques/01_testing_react/kanban-app/app/stores/LaneStore.js:70-76 | removing and reinserting at the same position gives back the list |
| JsArray.Without | project_source/advanced_techniques/01_testing_react/kanban-app/app/stores/LaneStore.js:55 | `filter(x => x !== v)`: no `v` remains, the list does not grow, an absent `v` is a no-op |
| JsArray.WithoutCount | project_source/advanced_techniques/01_testing_react/kanban-app/app/stores/LaneStore.js:55 | the filter drops every `v` and keeps the count of every other element |
| JsArray.WithoutConcat | project_source/advanced_techniques/01_testing_react/kanban-app/app/stores/LaneStore.js:55 | the filter distributes over concatenation |
| LaneModel.LaneIndex | project_source/10_testing_react/kanban_app/app/stores/LaneStore.js:111-120 | `findIndex` by id: -1 iff no lane has the id, else the first such lane |
| LaneModel.HolderIndex | project_source/10_testing_react/kanban_app/app/stores/LaneStore.js:74-78 | the first lane whose notes list the note, or -1 when none does |
| LaneModel.HolderMeansReferenced | project_source/10_testing_react/kanban_app/app/stores/LaneStore.js:76-82 | no lane holds the note iff the board references it nowhere |
| LaneModel.UniqueRefsAreSingleHomed | project_source/implementing_kanban/06_drag_and_drop/kanban-app/app/components/Lane.jsx:106-109 | a board referencing each note at most once keeps every note in at most one lane |
| LaneModel.UpdateMerged | project_source/advanced_techniques/01_testing_react/kanban-app/app/stores/LaneStore.js:19-29 | every lane with the id takes the patch's fields, other lanes and the order unchanged |
| LaneModel.UpdateMergedIdempotent | project_source/advanced_techniques/01_testing_react/kanban-app/app/stores/LaneStore.js:19-29 | applying the same update twice equals applying it once |
| LaneModel.UpdateMergedKeepsBoard | project_source/implementing_kanban/05_editing_lanes/kanban-app/app/stores/LaneStore.js:18-28 | an update without `notes` keeps the references and the lane ids |
| LaneModel.Renamed | project_source/08_building_kanban/kanban_app/app/stores/LaneStore.js:23-33 | every lane with the id gets the name; nothing else changes |
| LaneModel.RenamedIsMerge | project_source/08_building_kanban/kanban_app/app/stores/LaneStore.js:23-33 | renaming equals the merge update that carries only a name |
| LaneModel.RenameFirst | project_source/10_testing_react/kanban_app/app/stores/LaneStore.js:23-34 | an unknown id leaves the board; a known one renames exactly the lane `findLane` found, and nothing else changes |
| LaneModel.RenameFirstIsRenamed | project_source/10_testing_react/kanban_app/app/stores/LaneStore.js:23-34 | with unique lane ids, renaming the found lane equals renaming every lane with the id |
| LaneModel.DeleteAll | project_source/advanced_techniques/01_testing_react/kanban-app/app/stores/LaneStore.js:30-34 | the filter keeps lanes with other ids, in order |
| LaneModel.DeleteAllRemoves | project_source/advanced_techniques/01_testing_react/kanban-app/app/stores/LaneStore.js:30-34 | no lane with the id survives |
| LaneModel.DeleteAllUnknown | project_source/advanced_techniques/01_testing_react/kanban-app/app/stores/LaneStore.js:30-34 | an unknown id is a no-op |
| LaneModel.DeleteAllRefs | project_source/advanced_techniques/01_testing_react/kanban-app/app/stores/LaneStore.js:30-34 | deleting never adds a note reference |
| LaneModel.DeleteFound | project_source/10_testing_react/kanban_app/app/stores/LaneStore.js:35-46 | unknown id: unchanged; known: exactly the found lane is removed |
| LaneModel.DeleteFoundIsDeleteAll | project_source/10_testing_react/kanban_app/app/stores/LaneStore.js:35-46 | with unique lane ids, removing the found lane equals the filter |
| LaneModel.DeleteSliced | project_source/07_implementing_dnd/kanban_app/app/stores/LaneStore.js:29-36 | found: as DeleteFound; unknown: all lanes but the last followed by all lanes |
| LaneModel.DeleteSlicedDuplicates | project_source/07_implementing_dnd/kanban_app/app/stores/LaneStore.js:31-34 | deleting an unknown lane from two or more lanes lists the first lane twice: lane ids repeat, and its notes are referenced twice |
| LaneModel.DeleteFoundKeepsBoard | project_source/10_testing_react/kanban_app/app/stores/LaneStore.js:35-46 | deleting the found lane keeps the one-reference-per-note invariant |
| LaneModel.DeleteFoundKeepsIds | project_source/10_testing_react/kanban_app/app/stores/LaneStore.js:35-46 | deleting the found lane keeps lane ids unique |
| LaneModel.RemoveNote | project_source/10_testing_react/kanban_app/app/stores/LaneStore.js:74-88 | the first lane listing the note loses its first occurrence; a note no lane lists is a no-op |
| LaneModel.RemoveNoteRefs | project_source/10_testing_react/kanban_app/app/stores/LaneStore.js:74-88 | exactly one reference to the note leaves the board when there was one |
| LaneModel.RemoveNoteClears | project_source/10_testing_react/kanban_app/app/stores/LaneStore.js:74-88 | on a board without repeated references the note is then referenced nowhere |
| LaneModel.PushWhereIsPushAt | project_source/08_building_kanban/kanban_app/app/stores/LaneStore.js:48-59 | with unique lane ids, pushing inside `map` pushes onto the one found lane |
| LaneModel.PushOntoClearedBoard | project_source/10_testing_react/kanban_app/app/stores/LaneStore.js:63-69 | pushing a note the board does not reference leaves it in that lane only, as its last entry |
| LaneModel.AttachFound | project_source/10_testing_react/kanban_app/app/stores/LaneStore.js:47-73 | unknown lane: unchanged (the note stays in its old lane); else the found lane lists the note, every other lane is as removeNote leaves it, and every other note keeps its count in every lane |
| LaneModel.AttachFoundHomesNote | project_source/10_testing_react/kanban_app/app/stores/LaneStore.js:61-69 | after attaching, the note is in the target lane only, as the last entry |
| LaneModel.AttachRemoving | project_source/07_implementing_dnd/kanban_app/app/stores/LaneStore.js:37-57 | removeNote first: an unknown lane gives exactly the removeNote board; a known one lists the note, every other lane is as removeNote leaves it, and every other note keeps its count in every lane |
| LaneModel.AttachRemovingHomesNote | project_source/07_implementing_dnd/kanban_app/app/stores/LaneStore.js:41-56 | the note ends up in the target lane only (or nowhere when the lane is unknown) |
| LaneModel.AttachRemovingAll | project_source/10_typing_with_react/proptypes_app/app/stores/LaneStore.js:40-63 | removeNote, then push-if-absent inside `map`: every lane with the id lists the note, every other lane is as removeNote leaves it, and every other note keeps its count in every lane |
| LaneModel.AttachRemovingAllIsAttachRemoving | project_source/10_typing_with_react/proptypes_app/app/stores/LaneStore.js:40-63 | with unique lane ids the `map` form equals the found-lane form |
| LaneModel.AttachKeeping | project_source/06_from_notes_to_kanban/kanban_app/app/stores/LaneStore.js:36-54 | unknown lane: unchanged; known: push if absent, without removing the note from its old lane |
| LaneModel.AttachKeepingSplitsNote | project_source/06_from_notes_to_kanban/kanban_app/app/stores/LaneStore.js:36-54 | a concrete board where the attached note ends up in two lanes |
| LaneModel.AttachEverywhere | project_source/advanced_techniques/01_testing_react/kanban-app/app/stores/LaneStore.js:35-49 | every lane drops the note and each lane with the id appends it |
| LaneModel.AttachEverywhereOnly | project_source/advanced_techniques/01_testing_react/kanban-app/app/stores/LaneStore.js:35-49 | with unique lane ids only the target lane lists the note afterwards |
| LaneModel.AttachEverywhereOthers | project_source/advanced_techniques/01_testing_react/kanban-app/app/stores/LaneStore.js:35-49 | the counts of all other notes are unchanged |
| LaneModel.AttachEverywhereHomesNote | project_source/implementing_kanban/05_editing_lanes/kanban-app/app/stores/LaneStore.js:34-48 | the note lives in the target lane only, exactly once, as its last element; the invariant holds |
| LaneModel.DetachFiltered | project_source/advanced_techniques/01_testing_react/kanban-app/app/stores/LaneStore.js:50-60 | lanes with the id lose every occurrence of the note; other lanes unchanged |
| LaneModel.DetachFilteredKeepsBoard | project_source/advanced_techniques/01_testing_react/kanban-app/app/stores/LaneStore.js:50-60 | detaching keeps the invariant |
| LaneModel.DetachUndoesAttach | project_source/advanced_techniques/01_testing_react/kanban-app/app/stores/LaneStore.js:35-60 | detaching a note just attached to a lane gives back the board without the note |
| LaneModel.DetachFound | project_source/10_testing_react/kanban_app/app/stores/LaneStore.js:89-110 | unknown lane or absent note: unchanged; else the first occurrence is removed from the found lane |
| LaneModel.DetachFoundKeepsBoard | project_source/10_testing_react/kanban_app/app/stores/LaneStore.js:89-110 | keeps the invariant and takes an attached note off the board |
| LaneModel.DetachFoundUndoesAttachFound | project_source/10_testing_react/kanban_app/app/stores/LaneStore.js:47-110 | attach then detach on the same lane leaves the note on no lane |
| LaneModel.DetachUnguarded | project_source/07_implementing_dnd/kanban_app/app/stores/LaneStore.js:73-93 | unknown lane or listed note: as DetachFound; an absent note on a non-empty lane turns its list into all but the last followed by the whole list, and every other lane is unchanged; an empty lane leaves the board unchanged |
| LaneModel.DetachUnguardedDuplicates | project_source/07_implementing_dnd/kanban_app/app/stores/LaneStore.js:83-86 | detaching a note a lane of two or more notes does not list puts the lane's first note in it twice |
| LaneModel.KeepIdNot | project_source/08_building_kanban/kanban_app/app/stores/LaneStore.js:85 | filtering note ids by `note.id !== removeIndex` keeps every note |
| LaneModel.DetachByPosition | project_source/08_building_kanban/kanban_app/app/stores/LaneStore.js:78-96 | the board is unchanged whatever the lane and the note |
| LaneModel.DetachByPositionKeepsNote | project_source/08_building_kanban/kanban_app/app/stores/LaneStore.js:78-96 | a concrete attached note stays attached after detaching it |
| LaneModel.Move | project_source/10_testing_react/kanban_app/app/stores/LaneStore.js:121-150 | None (TypeError) iff either note is in no lane; else the within-lane `$splice` or the two cross-lane splices |
| LaneModel.MoveWithinLane | project_source/10_testing_react/kanban_app/app/stores/LaneStore.js:132-140 | within one lane only that lane changes and `sourceId` lands at the target's old position |
| LaneModel.MoveAcrossLanes | project_source/10_testing_react/kanban_app/app/stores/LaneStore.js:141-147 | across lanes the source lane loses the note and the target lane gets it at the target's position; other lanes unchanged |
| LaneModel.MoveWithinLaneRefs | project_source/advanced_techniques/01_testing_react/kanban-app/app/stores/LaneStore.js:69-76 | a move within a lane keeps that lane's length and multiset of notes |
| LaneModel.MoveAcrossLanesRefs | project_source/advanced_techniques/01_testing_react/kanban-app/app/stores/LaneStore.js:77-83 | a move across lanes keeps the total multiset of references |
| LaneModel.MoveKeepsBoard | project_source/10_testing_react/kanban_app/app/stores/LaneStore.js:121-150 | a move keeps every note's reference count |
| LaneModel.MoveOntoItself | project_source/10_testing_react/kanban_app/app/stores/LaneStore.js:121-150 | dropping a note on itself changes nothing |
| LaneModel.AppendKeepsWellFormed | project_source/advanced_techniques/01_testing_react/kanban-app/app/stores/LaneStore.js:10-18 | appending a lane with a new id and no notes keeps the board well formed |
| LaneModel.UpdateMergedKeepsWellFormed | project_source/advanced_techniques/01_testing_react/kanban-app/app/stores/LaneStore.js:19-29 | a merge without `notes` keeps the board well formed |
| LaneModel.RenamedKeepsWellFormed | project_source/08_building_kanban/kanban_app/app/stores/LaneStore.js:23-33 | renaming keeps the board well formed |
| LaneModel.RenameFirstKeepsWellFormed | project_source/10_testing_react/kanban_app/app/stores/LaneStore.js:23-34 | renaming the found lane keeps the board well formed |
| LaneModel.DeleteFoundKeepsWellFormed | project_source/10_testing_react/kanban_app/app/stores/LaneStore.js:35-46 | deleting the found lane keeps the board well formed |
| LaneModel.DeleteAllKeepsWellFormed | project_source/advanced_techniques/01_testing_react/kanban-app/app/stores/LaneStore.js:30-34 | the delete filter keeps the board well formed |
| LaneModel.RemoveNoteKeepsWellFormed | project_source/10_testing_react/kanban_app/app/stores/LaneStore.js:74-88 | removeNote keeps the board well formed |
| LaneModel.AttachFoundKeepsWellFormed | project_source/10_testing_react/kanban_app/app/stores/LaneStore.js:47-73 | AttachFound keeps the board well formed |
| LaneModel.AttachRemovingKeepsWellFormed | project_source/07_implementing_dnd/kanban_app/app/stores/LaneStore.js:37-57 | AttachRemoving keeps the board well formed |
| LaneModel.AttachRemovingAllKeepsWellFormed | project_source/10_typing_with_react/proptypes_app/app/stores/LaneStore.js:40-63 | AttachRemovingAll keeps the board well formed |
| LaneModel.AttachEverywhereKeepsWellFormed | project_source/advanced_techniques/01_testing_react/kanban-app/app/stores/LaneStore.js:35-49 | AttachEverywhere keeps the board well formed |
| LaneModel.DetachFilteredKeepsWellFormed | project_source/advanced_techniques/01_testing_react/kanban-app/app/stores/LaneStore.js:50-60 | DetachFiltered keeps the board well formed |
| LaneModel.DetachFoundKeepsWellFormed | project_source/10_testing_react/kanban_app/app/stores/LaneStore.js:89-110 | DetachFound keeps the board well formed |
| LaneModel.MoveKeepsWellFormed | project_source/10_testing_react/kanban_app/app/stores/LaneStore.js:121-150 | a successful move keeps the board well formed |
| AdvTestingLaneStore.LaneStore.constructor | project_source/advanced_techniques/01_testing_react/kanban-app/app/stores/LaneStore.js:5-9 | starts with no lanes |
| AdvTestingLaneStore.LaneStore.Create | project_source/advanced_techniques/01_testing_react/kanban-app/app/stores/LaneStore.js:10-18 | appends `FromDraft(lane)` (notes default to `[]`); a new id with no notes keeps the board well formed |
| AdvTestingLaneStore.LaneStore.Update | project_source/advanced_techniques/01_testing_react/kanban-app/app/stores/LaneStore.js:19-29 | the lanes become `UpdateMerged`; an update without `notes` keeps the board well formed |
| AdvTestingLaneStore.LaneStore.Delete | project_source/advanced_techniques/01_testing_react/kanban-app/app/stores/LaneStore.js:30-34 | the lanes become `DeleteAll`; keeps the board well formed |
| AdvTestingLaneStore.LaneStore.AttachToLane | project_source/advanced_techniques/01_testing_react/kanban-app/app/stores/LaneStore.js:35-49 | the lanes become `AttachEverywhere`; keeps the board well formed |
| AdvTestingLaneStore.LaneStore.DetachFromLane | project_source/advanced_techniques/01_testing_react/kanban-app/app/stores/LaneStore.js:50-60 | the lanes become `DetachFiltered`; keeps the board well formed |
| AdvTestingLaneStore.LaneStore.Move | project_source/advanced_techniques/01_testing_react/kanban-app/app/stores/LaneStore.js:61-86 | TypeError with the state unchanged iff a note is in no lane, else the lanes become `Move(...)`; keeps the board well formed |
| EditingLanesLaneStore.LaneStore.constructor | project_source/implementing_kanban/05_editing_lanes/kanban-app/app/stores/LaneStore.js:4-8 | starts with no lanes |
| EditingLanesLaneStore.LaneStore.Create | project_source/implementing_kanban/05_editing_lanes/kanban-app/app/stores/LaneStore.js:9-17 | appends the lane with notes defaulted to `[]`; the prefix is unchanged |
| EditingLanesLaneStore.LaneStore.Update | project_source/implementing_kanban/05_editing_lanes/kanban-app/app/stores/LaneStore.js:18-28 | the lanes become `UpdateMerged` |
| EditingLanesLaneStore.LaneStore.Delete | project_source/implementing_kanban/05_editing_lanes/kanban-app/app/stores/LaneStore.js:29-33 | the lanes become `DeleteAll`; keeps the board well formed |
| EditingLanesLaneStore.LaneStore.AttachToLane | project_source/implementing_kanban/05_editing_lanes/kanban-app/app/stores/LaneStore.js:34-48 | the lanes become `AttachEverywhere`; keeps the board well formed |
| EditingLanesLaneStore.LaneStore.DetachFromLane | project_source/implementing_kanban/05_editing_lanes/kanban-app/app/stores/LaneStore.js:49-59 | the lanes become `DetachFiltered`; keeps the board well formed |
| TestingLaneStore.LaneStore.constructor | project_source/10_testing_react/kanban_app/app/stores/LaneStore.js:8-12 | starts with no lanes |
| TestingLaneStore.LaneStore.FindLane | project_source/10_testing_react/kanban_app/app/stores/LaneStore.js:111-120 | the first position with the id, or -1 when no lane has it |
| TestingLaneStore.LaneStore.Create | project_source/10_testing_react/kanban_app/app/stores/LaneStore.js:13-22 | appends the lane with the fresh id and notes defaulted to `[]` |
| TestingLaneStore.LaneStore.Update | project_source/10_testing_react/kanban_app/app/stores/LaneStore.js:23-34 | the lanes become `RenameFirst`: unknown id unchanged, else only the found lane's name |
| TestingLaneStore.LaneStore.Delete | project_source/10_testing_react/kanban_app/app/stores/LaneStore.js:35-46 | the lanes become `DeleteFound`; keeps the board well formed |
| TestingLaneStore.LaneStore.RemoveNote | project_source/10_testing_react/kanban_app/app/stores/LaneStore.js:74-88 | the lanes become `RemoveNote`; keeps the board well formed |
| TestingLaneStore.LaneStore.AttachToLane | project_source/10_testing_react/kanban_app/app/stores/LaneStore.js:47-73 | a missing note id takes the last note's id (TypeError when there is none); then `AttachFound`; keeps the board well formed |
| TestingLaneStore.LaneStore.DetachFromLane | project_source/10_testing_react/kanban_app/app/stores/LaneStore.js:89-110 | the lanes become `DetachFound`; keeps the board well formed |
| TestingLaneStore.LaneStore.Move | project_source/10_testing_react/kanban_app/app/stores/LaneStore.js:121-150 | TypeError with the state unchanged iff a note is in no lane, else `Move(...)`; keeps the board well formed |
| PropTypesLaneStore.LaneStore.constructor | project_source/10_typing_with_react/proptypes_app/app/stores/LaneStore.js:9-13 | starts with no lanes |
| PropTypesLaneStore.LaneStore.Create | project_source/10_typing_with_react/proptypes_app/app/stores/LaneStore.js:14-23 | appends the lane with the fresh id and notes defaulted to `[]` |
| PropTypesLaneStore.LaneStore.Update | project_source/10_typing_with_react/proptypes_app/app/stores/LaneStore.js:24-34 | the lanes become `UpdateMerged` |
| PropTypesLaneStore.LaneStore.Delete | project_source/10_typing_with_react/proptypes_app/app/stores/LaneStore.js:35-39 | the lanes become `DeleteAll`; keeps the board well formed |
| PropTypesLaneStore.LaneStore.RemoveNote | project_source/10_typing_with_react/proptypes_app/app/stores/LaneStore.js:64-78 | the lanes become `RemoveNote`; keeps the board well formed |
| PropTypesLaneStore.LaneStore.AttachToLane | project_source/10_typing_with_react/proptypes_app/app/stores/LaneStore.js:40-63 | missing note id from the last note (TypeError when none), then `AttachRemovingAll`; keeps the board well formed |
| PropTypesLaneStore.LaneStore.DetachFromLane | project_source/10_typing_with_react/proptypes_app/app/stores/LaneStore.js:79-89 | the lanes become `DetachFiltered`; keeps the board well formed |
| PropTypesLaneStore.LaneStore.Move | project_source/10_typing_with_react/proptypes_app/app/stores/LaneStore.js:90-119 | TypeError iff a note is in no lane, else `Move(...)`; keeps the board well formed |
| BuildingLaneStore.LaneStore.constructor | project_source/08_building_kanban/kanban_app/app/stores/LaneStore.js:8-12 | starts with no lanes |
| BuildingLaneStore.LaneStore.Create | project_source/08_building_kanban/kanban_app/app/stores/LaneStore.js:13-22 | appends the lane with the fresh id and notes defaulted to `[]` |
| BuildingLaneStore.LaneStore.Update | project_source/08_building_kanban/kanban_app/app/stores/LaneStore.js:23-33 | the lanes become `Renamed`; keeps the board well formed |
| BuildingLaneStore.LaneStore.Delete | project_source/08_building_kanban/kanban_app/app/stores/LaneStore.js:34-38 | the lanes become `DeleteAll`; keeps the board well formed |
| BuildingLaneStore.LaneStore.RemoveNote | project_source/08_building_kanban/kanban_app/app/stores/LaneStore.js:63-77 | the lanes become `RemoveNote`; keeps the board well formed |
| BuildingLaneStore.LaneStore.AttachToLane | project_source/08_building_kanban/kanban_app/app/stores/LaneStore.js:39-62 | missing note id from the last note (TypeError when none), then `AttachRemovingAll`; keeps the board well formed |
| BuildingLaneStore.LaneStore.DetachFromLane | project_source/08_building_kanban/kanban_app/app/stores/LaneStore.js:78-96 | the lanes are unchanged (`DetachByPosition`) |
| BuildingLaneStore.LaneStore.Move | project_source/08_building_kanban/kanban_app/app/stores/LaneStore.js:97-126 | TypeError iff a note is in no lane, else `Move(...)`; keeps the board well formed |
| DndLaneStore.LaneStore.constructor | project_source/07_implementing_dnd/kanban_app/app/stores/LaneStore.js:7-11 | starts with no lanes |
| DndLaneStore.LaneStore.Create | project_source/07_implementing_dnd/kanban_app/app/stores/LaneStore.js:12-20 | appends the lane with notes defaulted to `[]` |
| DndLaneStore.LaneStore.Update | project_source/07_implementing_dnd/kanban_app/app/stores/LaneStore.js:21-28 | TypeError with the state unchanged iff no lane has the id, else `RenameFirst`; keeps the board well formed |
| DndLaneStore.LaneStore.Delete | project_source/07_implementing_dnd/kanban_app/app/stores/LaneStore.js:29-36 | the lanes become `DeleteSliced`; well formed kept only when the lane exists |
| DndLaneStore.LaneStore.RemoveNote | project_source/07_implementing_dnd/kanban_app/app/stores/LaneStore.js:58-72 | the lanes become `RemoveNote`; keeps the board well formed |
| DndLaneStore.LaneStore.AttachToLane | project_source/07_implementing_dnd/kanban_app/app/stores/LaneStore.js:37-57 | the lanes become `AttachRemoving`; keeps the board well formed |
| DndLaneStore.LaneStore.DetachFromLane | project_source/07_implementing_dnd/kanban_app/app/stores/LaneStore.js:73-93 | the lanes become `DetachUnguarded`; a present note loses exactly its first occurrence |
| DndLaneStore.LaneStore.Move | project_source/07_implementing_dnd/kanban_app/app/stores/LaneStore.js:94-125 | TypeError iff a note is in no lane, else `Move(...)`; keeps the board well formed |
| FromNotes06LaneStore.LaneStore.constructor | project_source/06_from_notes_to_kanban/kanban_app/app/stores/LaneStore.js:6-10 | starts with no lanes |
| FromNotes06LaneStore.LaneStore.Create | project_source/06_from_notes_to_kanban/kanban_app/app/stores/LaneStore.js:11-19 | appends the lane with notes defaulted to `[]` |
| FromNotes06LaneStore.LaneStore.Update | project_source/06_from_notes_to_kanban/kanban_app/app/stores/LaneStore.js:20-27 | TypeError iff no lane has the id, else `RenameFirst`; keeps the board well formed |
| FromNotes06LaneStore.LaneStore.Delete | project_source/06_from_notes_to_kanban/kanban_app/app/stores/LaneStore.js:28-35 | the lanes become `DeleteSliced` |
| FromNotes06LaneStore.LaneStore.AttachToLane | project_source/06_from_notes_to_kanban/kanban_app/app/stores/LaneStore.js:36-54 | the lanes become `AttachKeeping` |
| FromNotes06LaneStore.LaneStore.DetachFromLane | project_source/06_from_notes_to_kanban/kanban_app/app/stores/LaneStore.js:55-75 | the lanes become `DetachUnguarded`; a present note loses exactly its first occurrence |
| LintingLaneStore.LaneStore.Init | project_source/10_linting_in_webpack/kanban_app/app/stores/LaneStore.js:8-10 | stored lanes are taken as they are, none gives `[]` |
| LintingLaneStore.LaneStore.Create | project_source/10_linting_in_webpack/kanban_app/app/stores/LaneStore.js:11-19 | appends a lane with the name |
| LintingLaneStore.LaneStore.Update | project_source/10_linting_in_webpack/kanban_app/app/stores/LaneStore.js:20-28 | a position in range gets the name; any other is a TypeError with the state unchanged |
| LintingLaneStore.LaneStore.Remove | project_source/10_linting_in_webpack/kanban_app/app/stores/LaneStore.js:29-35 | `SliceOut` at the position: exactly that lane goes when it is in range |
| StylingLaneStore.LaneStore.Init | project_source/09_styling_react/kanban_app/app/stores/LaneStore.js:8-10 | stored lanes are taken as they are, none gives `[]` |
| StylingLaneStore.LaneStore.Create | project_source/09_styling_react/kanban_app/app/stores/LaneStore.js:11-19 | appends a lane with the name |
| FromNotes08LaneStore.LaneStore.constructor | project_source/08_from_notes_to_kanban/kanban_app/app/stores/LaneStore.js:5-9 | starts with no lanes |
| FromNotes08LaneStore.LaneStore.Create | project_source/08_from_notes_to_kanban/kanban_app/app/stores/LaneStore.js:10-18 | appends one lane whose name is the given one |
| NoteModel.NoteIndex | project_source/10_typing_with_react/proptypes_app/app/stores/NoteStore.js:48-57 | the first note with the id, or -1 when none has it |
| NoteModel.WithId | project_source/10_typing_with_react/flow_app/app/stores/NoteStore.js:43 | every note of the filter has the id and comes from the list |
| NoteModel.WithIdFirst | project_source/10_typing_with_react/flow_app/app/stores/NoteStore.js:41-45 | the filter is empty iff the search fails, and otherwise starts with the found note |
| NoteModel.FindIndexOpt | project_source/10_linting_in_webpack/kanban_app/app/stores/NoteStore.js:70-74 | None (`undefined`) iff no note has the id, else the first position with it |
| NoteModel.Lookup | project_source/10_typing_with_react/flow_app/app/stores/NoteStore.js:43-44 | None iff no note has the id, else a note with the id from the list |
| NoteModel.LookupByPosition | project_source/10_typing_with_react/proptypes_app/app/stores/NoteStore.js:58-60 | `notes[findNote(id)]` answers what the filter answers |
| NoteModel.PatternIndex | project_source/10_polishing_kanban/kanban_app/app/stores/NoteStore.js:52-54 | lodash `findIndex` with a pattern: -1 or the first matching note |
| NoteModel.PatternByIdIsNoteIndex | project_source/10_polishing_kanban/kanban_app/app/stores/NoteStore.js:52-54 | a pattern naming only an id finds what the id search finds |
| NoteModel.IdBagHas | project_source/10_typing_with_react/proptypes_app/app/stores/NoteStore.js:48-57 | an id is in the bag of ids iff the search finds it |
| NoteModel.AppendKeepsUnique | project_source/10_linting_in_webpack/kanban_app/app/stores/NoteStore.js:17-23 | appending a note with a new id keeps ids unique |
| NoteModel.UpdateMerged | project_source/10_typing_with_react/flow_app/app/stores/NoteStore.js:25-35 | the merge keeps the length |
| NoteModel.UpdateMergedEffect | project_source/10_typing_with_react/flow_app/app/stores/NoteStore.js:25-35 | ids never change, other notes are untouched, notes with the id take the patch's task |
| NoteModel.UpdateMergedKeepsIds | project_source/07_implementing_dnd/kanban_app/app/stores/NoteStore.js:26-36 | merging keeps the bag of ids, hence unique ids |
| NoteModel.UpdateMergedIdempotent | project_source/advanced_techniques/02_typing_with_react/flow-app/app/stores/NoteStore.js:14-24 | merging the same patch twice equals merging once |
| NoteModel.SetTaskFound | project_source/10_typing_with_react/proptypes_app/app/stores/NoteStore.js:24-35 | unknown id: unchanged; known: the found note takes the task |
| NoteModel.SetTaskKeepsIds | project_source/10_typing_with_react/proptypes_app/app/stores/NoteStore.js:32 | setting a task keeps the bag of ids |
| NoteModel.SetTaskFoundIsMerge | project_source/10_typing_with_react/proptypes_app/app/stores/NoteStore.js:24-35 | with unique ids, setting the found note's task equals the merging update |
| NoteModel.DeleteAll | project_source/10_typing_with_react/flow_app/app/stores/NoteStore.js:36-40 | the filter leaves no note with the id and never grows the list |
| NoteModel.DeleteAllIds | project_source/10_typing_with_react/flow_app/app/stores/NoteStore.js:36-40 | the filter drops exactly the id from the bag of ids |
| NoteModel.DeleteAllUnknown | project_source/10_typing_with_react/flow_app/app/stores/NoteStore.js:36-40 | an unknown id is a no-op |
| NoteModel.DeleteFound | project_source/10_typing_with_react/proptypes_app/app/stores/NoteStore.js:36-47 | unknown id: unchanged; known: exactly the found note is sliced out |
| NoteModel.DeleteFoundIsDeleteAll | project_source/10_typing_with_react/proptypes_app/app/stores/NoteStore.js:36-47 | with unique ids, slicing out the found note equals the filter |
| NoteModel.DeleteSliced | project_source/06_from_notes_to_kanban/kanban_app/app/stores/NoteStore.js:29-36 | found: as DeleteFound; unknown: every note but the last followed by all notes |
| NoteModel.DeleteSlicedDuplicates | project_source/05_react_and_flux/kanban_app/app/stores/NoteStore.js:26-34 | deleting an unknown id from two or more notes lists the first note twice, so ids are no longer unique |
| NoteModel.DeleteFoundKeepsUnique | project_source/10_typing_with_react/proptypes_app/app/stores/NoteStore.js:36-47 | slicing out the found note keeps ids unique |
| NoteModel.DeleteAllKeepsUnique | project_source/10_typing_with_react/flow_app/app/stores/NoteStore.js:36-40 | the filter keeps ids unique |
| NoteModel.GetEach | project_source/10_typing_with_react/flow_app/app/stores/NoteStore.js:41-45 | one entry per id: the lookup of that id (`undefined` when unknown) |
| NoteModel.GetByPosition | project_source/10_typing_with_react/proptypes_app/app/stores/NoteStore.js:58-60 | one entry per id, by `notes[findNote(id)]` |
| NoteModel.GetByPositionIsGetEach | project_source/10_typing_with_react/proptypes_app/app/stores/NoteStore.js:58-60 | the position-based get answers the same as the filter-based one |
| NoteModel.KnownNotes | project_source/07_implementing_dnd/kanban_app/app/stores/NoteStore.js:42-46 | at most one note per id |
| NoteModel.KnownNotesSound | project_source/07_implementing_dnd/kanban_app/app/stores/NoteStore.js:42-46 | each note answered carries one of the ids and is in the store |
| NoteModel.KnownNotesAreFound | project_source/07_implementing_dnd/kanban_app/app/stores/NoteStore.js:42-46 | dropping empty groups equals the per-id lookup with `undefined` entries removed |
| NoteModel.KnownNotesAllKnown | project_source/07_implementing_dnd/kanban_app/app/stores/NoteStore.js:42-46 | when every id is known, one note per id, in the order of the ids |
| NoteModel.MoveNoteCases | project_source/10_linting_in_webpack/kanban_app/app/stores/NoteStore.js:24-51 | both found: same length, source at the target's position; only target: source inserted; only source: removed; neither: unchanged |
| NoteModel.MoveNoteKeepsUnique | project_source/10_implementing_dnd/kanban_app/app/stores/NoteStore.js:22-53 | every case of the move keeps ids unique |
| NoteModel.MoveNoteOntoItself | project_source/10_linting_in_webpack/kanban_app/app/stores/NoteStore.js:24-38 | dragging a listed note onto itself changes nothing |
| NoteModel.MoveSplicedAgrees | project_source/10_polishing_kanban/kanban_app/app/stores/NoteStore.js:20-39 | with the target found, the polished move equals the earlier move |
| NoteModel.MoveSplicedLength | project_source/10_polishing_kanban/kanban_app/app/stores/NoteStore.js:20-39 | length kept when the source is listed, one more otherwise; the source is always in the result; an unknown target puts it before the last note |
| NoteModel.MoveSplicedKeepsUnique | project_source/10_polishing_kanban/kanban_app/app/stores/NoteStore.js:20-39 | the polished move keeps ids unique, also with an unknown target |
| NoteModel.RemoveResolved | project_source/10_polishing_kanban/kanban_app/app/stores/NoteStore.js:49-63 | a negative position (or unmatched pattern) is a no-op; otherwise exactly that note is sliced out |
| NoteModel.Migrate | project_source/10_linting_in_webpack/kanban_app/app/stores/NoteStore.js:76-89 | same length, every task kept, every note that has an id unchanged |
| NoteModel.MigrateFillsIds | project_source/10_linting_in_webpack/kanban_app/app/stores/NoteStore.js:79-85 | with non-empty fresh ids, every migrated note has an id |
| NoteModel.MigrateIdempotent | project_source/10_polishing_kanban/kanban_app/app/stores/NoteStore.js:66-79 | migrating migrated notes changes nothing, whatever ids a second run would draw |
| NoteModel.MigrateKeepsIdentified | project_source/10_implementing_dnd/kanban_app/app/stores/NoteStore.js:72-85 | notes that all carry ids come through unchanged |
| LintingNoteStore.NoteStore.Init | project_source/10_linting_in_webpack/kanban_app/app/stores/NoteStore.js:12-16 | stored notes are migrated; anything else gives `[]` |
| LintingNoteStore.NoteStore.Create | project_source/10_linting_in_webpack/kanban_app/app/stores/NoteStore.js:17-23 | appends `{task, id}` with the fresh id; a new id keeps ids unique |
| LintingNoteStore.NoteStore.Move | project_source/10_linting_in_webpack/kanban_app/app/stores/NoteStore.js:24-51 | the notes become `MoveNote(old, source, target.id)`; keeps ids unique |
| LintingNoteStore.NoteStore.Update | project_source/10_linting_in_webpack/kanban_app/app/stores/NoteStore.js:52-60 | a position in range takes the task; any other is a TypeError, state unchanged |
| LintingNoteStore.NoteStore.Remove | project_source/10_linting_in_webpack/kanban_app/app/stores/NoteStore.js:61-67 | `SliceOut` at the position: exactly that note goes when it is in range |
| ImplementingDndNoteStore.NoteStore.Init | project_source/10_implementing_dnd/kanban_app/app/stores/NoteStore.js:12-14 | no data gives `[]`; `notes` not an array is a TypeError; stored notes are migrated |
| ImplementingDndNoteStore.NoteStore.Create | project_source/10_implementing_dnd/kanban_app/app/stores/NoteStore.js:15-21 | appends `{task, id}` with the fresh id; a new id keeps ids unique |
| ImplementingDndNoteStore.NoteStore.Move | project_source/10_implementing_dnd/kanban_app/app/stores/NoteStore.js:22-53 | the notes become `MoveNote(old, source, target.id)`; keeps ids unique |
| ImplementingDndNoteStore.NoteStore.Update | project_source/10_implementing_dnd/kanban_app/app/stores/NoteStore.js:54-62 | a position in range takes the task; any other is a TypeError, state unchanged |
| ImplementingDndNoteStore.NoteStore.Remove | project_source/10_implementing_dnd/kanban_app/app/stores/NoteStore.js:63-69 | `SliceOut` at the position |
| PolishingNoteStore.NoteStore.Init | project_source/10_polishing_kanban/kanban_app/app/stores/NoteStore.js:10-12 | no data gives `[]`; `notes` not an array is a TypeError; stored notes are migrated |
| PolishingNoteStore.NoteStore.Create | project_source/10_polishing_kanban/kanban_app/app/stores/NoteStore.js:13-19 | appends `{task, id}` with the fresh id; a new id keeps ids unique |
| PolishingNoteStore.NoteStore.Move | project_source/10_polishing_kanban/kanban_app/app/stores/NoteStore.js:20-39 | the notes become `MoveSpliced(old, source, target.id)`; keeps ids unique |
| PolishingNoteStore.NoteStore.Update | project_source/10_polishing_kanban/kanban_app/app/stores/NoteStore.js:40-48 | a position in range takes the task; any other is a TypeError, state unchanged |
| PolishingNoteStore.NoteStore.Remove | project_source/10_polishing_kanban/kanban_app/app/stores/NoteStore.js:49-63 | the notes become `RemoveResolved`; keeps ids unique |
| PropTypesNoteStore.NoteStore.constructor | project_source/10_typing_with_react/proptypes_app/app/stores/NoteStore.js:6-14 | starts with no notes |
| PropTypesNoteStore.NoteStore.Create | project_source/10_typing_with_react/proptypes_app/app/stores/NoteStore.js:15-23 | appends the note with the fresh id; a new id keeps ids unique |
| PropTypesNoteStore.NoteStore.FindNote | project_source/10_typing_with_react/proptypes_app/app/stores/NoteStore.js:48-57 | the first position with the id, or -1 |
| PropTypesNoteStore.NoteStore.Update | project_source/10_typing_with_react/proptypes_app/app/stores/NoteStore.js:24-35 | the notes become `SetTaskFound`; keeps ids unique |
| PropTypesNoteStore.NoteStore.Delete | project_source/10_typing_with_react/proptypes_app/app/stores/NoteStore.js:36-47 | the notes become `DeleteFound`; keeps ids unique |
| PropTypesNoteStore.NoteStore.Get | project_source/10_typing_with_react/proptypes_app/app/stores/NoteStore.js:58-60 | one entry per id (none given: `[]`), each the lookup of that id |
| FlowNoteStore.NoteStore.constructor | project_source/10_typing_with_react/flow_app/app/stores/NoteStore.js:7-15 | starts with no notes |
| FlowNoteStore.NoteStore.Create | project_source/10_typing_with_react/flow_app/app/stores/NoteStore.js:16-24 | appends the note with the fresh id; a new id keeps ids unique |
| FlowNoteStore.NoteStore.Update | project_source/10_typing_with_react/flow_app/app/stores/NoteStore.js:25-35 | the notes become `UpdateMerged`; keeps ids unique |
| FlowNoteStore.NoteStore.Delete | project_source/10_typing_with_react/flow_app/app/stores/NoteStore.js:36-40 | the notes become `DeleteAll`; keeps ids unique |
| FlowNoteStore.NoteStore.Get | project_source/10_typing_with_react/flow_app/app/stores/NoteStore.js:41-45 | one entry per id (none given: `[]`), each the lookup of that id |
| DndNoteStore.NoteStore.constructor | project_source/07_implementing_dnd/kanban_app/app/stores/NoteStore.js:6-14 | starts with no notes |
| DndNoteStore.NoteStore.Create | project_source/07_implementing_dnd/kanban_app/app/stores/NoteStore.js:15-25 | appends the note with the fresh id and answers it; keeps ids unique for a new id |
| DndNoteStore.NoteStore.Update | project_source/07_implementing_dnd/kanban_app/app/stores/NoteStore.js:26-36 | the notes become `UpdateMerged`; keeps ids unique |
| DndNoteStore.NoteStore.Delete | project_source/07_implementing_dnd/kanban_app/app/stores/NoteStore.js:37-41 | the notes become `DeleteAll`; keeps ids unique |
| DndNoteStore.NoteStore.GetNotesByIds | project_source/07_implementing_dnd/kanban_app/app/stores/NoteStore.js:42-46 | the found entries of the per-id lookup: at most one per id, each with a listed id and from the store |
| FromNotes06NoteStore.NoteStore.constructor | project_source/06_from_notes_to_kanban/kanban_app/app/stores/NoteStore.js:5-13 | starts with no notes |
| FromNotes06NoteStore.NoteStore.Create | project_source/06_from_notes_to_kanban/kanban_app/app/stores/NoteStore.js:14-20 | appends the note |
| FromNotes06NoteStore.NoteStore.Update | project_source/06_from_notes_to_kanban/kanban_app/app/stores/NoteStore.js:21-28 | TypeError with the state unchanged iff no note has the id, else `SetTaskFound` |
| FromNotes06NoteStore.NoteStore.Delete | project_source/06_from_notes_to_kanban/kanban_app/app/stores/NoteStore.js:29-36 | the notes become `DeleteSliced` |
| FromNotes06NoteStore.NoteStore.Get | project_source/06_from_notes_to_kanban/kanban_app/app/stores/NoteStore.js:37-46 | no ids: `[]`; else one entry per id, the lookup of that id |
| AdvFlowNoteStore.NoteStore.constructor | project_source/advanced_techniques/02_typing_with_react/flow-app/app/stores/NoteStore.js:4-8 | starts with no notes |
| AdvFlowNoteStore.NoteStore.Create | project_source/advanced_techniques/02_typing_with_react/flow-app/app/stores/NoteStore.js:9-13 | appends the note; a new id keeps ids unique |
| AdvFlowNoteStore.NoteStore.Update | project_source/advanced_techniques/02_typing_with_react/flow-app/app/stores/NoteStore.js:14-24 | the notes become `UpdateMerged`; keeps ids unique |
| AdvFlowNoteStore.NoteStore.Delete | project_source/advanced_techniques/02_typing_with_react/flow-app/app/stores/NoteStore.js:25-29 | the notes become `DeleteAll`; keeps ids unique |
| ReactFlux05NoteStore.NoteStore.constructor | project_source/05_react_and_flux/kanban_app/app/stores/NoteStore.js:6-10 | starts with no notes |
| ReactFlux05NoteStore.NoteStore.Create | project_source/05_react_and_flux/kanban_app/app/stores/NoteStore.js:11-17 | appends the note |
| ReactFlux05NoteStore.NoteStore.Update | project_source/05_react_and_flux/kanban_app/app/stores/NoteStore.js:18-25 | TypeError iff no note has the id, else `SetTaskFound` |
| ReactFlux05NoteStore.NoteStore.Delete | project_source/05_react_and_flux/kanban_app/app/stores/NoteStore.js:26-34 | the notes become `DeleteSliced` |
| Building08NoteStore.NoteStore.constructor | project_source/08_building_kanban/kanban_app/app/stores/NoteStore.js:6-10 | starts with no notes |
| Building08NoteStore.NoteStore.Create | project_source/08_building_kanban/kanban_app/app/stores/NoteStore.js:11-17 | appends the note |
| Building08NoteStore.NoteStore.Update | project_source/08_building_kanban/kanban_app/app/stores/NoteStore.js:18-25 | TypeError iff no note has the id, else `SetTaskFound` |
| Building08NoteStore.NoteStore.Delete | project_source/08_building_kanban/kanban_app/app/stores/NoteStore.js:26-33 | the notes become `DeleteSliced` |
| ReactFlux07NoteStore.NoteStore.Init | project_source/07_react_and_flux/kanban_app/app/stores/NoteStore.js:8-10 | stored notes taken as they are, none gives `[]` |
| ReactFlux07NoteStore.NoteStore.Create | project_source/07_react_and_flux/kanban_app/app/stores/NoteStore.js:11-17 | appends `{task}` |
| ReactFlux07NoteStore.NoteStore.Update | project_source/07_react_and_flux/kanban_app/app/stores/NoteStore.js:18-26 | a position in range takes the task; any other is a TypeError, state unchanged |
| ReactFlux07NoteStore.NoteStore.Remove | project_source/07_react_and_flux/kanban_app/app/stores/NoteStore.js:27-33 | `SliceOut` at the position: exactly that note goes when it is in range |
| FromNotes07NoteStore.NoteStore.Init | project_source/07_from_notes_to_kanban/kanban_app/app/stores/NoteStore.js:5-9 | stored notes when `notes` is an array, else `[]` |
| FromNotes07NoteStore.NoteStore.Create | project_source/07_from_notes_to_kanban/kanban_app/app/stores/NoteStore.js:10-16 | appends `{task}` |
| FromNotes07NoteStore.NoteStore.Update | project_source/07_from_notes_to_kanban/kanban_app/app/stores/NoteStore.js:17-23 | a position in range takes the task; any other is a TypeError, state unchanged |
| FromNotes07NoteStore.NoteStore.Remove | project_source/07_from_notes_to_kanban/kanban_app/app/stores/NoteStore.js:24-30 | `SliceOut` at the position: exactly that note goes when it is in range |
| ReactFlux06NoteStore.NoteStore.Init | project_source/06_react_and_flux/kanban_app/app/stores/NoteStore.js:9-11 | stored notes taken as they are, none gives `[]` |
| ReactFlux06NoteStore.NoteStore.Create | project_source/06_react_and_flux/kanban_app/app/stores/NoteStore.js:12-14 | appends `{task}` |
| ReactFlux06NoteStore.NoteStore.Update | project_source/06_react_and_flux/kanban_app/app/stores/NoteStore.js:15-17 | a position in range takes the task; any other is a TypeError, state unchanged |
| ReactFlux06NoteStore.NoteStore.Remove | project_source/06_react_and_flux/kanban_app/app/stores/NoteStore.js:18-24 | `SliceOut` at the position: exactly that note goes when it is in range |
| FromNotes08NoteStore.NoteStore.constructor | project_source/08_from_notes_to_kanban/kanban_app/app/stores/NoteStore.js:2-6 | starts with no notes |
| FromNotes08NoteStore.NoteStore.Create | project_source/08_from_notes_to_kanban/kanban_app/app/stores/NoteStore.js:7-13 | appends `{task}` |
| FromNotes08NoteStore.NoteStore.Update | project_source/08_from_notes_to_kanban/kanban_app/app/stores/NoteStore.js:14-22 | a position in range takes the task; any other is a TypeError, state unchanged |
| FromNotes08NoteStore.NoteStore.Remove | project_source/08_from_notes_to_kanban/kanban_app/app/stores/NoteStore.js:23-29 | `SliceOut` at the position |
| ReactFlux06RootTodoStore.TodoStore.constructor | project_source/06_react_and_flux/kanban_app/app/TodoStore.js:6-14 | starts with no todos |
| ReactFlux06RootTodoStore.TodoStore.CreateTodo | project_source/06_react_and_flux/kanban_app/app/TodoStore.js:15-21 | appends the todo |
| ReactFlux06RootTodoStore.TodoStore.UpdateTodo | project_source/06_react_and_flux/kanban_app/app/TodoStore.js:22-28 | a position in range takes the task; any other is a TypeError, state unchanged |
| ReactFlux06RootTodoStore.TodoStore.RemoveTodo | project_source/06_react_and_flux/kanban_app/app/TodoStore.js:29-35 | `SliceOut`: in range, exactly that todo goes and the length drops by one |
| ReactFlux06TodoStore.TodoStore.Init | project_source/06_react_and_flux/kanban_app/app/stores/TodoStore.js:9-11 | stored todos taken as they are, none gives `[]` |
| ReactFlux06TodoStore.TodoStore.CreateTodo | project_source/06_react_and_flux/kanban_app/app/stores/TodoStore.js:12-14 | appends the todo |
| ReactFlux06TodoStore.TodoStore.UpdateTodo | project_source/06_react_and_flux/kanban_app/app/stores/TodoStore.js:15-17 | a position in range takes the task; any other is a TypeError, state unchanged |
| ReactFlux06TodoStore.TodoStore.RemoveTodo | project_source/06_react_and_flux/kanban_app/app/stores/TodoStore.js:18-24 | `SliceOut` at the position |
| TodoKanbanAppStore.AppStore.Init | project_source/07_from_todo_to_kanban/kanban_app/app/stores/AppStore.js:8-10 | stored lanes taken as they are, none gives `[]` |
| TodoKanbanAppStore.AppStore.CreateLane | project_source/07_from_todo_to_kanban/kanban_app/app/stores/AppStore.js:11-18 | appends a lane named "New lane" with no todos, whatever the argument |
| TodoKanbanAppStore.AppStore.CreateTodo | project_source/07_from_todo_to_kanban/kanban_app/app/stores/AppStore.js:19-23 | lane in range: its todos get the todo appended; otherwise TypeError, state unchanged |
| TodoKanbanAppStore.AppStore.UpdateTodo | project_source/07_from_todo_to_kanban/kanban_app/app/stores/AppStore.js:24-26 | lane and todo in range: that todo takes the task; otherwise TypeError, state unchanged |
| TodoKanbanAppStore.AppStore.RemoveTodo | project_source/07_from_todo_to_kanban/kanban_app/app/stores/AppStore.js:27-31 | lane in range: its todos become `SliceOut`; otherwise TypeError, state unchanged |
| ImplementingNotes04App.App.constructor | project_source/04_implementing_notes/kanban_app/app/components/App.jsx:9-24 | three notes with the given ids and the tasks of the initial state |
| ImplementingNotes04App.App.AddItem | project_source/04_implementing_notes/kanban_app/app/components/App.jsx:39-46 | appends `{id, task: "New task"}`; a new id keeps ids unique |
| ImplementingNotes04App.App.ItemEdited | project_source/04_implementing_notes/kanban_app/app/components/App.jsx:47-63 | unknown id: unchanged; non-empty task: `SetTaskFound`; empty task: `DeleteFound`; keeps ids unique |
| ImplementingNotes05App.App.constructor | project_source/05_implementing_notes/kanban_app/app/components/App.jsx:11-23 | the three initial `{task}` notes |
| ImplementingNotes05App.App.AddItem | project_source/05_implementing_notes/kanban_app/app/components/App.jsx:35-41 | appends `{task: "New task"}` |
| ImplementingNotes05App.App.ItemEdited | project_source/05_implementing_notes/kanban_app/app/components/App.jsx:42-55 | non-empty task: the position takes it (TypeError out of range); empty task: `SliceOut` |
| ImplementingTodo05App.App.constructor | project_source/05_implementing_todo/kanban_app/app/App.jsx:9-17 | the three initial todos |
| ImplementingTodo05App.App.AddItem | project_source/05_implementing_todo/kanban_app/app/App.jsx:29-35 | appends `{task: "New task"}` |
| ImplementingTodo05App.App.ItemEdited | project_source/05_implementing_todo/kanban_app/app/App.jsx:36-49 | non-empty task: the position takes it (TypeError out of range); empty task: `SliceOut` |
| ImplementingTodo05TodoApp.TodoApp.constructor | project_source/05_implementing_todo/kanban_app/app/TodoApp.jsx:9-17 | the three initial todos |
| ImplementingTodo05TodoApp.TodoApp.AddItem | project_source/05_implementing_todo/kanban_app/app/TodoApp.jsx:35-41 | appends `{task: "New task"}` |
| ImplementingTodo05TodoApp.TodoApp.ItemEdited | project_source/05_implementing_todo/kanban_app/app/TodoApp.jsx:42-55 | non-empty task: the position takes it (TypeError out of range); empty task: `SliceOut` |
| LaneView.Groups | project_source/implementing_kanban/06_drag_and_drop/kanban-app/app/components/Lane.jsx:85-96 | every note shown carries one of the ids and is one of the store's notes |
| LaneView.GatherIsGroups | project_source/implementing_kanban/06_drag_and_drop/kanban-app/app/components/Lane.jsx:85-96 | the `reduce` fold equals the accumulator followed by the groups of the ids |
| LaneView.SelectNotesByIdsShowsListed | project_source/implementing_kanban/05_editing_lanes/kanban-app/app/components/Lane.jsx:82-93 | no ids (the default) show nothing; every note shown has a listed id and is in the store |
| LaneView.WithIdCount | project_source/implementing_kanban/06_drag_and_drop/kanban-app/app/components/Lane.jsx:91-93 | the group of an id holds every note carrying it |
| LaneView.GroupsCount | project_source/implementing_kanban/06_drag_and_drop/kanban-app/app/components/Lane.jsx:85-96 | the number of notes shown is the sum over the ids of the notes carrying each |
| LaneView.WithIdUnique | project_source/implementing_kanban/06_drag_and_drop/kanban-app/app/components/Lane.jsx:91-93 | with unique note ids a group is the found note or nothing |
| LaneView.SelectIsKnownNotes | project_source/implementing_kanban/06_drag_and_drop/kanban-app/app/components/Lane.jsx:85-96 | with unique note ids the lane shows what `getNotesByIds` answers |
| LaneView.GroupsAreKnown | project_source/implementing_kanban/05_editing_lanes/kanban-app/app/components/Lane.jsx:82-93 | with unique note ids the groups are the known notes |
| NotesView.Lift | project_source/08_polishing_kanban/kanban_app/app/components/Notes.jsx:53-56 | every note becomes a defined value, same length |
| NotesView.SwapPermutes | project_source/08_polishing_kanban/kanban_app/app/components/Notes.jsx:53-56 | the swap keeps the multiset of notes |
| NotesView.SwapTwice | project_source/08_polishing_kanban/kanban_app/app/components/Notes.jsx:53-56 | swapping twice restores the list; swapping a position with itself is a no-op |
| NotesView.ItemMoved | project_source/08_polishing_kanban/kanban_app/app/components/Notes.jsx:43-79 | two different positions in range: the new list is the swap; one position: its note twice |
| Template.WordRun | project_source/08_building_kanban/kanban_app/webpack.config.babel.js:113 | the longest prefix of `\w` characters |
| Template.RenderPlaceholder | project_source/08_building_kanban/kanban_app/webpack.config.babel.js:113-116 | a `%key%` becomes its truthy value or stays as written, and the rest renders after it |
| Template.RenderPlainText | project_source/08_building_kanban/kanban_app/webpack.config.babel.js:113 | text without `%` is unchanged |
| Template.RenderAfterPlainText | project_source/08_building_kanban/kanban_app/webpack.config.babel.js:113 | text without `%` before a template is kept and the template renders after it |
| Template.RenderNeutral | project_source/08_building_kanban/kanban_app/webpack.config.babel.js:116 | replacements that are all falsy (or the placeholder itself) leave every template unchanged |
| Template.ReplacementNotRescanned | project_source/08_building_kanban/kanban_app/webpack.config.babel.js:113-116 | an inserted value appears as it is, even when it holds placeholders |
| Template.ClosingPercentConsumed | project_source/08_building_kanban/kanban_app/webpack.config.babel.js:113 | after a placeholder `%a%` that stays, its closing `%` cannot open `%b%`: `b` is kept as written whatever its replacement |
| BuildAll.Split | project_source/build_all.js:37 | `split('_')`: at least one piece, none holding the separator |
| BuildAll.JoinSplit | project_source/build_all.js:42 | joining the pieces of a split gives back the string |
| BuildAll.Dashes | project_source/build_all.js:41-42 | `replace(/_/g, '-')`: same length, every `_` turned into `-`, no `_` left |
| BuildAll.DigitsValueNonZero | project_source/build_all.js:37 | a digit string has a non-zero value iff one of its digits is not `0` |
| BuildAll.ParsesNonZeroDigits | project_source/build_all.js:36-38 | an entry is kept iff its leading number has a digit other than `0` |
| BuildAll.LeadingSegmentOf | project_source/build_all.js:37 | the leading segment of `prefix_rest` is `prefix` |
| BuildAll.ChapterNameDropsLeadingSegment | project_source/build_all.js:42 | the chapter name drops the leading segment and the first `_`, is empty without `_`, and holds no `_` |
| BuildAll.ChapterEntries | project_source/build_all.js:36-38 | the kept entries are chapter entries from the listing |
| BuildAll.Existing | project_source/build_all.js:50-52 | the kept builds have an existing input path and come from the list |
| BuildAll.PartChaptersIsSelect | project_source/build_all.js:36-52 | filter, map and filter again equal a one-pass selection |
| BuildAll.SelectSound | project_source/build_all.js:36-52 | every build comes from a listed chapter entry whose app directory exists |
| BuildAll.SelectComplete | project_source/build_all.js:36-52 | every listed chapter entry whose app directory exists gives a build |
| BuildAll.GetChaptersConcat | project_source/build_all.js:35 | the builds of a list of parts are those of its first parts followed by the rest |
| BuildAll.GetChaptersShape | project_source/build_all.js:34-54 | each build's part is listed, its input exists, its name has no `_`, its output is `builds/<part>/<chapter>` |

## Left out

- Rendering, JSX, the alt dispatcher and action creators, drag-and-drop monitors, and `console.warn` messages are not modelled. Only the list logic of the handlers is.
- Persistence (`localStorage`, alt's bootstrap and snapshot) is not modelled. What `init` receives is a parameter.
- `uuid.v4()` is not modelled. Fresh ids are parameters, and the invariant lemmas assume a fresh id is not yet in use.
- Update in place and aliasing are not captured. The handlers mutate lane and note objects that the previous state also references (`lane.notes.push`, `lanes[i].name = ...`, `lane.id = uuid.v4()` on the caller's object). The model works on values, so it captures the new state but not that old references see the change.
- The `waitFor(NoteStore)` in `attachToLane` is not modelled. The id of the NoteStore's last note becomes the parameter `lastNoteId`; None stands for an empty NoteStore, which throws.
- A merging `update` handles only the fields a record has here (`name` and `notes` of a lane, `task` of a note). Other fields a caller might pass are not modelled.
- Positions are modelled as integers only. JavaScript positions given as strings or fractions, and `undefined` positions, are not.
- `init` in 06_react_and_flux and 07_react_and_flux is modelled only for data that holds a list or is absent. Data that is present but lacks `notes` is not modelled.
- `renderTemplate` returns a thunk. The model is the thunk's result.
- Template.Truthy: keys inherited from `Object.prototype` (such as `constructor`) are truthy in JavaScript. The model only sees the keys of the replacement map.
- Template.Render: replacement values are strings; other JavaScript values are not modelled.
- `main` of the build script is not modelled: webpack runs and `async.eachLimit` concurrency.
- BuildAll.GetChapters: the directory listing (`readdirSync`, relative to the working directory) and `existsSync` are parameters.
- BuildAll.JoinPath joins with `/` and does not normalise, unlike `path.join`.
- BuildAll.ParsesNonZero skips only ASCII whitespace before the number, where `parseInt` skips Unicode whitespace as well. It treats every digit string with a non-zero digit as truthy; JavaScript agrees, since even a value that overflows to `Infinity` is truthy.
- NotesView.ItemMoved: `newNotes` is never stored, because the cursor update is commented out. The component's state is therefore unchanged, and the model only computes the value.
- `findIndex(arr, 'id', x)` from `../libs/find_index`, imported by 06_from_notes_to_kanban and 07_implementing_dnd `LaneStore.js` and by 08_building_kanban `NoteStore.js`, is not part of this model. DndLaneStore, FromNotes06LaneStore and Building08NoteStore give it the contract "the first position whose `id` is `x`, or -1", the contract the stores' own `< 0` guards expect. If it answered `undefined` on a miss, the way the `o && arr.indexOf(o)` helper in 10_linting_in_webpack `NoteStore.js` does, then `attachToLane` and `detachFromLane` to an unknown lane would throw. The 07_implementing_dnd `attachToLane` would throw after `removeNote` had already changed the board. `delete` of an unknown id would give the whole board twice instead of the board in the Findings table.
- JsArray.Splice states only the in-range case and start -1. Other negative or too-large starts are computed by the function with JavaScript's clamping, but its contract does not describe them.
- DndLaneStore.LaneStore.Delete and FromNotes06LaneStore.LaneStore.Delete keep the board well formed only when the lane exists (see Findings).
- FromNotes06LaneStore.LaneStore.AttachToLane and FromNotes06LaneStore.LaneStore.DetachFromLane do not promise to keep the board well formed (see Findings).

## Findings

| source | as written | input that shows it | evidently intended | confidence | as-written member | corrected member |
|---|---|---|---|---|---|---|
| project_source/07_implementing_dnd/kanban_app/app/stores/LaneStore.js:29-36 | `delete` slices at the unchecked result of `findIndex` | lanes `a:[n]`, `b:[]`, delete `x`: the board becomes `a:[n]`, `a:[n]`, `b:[]`, and note `n` is in two lanes | an unknown lane is a no-op, as in 10_testing_react | not executed | LaneModel.DeleteSlicedDuplicates | LaneModel.DeleteFoundKeepsWellFormed |
| project_source/07_implementing_dnd/kanban_app/app/stores/LaneStore.js:83-86 | the guard looks up the position `removeId` among the note ids, so it always passes | lane `a:[p, q]`, detach `x`: the lane becomes `[p, p, q]` | an absent note is a no-op, as in 10_testing_react | not executed | LaneModel.DetachUnguardedDuplicates | LaneModel.DetachFoundKeepsBoard |
| project_source/08_building_kanban/kanban_app/app/stores/LaneStore.js:84-86 | the filter compares `note.id` of a note id string with a position | lane `a:[n]`, detach `n`: the lane still lists `n` | every occurrence of the note is removed, as in advanced_techniques/01_testing_react | not executed | LaneModel.DetachByPositionKeepsNote | LaneModel.DetachUndoesAttach |
| project_source/06_from_notes_to_kanban/kanban_app/app/stores/LaneStore.js:36-54 | `attachToLane` does not take the note out of its old lane | lanes `a:[n]`, `b:[]`, attach `n` to `b`: `n` is in both lanes | a note belongs to a single lane, as the comment in implementing_kanban/06_drag_and_drop `Lane.jsx` states; in this snapshot the only caller, `addNote` in `Lane.jsx`, attaches a freshly created note, so the split needs a caller that only a later snapshot has | not executed | LaneModel.AttachKeepingSplitsNote | LaneModel.AttachFoundHomesNote |
| project_source/05_react_and_flux/kanban_app/app/stores/NoteStore.js:26-34 | `delete` slices at the unchecked result of `findIndex` | notes `a`, `b`, delete `x`: the list becomes `a`, `a`, `b` | an unknown id is a no-op, as in 10_typing_with_react/proptypes_app | not executed | NoteModel.DeleteSlicedDuplicates | NoteModel.DeleteFoundKeepsUnique |
