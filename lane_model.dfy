/**
 * Lanes of the kanban board as values, and the list operations that the lane
 * stores of the book's successive versions apply to them.
 *
 * A lane lists the ids of its notes. The board invariant the lane stores aim
 * for is that a note belongs to at most one lane; `NotesUnique` states the
 * slightly stronger form the operations actually keep: every note id is
 * referenced at most once on the whole board.
 */
module LaneModel {
  import opened JsArray

  type NoteId = string
  type LaneId = string

  datatype Lane = Lane(id: LaneId, name: string, notes: seq<NoteId>)

  /** The payload of a create action: `notes` may be missing. */
  datatype LaneDraft = LaneDraft(id: LaneId, name: string, notes: Option<seq<NoteId>>)

  /** A lane of the early stores, which only have a name. */
  datatype NamedLane = NamedLane(name: string)

  /** The payload of an update action: the fields it carries besides `id`. */
  datatype LanePatch = LanePatch(id: LaneId, name: Option<string>, notes: Option<seq<NoteId>>)

  /** `lane.notes = lane.notes || []` */
  function FromDraft(d: LaneDraft): Lane
  {
    Lane(d.id, d.name, if d.notes.Some? then d.notes.value else [])
  }

  // ---------------------------------------------------------------------
  // Searching

  /** `findIndex` by id: the first lane with id `id`, or -1. */
  function LaneIndex(lanes: seq<Lane>, id: LaneId): (r: int)
    ensures -1 <= r < |lanes|
    ensures r == -1 ==> forall k :: 0 <= k < |lanes| ==> lanes[k].id != id
    ensures 0 <= r ==> lanes[r].id == id && forall k :: 0 <= k < r ==> lanes[k].id != id
  {
    if lanes == [] then -1
    else if lanes[0].id == id then 0
    else
      var k := LaneIndex(lanes[1..], id);
      if k == -1 then -1 else k + 1
  }

  /** `lanes.filter(lane => lane.notes.indexOf(n) >= 0)[0]`, as a position: the first lane listing `n`, or -1. */
  function HolderIndex(lanes: seq<Lane>, n: NoteId): (r: int)
    ensures -1 <= r < |lanes|
    ensures r == -1 ==> forall k :: 0 <= k < |lanes| ==> n !in lanes[k].notes
    ensures 0 <= r ==> n in lanes[r].notes && forall k :: 0 <= k < r ==> n !in lanes[k].notes
  {
    if lanes == [] then -1
    else if IndexOf(lanes[0].notes, n) >= 0 then 0
    else
      var k := HolderIndex(lanes[1..], n);
      if k == -1 then -1 else k + 1
  }

  // ---------------------------------------------------------------------
  // The board invariant

  /** Every note reference on the board, with multiplicity. */
  function Refs(lanes: seq<Lane>): multiset<NoteId>
  {
    if lanes == [] then multiset{} else multiset(lanes[0].notes) + Refs(lanes[1..])
  }

  /** Every note id is referenced at most once on the board. */
  ghost predicate NotesUnique(lanes: seq<Lane>)
  {
    forall n :: Refs(lanes)[n] <= 1
  }

  /** A note belongs to at most one lane. */
  ghost predicate SingleHomed(lanes: seq<Lane>)
  {
    forall i, j, n :: 0 <= i < |lanes| && 0 <= j < |lanes| && n in lanes[i].notes && n in lanes[j].notes ==> i == j
  }

  /** No two lanes share an id. */
  ghost predicate UniqueIds(lanes: seq<Lane>)
  {
    forall i, j :: 0 <= i < j < |lanes| ==> lanes[i].id != lanes[j].id
  }

  lemma {:induction false} RefsConcat(a: seq<Lane>, b: seq<Lane>)
    ensures Refs(a + b) == Refs(a) + Refs(b)
  {
    if a == [] {
      assert a + b == b;
    } else {
      assert (a + b)[0] == a[0];
      assert (a + b)[1..] == a[1..] + b;
      RefsConcat(a[1..], b);
    }
  }

  lemma {:induction false} RefsOne(l: Lane)
    ensures Refs([l]) == multiset(l.notes)
  {
    assert [l][1..] == [];
  }

  /** The references of a board are those before lane `i`, those of lane `i`, and those after it. */
  lemma {:induction false} RefsAt(lanes: seq<Lane>, i: int)
    requires 0 <= i < |lanes|
    ensures Refs(lanes) == Refs(lanes[..i]) + multiset(lanes[i].notes) + Refs(lanes[i + 1..])
  {
    assert lanes == lanes[..i] + [lanes[i]] + lanes[i + 1..];
    RefsConcat(lanes[..i] + [lanes[i]], lanes[i + 1..]);
    RefsConcat(lanes[..i], [lanes[i]]);
    RefsOne(lanes[i]);
  }

  /** Replacing one lane trades its references for the new lane's. */
  lemma {:induction false} RefsUpdate(lanes: seq<Lane>, k: int, l: Lane)
    requires 0 <= k < |lanes|
    ensures Refs(lanes[k := l]) + multiset(lanes[k].notes) == Refs(lanes) + multiset(l.notes)
  {
    var updated := lanes[k := l];
    RefsAt(lanes, k);
    RefsAt(updated, k);
    assert updated[..k] == lanes[..k];
    assert updated[k + 1..] == lanes[k + 1..];
  }

  /** The same trade, counted for one note. */
  lemma {:induction false} RefsUpdateCount(lanes: seq<Lane>, k: int, l: Lane, m: NoteId)
    requires 0 <= k < |lanes|
    ensures Refs(lanes[k := l])[m] + multiset(lanes[k].notes)[m] == Refs(lanes)[m] + multiset(l.notes)[m]
  {
    RefsUpdate(lanes, k, l);
    assert (Refs(lanes[k := l]) + multiset(lanes[k].notes))[m] == (Refs(lanes) + multiset(l.notes))[m];
  }

  /** Replacing a lane by one listing the same notes, in any order, keeps the board's references. */
  lemma {:induction false} RefsReplaceSame(lanes: seq<Lane>, k: int, l: Lane)
    requires 0 <= k < |lanes| && multiset(l.notes) == multiset(lanes[k].notes)
    ensures Refs(lanes[k := l]) == Refs(lanes)
  {
    forall m ensures Refs(lanes[k := l])[m] == Refs(lanes)[m] {
      RefsUpdateCount(lanes, k, l, m);
    }
  }

  /** A lane's references are part of the board's. */
  lemma {:induction false} ListedIsReferenced(lanes: seq<Lane>, i: int, m: NoteId)
    requires 0 <= i < |lanes|
    ensures multiset(lanes[i].notes)[m] <= Refs(lanes)[m]
  {
    RefsAt(lanes, i);
  }

  /** Cancelling one copy of `n` on both sides of a multiset equation. */
  lemma {:induction false} CancelOne(a: multiset<NoteId>, b: multiset<NoteId>, c: multiset<NoteId>, n: NoteId)
    requires a + c == b + (c - multiset{n})
    requires n in c
    ensures a == b - multiset{n}
  {
    forall m ensures a[m] == (b - multiset{n})[m] {
      assert (a + c)[m] == (b + (c - multiset{n}))[m];
    }
  }

  /** A note listed by no lane but lane `t` is referenced exactly as often as lane `t` lists it. */
  lemma {:induction false} RefsOnly(lanes: seq<Lane>, n: NoteId, t: int)
    requires forall i :: 0 <= i < |lanes| && i != t ==> n !in lanes[i].notes
    ensures Refs(lanes)[n] == if 0 <= t < |lanes| then multiset(lanes[t].notes)[n] else 0
  {
    if lanes != [] {
      assert forall i :: 0 <= i < |lanes[1..]| && i != t - 1 ==> n !in lanes[1..][i].notes by {
        forall i | 0 <= i < |lanes[1..]| && i != t - 1
          ensures n !in lanes[1..][i].notes
        {
          assert lanes[1..][i] == lanes[i + 1];
        }
      }
      RefsOnly(lanes[1..], n, t - 1);
      if t != 0 {
        assert n !in lanes[0].notes;
      }
    }
  }

  /** Counting one note lane by lane: fewer in every lane means fewer on the board. */
  lemma {:induction false} RefsLe(a: seq<Lane>, b: seq<Lane>, n: NoteId)
    requires |a| == |b|
    requires forall i :: 0 <= i < |a| ==> multiset(a[i].notes)[n] <= multiset(b[i].notes)[n]
    ensures Refs(a)[n] <= Refs(b)[n]
  {
    if a != [] {
      assert forall i :: 0 <= i < |a[1..]| ==> a[1..][i] == a[i + 1] && b[1..][i] == b[i + 1];
      RefsLe(a[1..], b[1..], n);
    }
  }

  lemma {:induction false} RefsSame(a: seq<Lane>, b: seq<Lane>, n: NoteId)
    requires |a| == |b|
    requires forall i :: 0 <= i < |a| ==> multiset(a[i].notes)[n] == multiset(b[i].notes)[n]
    ensures Refs(a)[n] == Refs(b)[n]
  {
    RefsLe(a, b, n);
    RefsLe(b, a, n);
  }

  /** A note listed by two different lanes is referenced at least twice. */
  lemma {:induction false} RefsTwice(lanes: seq<Lane>, i: int, j: int, n: NoteId)
    requires 0 <= i < |lanes| && 0 <= j < |lanes|
    requires n in lanes[i].notes && n in lanes[j].notes
    ensures i == j || Refs(lanes)[n] >= 2
  {
    if i != j {
      var lo, hi := if i < j then i else j, if i < j then j else i;
      RefsAt(lanes, hi);
      RefsAt(lanes[..hi], lo);
      assert lanes[..hi][lo] == lanes[lo];
    }
  }

  /** A board without repeated references keeps each note in at most one lane. */
  lemma {:induction false} UniqueRefsAreSingleHomed(lanes: seq<Lane>)
    requires NotesUnique(lanes)
    ensures SingleHomed(lanes)
  {
    forall i, j, n | 0 <= i < |lanes| && 0 <= j < |lanes| && n in lanes[i].notes && n in lanes[j].notes
      ensures i == j
    {
      RefsTwice(lanes, i, j, n);
    }
  }

  /** No lane lists a note exactly when the board does not reference it. */
  lemma {:induction false} HolderMeansReferenced(lanes: seq<Lane>, n: NoteId)
    ensures HolderIndex(lanes, n) == -1 <==> Refs(lanes)[n] == 0
  {
    var k := HolderIndex(lanes, n);
    if k == -1 {
      RefsOnly(lanes, n, -1);
    } else {
      RefsAt(lanes, k);
    }
  }

  // ---------------------------------------------------------------------
  // update

  /** `Object.assign({}, lane, patch)`: the fields the patch carries win. */
  function Merge(lane: Lane, patch: LanePatch): Lane
  {
    Lane(patch.id,
         if patch.name.Some? then patch.name.value else lane.name,
         if patch.notes.Some? then patch.notes.value else lane.notes)
  }

  /** `lanes.map(lane => lane.id === patch.id ? Object.assign({}, lane, patch) : lane)` */
  function UpdateMerged(lanes: seq<Lane>, patch: LanePatch): (r: seq<Lane>)
    ensures |r| == |lanes|
    ensures forall i :: 0 <= i < |lanes| ==> r[i].id == lanes[i].id
    ensures forall i :: 0 <= i < |lanes| && lanes[i].id != patch.id ==> r[i] == lanes[i]
    ensures forall i :: 0 <= i < |lanes| && lanes[i].id == patch.id ==>
      (patch.name.Some? ==> r[i].name == patch.name.value) &&
      (patch.name.None? ==> r[i].name == lanes[i].name) &&
      (patch.notes.Some? ==> r[i].notes == patch.notes.value) &&
      (patch.notes.None? ==> r[i].notes == lanes[i].notes)
  {
    seq(|lanes|, i requires 0 <= i < |lanes| => if lanes[i].id == patch.id then Merge(lanes[i], patch) else lanes[i])
  }

  /** Applying the same update twice is applying it once. */
  lemma {:induction false} UpdateMergedIdempotent(lanes: seq<Lane>, patch: LanePatch)
    ensures UpdateMerged(UpdateMerged(lanes, patch), patch) == UpdateMerged(lanes, patch)
  {
  }

  /** An update that does not carry `notes` keeps both invariants. */
  lemma {:induction false} UpdateMergedKeepsBoard(lanes: seq<Lane>, patch: LanePatch)
    requires patch.notes.None?
    ensures UniqueIds(lanes) ==> UniqueIds(UpdateMerged(lanes, patch))
    ensures Refs(UpdateMerged(lanes, patch)) == Refs(lanes)
  {
    var r := UpdateMerged(lanes, patch);
    forall n ensures Refs(r)[n] == Refs(lanes)[n] {
      RefsSame(r, lanes, n);
    }
  }

  /** `lanes.map(lane => { if (lane.id === id) lane.name = name; return lane; })` */
  function Renamed(lanes: seq<Lane>, id: LaneId, name: string): (r: seq<Lane>)
    ensures |r| == |lanes|
    ensures forall i :: 0 <= i < |lanes| ==> r[i].id == lanes[i].id && r[i].notes == lanes[i].notes
    ensures forall i :: 0 <= i < |lanes| ==> r[i].name == if lanes[i].id == id then name else lanes[i].name
  {
    seq(|lanes|, i requires 0 <= i < |lanes| => if lanes[i].id == id then lanes[i].(name := name) else lanes[i])
  }

  /** Renaming is the merge update that carries only a name. */
  lemma {:induction false} RenamedIsMerge(lanes: seq<Lane>, id: LaneId, name: string)
    ensures Renamed(lanes, id, name) == UpdateMerged(lanes, LanePatch(id, Some(name), None))
  {
  }

  /** `lanes[findLane(id)].name = name`, skipped when no lane has the id. */
  function RenameFirst(lanes: seq<Lane>, id: LaneId, name: string): (r: seq<Lane>)
    ensures LaneIndex(lanes, id) == -1 ==> r == lanes
    ensures |r| == |lanes|
    ensures var t := LaneIndex(lanes, id); 0 <= t ==> r == lanes[t := lanes[t].(name := name)]
  {
    var t := LaneIndex(lanes, id);
    if t < 0 then lanes else lanes[t := lanes[t].(name := name)]
  }

  /** With unique lane ids, renaming the first match is renaming every match. */
  lemma {:induction false} RenameFirstIsRenamed(lanes: seq<Lane>, id: LaneId, name: string)
    requires UniqueIds(lanes)
    ensures RenameFirst(lanes, id, name) == Renamed(lanes, id, name)
  {
    var t := LaneIndex(lanes, id);
    if t >= 0 {
      assert forall i :: 0 <= i < |lanes| && i != t ==> lanes[i].id != id by {
        forall i | 0 <= i < |lanes| && i != t ensures lanes[i].id != id {
          if i > t { assert lanes[t].id != lanes[i].id; }
        }
      }
    }
  }

  // ---------------------------------------------------------------------
  // delete

  /** `lanes.filter(lane => lane.id !== id)` */
  function DeleteAll(lanes: seq<Lane>, id: LaneId): (r: seq<Lane>)
    ensures |r| <= |lanes|
  {
    if lanes == [] then []
    else (if lanes[0].id == id then [] else [lanes[0]]) + DeleteAll(lanes[1..], id)
  }

  /** No lane with the id survives the filter. */
  lemma {:induction false} DeleteAllRemoves(lanes: seq<Lane>, id: LaneId)
    ensures LaneIndex(DeleteAll(lanes, id), id) == -1
  {
    if lanes != [] {
      DeleteAllRemoves(lanes[1..], id);
      var rest := DeleteAll(lanes[1..], id);
      if lanes[0].id != id {
        assert DeleteAll(lanes, id) == [lanes[0]] + rest;
        assert ([lanes[0]] + rest)[1..] == rest;
      }
    }
  }

  /** Filtering out an id no lane carries changes nothing. */
  lemma {:induction false} DeleteAllUnknown(lanes: seq<Lane>, id: LaneId)
    requires LaneIndex(lanes, id) == -1
    ensures DeleteAll(lanes, id) == lanes
  {
    if lanes != [] {
      assert lanes[0].id != id;
      DeleteAllUnknown(lanes[1..], id);
      assert lanes == [lanes[0]] + lanes[1..];
    }
  }

  /** Deleting never adds a reference, so it keeps the board invariant. */
  lemma {:induction false} DeleteAllRefs(lanes: seq<Lane>, id: LaneId)
    ensures Refs(DeleteAll(lanes, id)) <= Refs(lanes)
  {
    if lanes != [] {
      var rest := DeleteAll(lanes[1..], id);
      DeleteAllRefs(lanes[1..], id);
      assert Refs(lanes) == multiset(lanes[0].notes) + Refs(lanes[1..]);
      if lanes[0].id != id {
        assert DeleteAll(lanes, id) == [lanes[0]] + rest;
        RefsConcat([lanes[0]], rest);
        RefsOne(lanes[0]);
      } else {
        assert DeleteAll(lanes, id) == rest;
      }
    }
  }

  /** `findLane` then `lanes.slice(0, t).concat(lanes.slice(t + 1))`, skipped when no lane has the id. */
  function DeleteFound(lanes: seq<Lane>, id: LaneId): (r: seq<Lane>)
    ensures LaneIndex(lanes, id) == -1 ==> r == lanes
    ensures var t := LaneIndex(lanes, id);
      0 <= t ==> |r| == |lanes| - 1 && r == lanes[..t] + lanes[t + 1..]
  {
    var t := LaneIndex(lanes, id);
    if t < 0 then lanes else SliceOut(lanes, t)
  }

  /** The filter works on each part of a concatenation separately. */
  lemma {:induction false} DeleteAllConcat(a: seq<Lane>, b: seq<Lane>, id: LaneId)
    ensures DeleteAll(a + b, id) == DeleteAll(a, id) + DeleteAll(b, id)
  {
    if a == [] {
      assert a + b == b;
    } else {
      assert (a + b)[0] == a[0];
      assert (a + b)[1..] == a[1..] + b;
      DeleteAllConcat(a[1..], b, id);
    }
  }

  /** With unique ids, the lanes after the one `findIndex` finds do not carry its id. */
  lemma {:induction false} NoIdAfter(lanes: seq<Lane>, id: LaneId)
    requires UniqueIds(lanes) && 0 <= LaneIndex(lanes, id)
    ensures var t := LaneIndex(lanes, id); LaneIndex(lanes[t + 1..], id) == -1
  {
    var t := LaneIndex(lanes, id);
    var after := lanes[t + 1..];
    forall k | 0 <= k < |after| ensures after[k].id != id {
      assert after[k] == lanes[t + 1 + k];
    }
  }

  /** The lanes before the one `findIndex` finds do not carry its id. */
  lemma {:induction false} NoIdBefore(lanes: seq<Lane>, id: LaneId)
    requires 0 <= LaneIndex(lanes, id)
    ensures var t := LaneIndex(lanes, id); LaneIndex(lanes[..t], id) == -1
  {
    var t := LaneIndex(lanes, id);
    assert forall k :: 0 <= k < t ==> lanes[..t][k] == lanes[k];
  }

  lemma {:induction false} DeleteAllOne(l: Lane, id: LaneId)
    requires l.id == id
    ensures DeleteAll([l], id) == []
  {
    assert [l][1..] == [];
  }

  /** Filtering out `l`'s id from a board where only `l` carries it leaves the lanes around `l`. */
  lemma {:induction false} DeleteAllDropsOne(before: seq<Lane>, l: Lane, after: seq<Lane>, id: LaneId)
    requires l.id == id && LaneIndex(before, id) == -1 && LaneIndex(after, id) == -1
    ensures DeleteAll(before + [l] + after, id) == before + after
  {
    DeleteAllConcat(before + [l], after, id);
    DeleteAllConcat(before, [l], id);
    DeleteAllOne(l, id);
    DeleteAllUnknown(before, id);
    DeleteAllUnknown(after, id);
  }

  lemma {:induction false} DeleteAllDropsAt(lanes: seq<Lane>, t: int, id: LaneId)
    requires 0 <= t < |lanes| && lanes[t].id == id
    requires LaneIndex(lanes[..t], id) == -1 && LaneIndex(lanes[t + 1..], id) == -1
    ensures DeleteAll(lanes, id) == lanes[..t] + lanes[t + 1..]
  {
    assert lanes == lanes[..t] + [lanes[t]] + lanes[t + 1..];
    DeleteAllDropsOne(lanes[..t], lanes[t], lanes[t + 1..], id);
  }

  /** With unique lane ids, deleting the found position is the filter by id. */
  lemma {:induction false} DeleteFoundIsDeleteAll(lanes: seq<Lane>, id: LaneId)
    requires UniqueIds(lanes)
    ensures DeleteFound(lanes, id) == DeleteAll(lanes, id)
  {
    var t := LaneIndex(lanes, id);
    if t >= 0 {
      NoIdAfter(lanes, id);
      NoIdBefore(lanes, id);
      DeleteAllDropsAt(lanes, t, id);
    } else {
      DeleteAllUnknown(lanes, id);
    }
  }

  /**
   * `lanes.slice(0, t).concat(lanes.slice(t + 1))` with `t` the result of a
   * search that is not checked: an unknown id gives -1, and the "deleted"
   * board is every lane but the last followed by the whole board again.
   */
  function DeleteSliced(lanes: seq<Lane>, id: LaneId): (r: seq<Lane>)
    ensures 0 <= LaneIndex(lanes, id) ==> r == DeleteFound(lanes, id)
    ensures LaneIndex(lanes, id) == -1 && lanes != [] ==> r == lanes[..|lanes| - 1] + lanes
  {
    SliceOut(lanes, LaneIndex(lanes, id))
  }

  /**
   * The delete of an unknown lane on a board of two or more lanes duplicates
   * the first lane: its id is then listed twice, and so is each of its notes.
   */
  lemma DeleteSlicedDuplicates(lanes: seq<Lane>, id: LaneId)
    requires LaneIndex(lanes, id) == -1 && |lanes| >= 2
    ensures var r := DeleteSliced(lanes, id);
      |r| == 2 * |lanes| - 1 && r[0] == r[|lanes| - 1] == lanes[0] && !UniqueIds(r) &&
      (lanes[0].notes != [] ==> !NotesUnique(r))
  {
    var r := DeleteSliced(lanes, id);
    var last := |lanes| - 1;
    assert r[0] == lanes[0] && r[last] == lanes[0];
    if lanes[0].notes != [] {
      var x := lanes[0].notes[0];
      RefsAt(r, 0);
      RefsAt(r[1..], last - 1);
      assert r[1..][last - 1] == lanes[0];
      assert Refs(r)[x] >= 2;
    }
  }

  /** Deleting a found lane never adds a reference, so it keeps the board invariant. */
  lemma {:induction false} DeleteFoundKeepsBoard(lanes: seq<Lane>, id: LaneId)
    ensures Refs(DeleteFound(lanes, id)) <= Refs(lanes)
  {
    var t := LaneIndex(lanes, id);
    if t >= 0 {
      RefsAt(lanes, t);
      RefsConcat(lanes[..t], lanes[t + 1..]);
    }
  }

  /** Deleting a found lane keeps the lane ids unique. */
  lemma {:induction false} DeleteFoundKeepsIds(lanes: seq<Lane>, id: LaneId)
    requires UniqueIds(lanes)
    ensures UniqueIds(DeleteFound(lanes, id))
  {
    var t := LaneIndex(lanes, id);
    if t >= 0 {
      var r := lanes[..t] + lanes[t + 1..];
      assert forall i :: 0 <= i < |r| ==> r[i] == lanes[if i < t then i else i + 1];
      forall i, j | 0 <= i < j < |r| ensures r[i].id != r[j].id {
        var i0, j0 := if i < t then i else i + 1, if j < t then j else j + 1;
        assert lanes[i0].id != lanes[j0].id;
      }
    }
  }

  // ---------------------------------------------------------------------
  // attach / detach building blocks

  /** `removeNote`: the first lane listing the note loses the first occurrence of it. */
  function RemoveNote(lanes: seq<Lane>, n: NoteId): (r: seq<Lane>)
    ensures |r| == |lanes|
    ensures forall i :: 0 <= i < |lanes| ==> r[i].id == lanes[i].id && r[i].name == lanes[i].name
    ensures HolderIndex(lanes, n) == -1 ==> r == lanes
    ensures var k := HolderIndex(lanes, n);
      0 <= k ==>
        var notes, j := lanes[k].notes, IndexOf(lanes[k].notes, n);
        r == lanes[k := lanes[k].(notes := notes[..j] + notes[j + 1..])]
  {
    var k := HolderIndex(lanes, n);
    if k < 0 then lanes
    else
      var j := IndexOf(lanes[k].notes, n);
      lanes[k := lanes[k].(notes := SliceOut(lanes[k].notes, j))]
  }

  /** `removeNote` takes exactly one reference to the note off the board, if there is one. */
  lemma {:induction false} RemoveNoteRefs(lanes: seq<Lane>, n: NoteId)
    ensures Refs(RemoveNote(lanes, n)) == Refs(lanes) - multiset{n}
  {
    var k := HolderIndex(lanes, n);
    if k < 0 {
      HolderMeansReferenced(lanes, n);
    } else {
      var notes, j := lanes[k].notes, IndexOf(lanes[k].notes, n);
      var l := lanes[k].(notes := notes[..j] + notes[j + 1..]);
      assert RemoveNote(lanes, n) == lanes[k := l];
      DropCount(notes, j);
      RefsUpdate(lanes, k, l);
      CancelOne(Refs(lanes[k := l]), Refs(lanes), multiset(notes), n);
    }
  }

  /** On a board without repeated references, `removeNote` takes the note off the board entirely. */
  lemma {:induction false} RemoveNoteClears(lanes: seq<Lane>, n: NoteId)
    requires NotesUnique(lanes)
    ensures NotesUnique(RemoveNote(lanes, n))
    ensures Refs(RemoveNote(lanes, n))[n] == 0
    ensures forall i :: 0 <= i < |lanes| ==> n !in RemoveNote(lanes, n)[i].notes
  {
    var r := RemoveNote(lanes, n);
    RemoveNoteRefs(lanes, n);
    assert Refs(lanes)[n] <= 1;
    forall m ensures Refs(r)[m] <= 1 {
      assert Refs(r)[m] <= Refs(lanes)[m];
    }
    forall i | 0 <= i < |lanes| ensures n !in r[i].notes {
      ListedIsReferenced(r, i, n);
    }
  }

  /** `if (lane.notes.indexOf(n) === -1) lane.notes.push(n)` on lane `t`. */
  function PushIfAbsentAt(lanes: seq<Lane>, t: int, n: NoteId): seq<Lane>
    requires 0 <= t < |lanes|
  {
    if IndexOf(lanes[t].notes, n) == -1 then lanes[t := lanes[t].(notes := lanes[t].notes + [n])] else lanes
  }

  /** The same push, inside `lanes.map`, on every lane whose id is `laneId`. */
  function PushIfAbsentWhere(lanes: seq<Lane>, laneId: LaneId, n: NoteId): seq<Lane>
  {
    seq(|lanes|, i requires 0 <= i < |lanes| =>
      if lanes[i].id == laneId && IndexOf(lanes[i].notes, n) == -1
      then lanes[i].(notes := lanes[i].notes + [n]) else lanes[i])
  }

  /** With unique lane ids the `map` form pushes onto the one lane `findIndex` finds. */
  lemma {:induction false} PushWhereIsPushAt(lanes: seq<Lane>, laneId: LaneId, n: NoteId)
    requires UniqueIds(lanes)
    ensures var t := LaneIndex(lanes, laneId);
      PushIfAbsentWhere(lanes, laneId, n) == if t < 0 then lanes else PushIfAbsentAt(lanes, t, n)
  {
    var t := LaneIndex(lanes, laneId);
    if t >= 0 {
      assert forall i :: 0 <= i < |lanes| && i != t ==> lanes[i].id != laneId by {
        forall i | 0 <= i < |lanes| && i != t ensures lanes[i].id != laneId {
          if i > t { assert lanes[t].id != lanes[i].id; }
        }
      }
    }
  }

  /**
   * Pushing a note that the board does not reference onto lane `t`: the
   * note then lives in lane `t` only, as its last entry, and the board
   * invariant holds.
   */
  lemma {:induction false} PushOntoClearedBoard(r0: seq<Lane>, t: int, n: NoteId)
    requires 0 <= t < |r0|
    requires NotesUnique(r0) && Refs(r0)[n] == 0
    ensures var r := PushIfAbsentAt(r0, t, n);
      NotesUnique(r) &&
      (forall i :: 0 <= i < |r| ==> (n in r[i].notes <==> i == t)) &&
      r[t].notes[|r[t].notes| - 1] == n
  {
    var r := PushIfAbsentAt(r0, t, n);
    ListedIsReferenced(r0, t, n);
    assert n !in r0[t].notes;
    var l := r0[t].(notes := r0[t].notes + [n]);
    assert r == r0[t := l];
    assert multiset(l.notes) == multiset(r0[t].notes) + multiset{n};
    forall m ensures Refs(r)[m] <= 1 {
      RefsUpdateCount(r0, t, l, m);
    }
    forall i | 0 <= i < |r| && i != t ensures n !in r[i].notes {
      ListedIsReferenced(r0, i, n);
    }
  }

  /** `removeNote` keeps every lane's count of every other note. */
  lemma {:induction false} RemoveNoteOthers(lanes: seq<Lane>, n: NoteId)
    ensures forall i, m :: 0 <= i < |lanes| && m != n ==>
      multiset(RemoveNote(lanes, n)[i].notes)[m] == multiset(lanes[i].notes)[m]
  {
    var r, k := RemoveNote(lanes, n), HolderIndex(lanes, n);
    if k >= 0 {
      var j := IndexOf(lanes[k].notes, n);
      DropCount(lanes[k].notes, j);
      assert r[k].notes == lanes[k].notes[..j] + lanes[k].notes[j + 1..];
      forall i, m | 0 <= i < |lanes| && m != n ensures multiset(r[i].notes)[m] == multiset(lanes[i].notes)[m] {
        if i != k { assert r[i] == lanes[i]; }
      }
    }
  }

  /** The push onto lane `t` leaves the note listed there, every other lane as it was, and every other note's count. */
  lemma {:induction false} PushAtOthers(lanes: seq<Lane>, t: int, n: NoteId)
    requires 0 <= t < |lanes|
    ensures var r := PushIfAbsentAt(lanes, t, n);
      n in r[t].notes && forall i :: 0 <= i < |lanes| && i != t ==> r[i] == lanes[i]
    ensures var r := PushIfAbsentAt(lanes, t, n);
      forall i, m :: 0 <= i < |lanes| && m != n ==> multiset(r[i].notes)[m] == multiset(lanes[i].notes)[m]
  {
    var notes := lanes[t].notes;
    assert multiset(notes + [n]) == multiset(notes) + multiset{n};
  }

  /** The `map` push leaves the note listed in every lane with the id, every other lane as it was, and every other note's count. */
  lemma {:induction false} PushWhereOthers(lanes: seq<Lane>, laneId: LaneId, n: NoteId)
    ensures var r := PushIfAbsentWhere(lanes, laneId, n);
      forall i :: 0 <= i < |lanes| ==> (if lanes[i].id == laneId then n in r[i].notes else r[i] == lanes[i])
    ensures var r := PushIfAbsentWhere(lanes, laneId, n);
      forall i, m :: 0 <= i < |lanes| && m != n ==> multiset(r[i].notes)[m] == multiset(lanes[i].notes)[m]
  {
    var r := PushIfAbsentWhere(lanes, laneId, n);
    forall i, m | 0 <= i < |lanes| && m != n ensures multiset(r[i].notes)[m] == multiset(lanes[i].notes)[m] {
      assert multiset(lanes[i].notes + [n]) == multiset(lanes[i].notes) + multiset{n};
    }
  }

  // ---------------------------------------------------------------------
  // attachToLane, in the variants the book went through

  /**
   * attachToLane that looks the target lane up first and gives up when it
   * does not exist; otherwise it takes the note out of the lane holding it
   * and pushes it onto the target unless it is already there.
   */
  function AttachFound(lanes: seq<Lane>, laneId: LaneId, n: NoteId): (r: seq<Lane>)
    ensures |r| == |lanes|
    ensures forall i :: 0 <= i < |lanes| ==> r[i].id == lanes[i].id && r[i].name == lanes[i].name
    ensures LaneIndex(lanes, laneId) == -1 ==> r == lanes
    ensures var t := LaneIndex(lanes, laneId);
      0 <= t ==> n in r[t].notes && forall i :: 0 <= i < |lanes| && i != t ==> r[i] == RemoveNote(lanes, n)[i]
    ensures forall i, m :: 0 <= i < |lanes| && m != n ==> multiset(r[i].notes)[m] == multiset(lanes[i].notes)[m]
  {
    var t := LaneIndex(lanes, laneId);
    if t < 0 then lanes
    else
      RemoveNoteOthers(lanes, n);
      PushAtOthers(RemoveNote(lanes, n), t, n);
      PushIfAbsentAt(RemoveNote(lanes, n), t, n)
  }

  /** After AttachFound the note lives in the target lane only, as its last entry; the invariant holds. */
  lemma {:induction false} AttachFoundHomesNote(lanes: seq<Lane>, laneId: LaneId, n: NoteId)
    requires NotesUnique(lanes)
    ensures var r := AttachFound(lanes, laneId, n); var t := LaneIndex(lanes, laneId);
      NotesUnique(r) &&
      (0 <= t ==> (forall i :: 0 <= i < |r| ==> (n in r[i].notes <==> i == t)) && r[t].notes[|r[t].notes| - 1] == n)
  {
    var t := LaneIndex(lanes, laneId);
    if t >= 0 {
      RemoveNoteClears(lanes, n);
      PushOntoClearedBoard(RemoveNote(lanes, n), t, n);
    }
  }

  /**
   * attachToLane that takes the note out of its lane before it looks the
   * target up: when the target does not exist the note is left in no lane.
   */
  function AttachRemoving(lanes: seq<Lane>, laneId: LaneId, n: NoteId): (r: seq<Lane>)
    ensures |r| == |lanes|
    ensures forall i :: 0 <= i < |lanes| ==> r[i].id == lanes[i].id && r[i].name == lanes[i].name
    ensures LaneIndex(lanes, laneId) == -1 ==> r == RemoveNote(lanes, n)
    ensures var t := LaneIndex(lanes, laneId);
      0 <= t ==> n in r[t].notes && forall i :: 0 <= i < |lanes| && i != t ==> r[i] == RemoveNote(lanes, n)[i]
    ensures forall i, m :: 0 <= i < |lanes| && m != n ==> multiset(r[i].notes)[m] == multiset(lanes[i].notes)[m]
  {
    var r0 := RemoveNote(lanes, n);
    var t := LaneIndex(lanes, laneId);
    RemoveNoteOthers(lanes, n);
    if t < 0 then r0
    else
      PushAtOthers(r0, t, n);
      PushIfAbsentAt(r0, t, n)
  }

  lemma {:induction false} AttachRemovingHomesNote(lanes: seq<Lane>, laneId: LaneId, n: NoteId)
    requires NotesUnique(lanes)
    ensures var r := AttachRemoving(lanes, laneId, n); var t := LaneIndex(lanes, laneId);
      NotesUnique(r) &&
      (0 <= t ==> (forall i :: 0 <= i < |r| ==> (n in r[i].notes <==> i == t)) && r[t].notes[|r[t].notes| - 1] == n) &&
      (t == -1 ==> Refs(r)[n] == 0)
  {
    RemoveNoteClears(lanes, n);
    var t := LaneIndex(lanes, laneId);
    if t >= 0 {
      PushOntoClearedBoard(RemoveNote(lanes, n), t, n);
    }
  }

  /** attachToLane that removes the note first, then pushes it, inside `lanes.map`, onto every lane with id `laneId`. */
  function AttachRemovingAll(lanes: seq<Lane>, laneId: LaneId, n: NoteId): (r: seq<Lane>)
    ensures |r| == |lanes|
    ensures forall i :: 0 <= i < |lanes| ==> r[i].id == lanes[i].id && r[i].name == lanes[i].name
    ensures forall i :: 0 <= i < |lanes| ==>
      if lanes[i].id == laneId then n in r[i].notes else r[i] == RemoveNote(lanes, n)[i]
    ensures forall i, m :: 0 <= i < |lanes| && m != n ==> multiset(r[i].notes)[m] == multiset(lanes[i].notes)[m]
  {
    RemoveNoteOthers(lanes, n);
    PushWhereOthers(RemoveNote(lanes, n), laneId, n);
    PushIfAbsentWhere(RemoveNote(lanes, n), laneId, n)
  }

  /** Boards with the same lane ids, lane by lane, answer every lookup by id alike. */
  lemma {:induction false} SameIds(a: seq<Lane>, b: seq<Lane>, id: LaneId)
    requires |a| == |b| && forall i :: 0 <= i < |a| ==> a[i].id == b[i].id
    ensures LaneIndex(a, id) == LaneIndex(b, id)
    ensures UniqueIds(a) == UniqueIds(b)
  {
    var t := LaneIndex(a, id);
    if t >= 0 {
      assert b[t].id == id;
    }
  }

  /** With unique lane ids the `map` form of attachToLane is the variant that removes first. */
  lemma {:induction false} AttachRemovingAllIsAttachRemoving(lanes: seq<Lane>, laneId: LaneId, n: NoteId)
    requires UniqueIds(lanes)
    ensures AttachRemovingAll(lanes, laneId, n) == AttachRemoving(lanes, laneId, n)
  {
    var r0 := RemoveNote(lanes, n);
    SameIds(r0, lanes, laneId);
    PushWhereIsPushAt(r0, laneId, n);
  }

  /**
   * attachToLane that pushes the note onto the target lane without taking it
   * out of the lane that holds it.
   */
  function AttachKeeping(lanes: seq<Lane>, laneId: LaneId, n: NoteId): (r: seq<Lane>)
    ensures |r| == |lanes|
    ensures LaneIndex(lanes, laneId) == -1 ==> r == lanes
    ensures var t := LaneIndex(lanes, laneId);
      0 <= t ==> n in r[t].notes && forall i :: 0 <= i < |lanes| && i != t ==> r[i] == lanes[i]
  {
    var t := LaneIndex(lanes, laneId);
    if t < 0 then lanes else PushIfAbsentAt(lanes, t, n)
  }

  /** AttachKeeping leaves a note that changes lanes in both of them. */
  lemma {:induction false} AttachKeepingSplitsNote()
    ensures var lanes := [Lane("a", "Todo", ["n"]), Lane("b", "Done", [])];
      NotesUnique(lanes) &&
      AttachKeeping(lanes, "b", "n") == [Lane("a", "Todo", ["n"]), Lane("b", "Done", ["n"])] &&
      !SingleHomed(AttachKeeping(lanes, "b", "n"))
  {
    var lanes := [Lane("a", "Todo", ["n"]), Lane("b", "Done", [])];
    assert LaneIndex(lanes, "b") == 1;
    assert IndexOf(lanes[1].notes, "n") == -1;
    var r := AttachKeeping(lanes, "b", "n");
    assert r == lanes[1 := lanes[1].(notes := [] + ["n"])];
    assert [] + ["n"] == ["n"];
    assert "n" in r[0].notes && "n" in r[1].notes;
    forall n ensures Refs(lanes)[n] <= 1 {
      RefsAt(lanes, 0);
      assert lanes[1..] == [lanes[1]];
      RefsOne(lanes[1]);
    }
  }

  /** Filtering the note out of every lane's list keeps the count of every other note. */
  lemma {:induction false} CountsWithout(lanes: seq<Lane>, n: NoteId)
    ensures forall i :: 0 <= i < |lanes| ==> multiset(Without(lanes[i].notes, n)) == multiset(lanes[i].notes)[n := 0]
  {
    forall i | 0 <= i < |lanes| ensures multiset(Without(lanes[i].notes, n)) == multiset(lanes[i].notes)[n := 0] {
      WithoutCount(lanes[i].notes, n);
    }
  }

  /**
   * attachToLane as a single `lanes.map`: every lane drops the note, and
   * every lane with id `laneId` appends it.
   */
  function AttachEverywhere(lanes: seq<Lane>, laneId: LaneId, n: NoteId): (r: seq<Lane>)
    ensures |r| == |lanes|
    ensures forall i :: 0 <= i < |lanes| ==> r[i].id == lanes[i].id && r[i].name == lanes[i].name
    ensures forall i :: 0 <= i < |lanes| && lanes[i].id != laneId ==> n !in r[i].notes
    ensures forall i :: 0 <= i < |lanes| && lanes[i].id == laneId ==>
      multiset(r[i].notes)[n] == 1 && r[i].notes[|r[i].notes| - 1] == n
    ensures forall i, m :: 0 <= i < |lanes| && m != n ==> multiset(r[i].notes)[m] == multiset(lanes[i].notes)[m]
  {
    CountsWithout(lanes, n);
    seq(|lanes|, i requires 0 <= i < |lanes| =>
      var kept := if n in lanes[i].notes then Without(lanes[i].notes, n) else lanes[i].notes;
      lanes[i].(notes := if lanes[i].id == laneId then kept + [n] else kept))
  }

  /** With unique lane ids only the lane `findIndex` finds lists the note after AttachEverywhere. */
  lemma {:induction false} AttachEverywhereOnly(lanes: seq<Lane>, laneId: LaneId, n: NoteId)
    requires UniqueIds(lanes)
    ensures var r := AttachEverywhere(lanes, laneId, n); var t := LaneIndex(lanes, laneId);
      forall i :: 0 <= i < |r| && i != t ==> n !in r[i].notes
  {
    var r := AttachEverywhere(lanes, laneId, n);
    var t := LaneIndex(lanes, laneId);
    forall i | 0 <= i < |r| && i != t ensures n !in r[i].notes {
      if t >= 0 && i > t { assert lanes[t].id != lanes[i].id; }
    }
  }

  /** AttachEverywhere leaves the count of every other note as it was. */
  lemma {:induction false} AttachEverywhereOthers(lanes: seq<Lane>, laneId: LaneId, n: NoteId)
    ensures var r := AttachEverywhere(lanes, laneId, n);
      forall m :: m != n ==> Refs(r)[m] == Refs(lanes)[m]
  {
    var r := AttachEverywhere(lanes, laneId, n);
    forall m | m != n ensures Refs(r)[m] == Refs(lanes)[m] {
      RefsSame(r, lanes, m);
    }
  }

  /** With unique lane ids AttachEverywhere homes the note in the target lane only and keeps the invariant. */
  lemma {:induction false} AttachEverywhereHomesNote(lanes: seq<Lane>, laneId: LaneId, n: NoteId)
    requires UniqueIds(lanes) && NotesUnique(lanes)
    ensures var r := AttachEverywhere(lanes, laneId, n); var t := LaneIndex(lanes, laneId);
      NotesUnique(r) &&
      (0 <= t ==> forall i :: 0 <= i < |r| ==> (n in r[i].notes <==> i == t)) &&
      (t == -1 ==> Refs(r)[n] == 0)
  {
    var r := AttachEverywhere(lanes, laneId, n);
    var t := LaneIndex(lanes, laneId);
    AttachEverywhereOnly(lanes, laneId, n);
    RefsOnly(r, n, t);
    AttachEverywhereOthers(lanes, laneId, n);
    forall m ensures Refs(r)[m] <= 1 {
      if m != n { assert Refs(lanes)[m] <= 1; }
    }
  }

  // ---------------------------------------------------------------------
  // detachFromLane, in the variants the book went through

  /** `lanes.map(lane => lane.id === laneId ? lane with notes.filter(note => note !== n) : lane)` */
  function DetachFiltered(lanes: seq<Lane>, laneId: LaneId, n: NoteId): (r: seq<Lane>)
    ensures |r| == |lanes|
    ensures forall i :: 0 <= i < |lanes| && lanes[i].id != laneId ==> r[i] == lanes[i]
    ensures forall i :: 0 <= i < |lanes| && lanes[i].id == laneId ==>
      r[i].id == lanes[i].id && r[i].name == lanes[i].name && n !in r[i].notes &&
      multiset(r[i].notes) == multiset(lanes[i].notes)[n := 0]
  {
    CountsWithout(lanes, n);
    seq(|lanes|, i requires 0 <= i < |lanes| =>
      if lanes[i].id == laneId then lanes[i].(notes := Without(lanes[i].notes, n)) else lanes[i])
  }

  /** Detaching only takes references away, so it keeps the invariant. */
  lemma {:induction false} DetachFilteredKeepsBoard(lanes: seq<Lane>, laneId: LaneId, n: NoteId)
    requires NotesUnique(lanes)
    ensures NotesUnique(DetachFiltered(lanes, laneId, n))
  {
    var r := DetachFiltered(lanes, laneId, n);
    forall m ensures Refs(r)[m] <= 1 {
      RefsLe(r, lanes, m);
    }
  }

  /** Detaching a note just attached to the lane it was attached to gives back the board it was attached on. */
  lemma {:induction false} DetachUndoesAttach(lanes: seq<Lane>, laneId: LaneId, n: NoteId)
    requires Refs(lanes)[n] == 0
    ensures DetachFiltered(AttachEverywhere(lanes, laneId, n), laneId, n) == lanes
  {
    var a := AttachEverywhere(lanes, laneId, n);
    var r := DetachFiltered(a, laneId, n);
    forall i | 0 <= i < |lanes| ensures r[i] == lanes[i] {
      RefsAt(lanes, i);
      assert n !in lanes[i].notes;
      if lanes[i].id == laneId {
        assert a[i].notes == lanes[i].notes + [n];
        WithoutConcat(lanes[i].notes, [n], n);
        assert Without([n], n) == [];
      }
    }
  }

  /** detachFromLane that looks the lane up and removes the note's first occurrence, if the lane lists it. */
  function DetachFound(lanes: seq<Lane>, laneId: LaneId, n: NoteId): (r: seq<Lane>)
    ensures |r| == |lanes|
    ensures var t := LaneIndex(lanes, laneId);
      (t == -1 || n !in lanes[t].notes) ==> r == lanes
    ensures var t := LaneIndex(lanes, laneId);
      (0 <= t && n in lanes[t].notes) ==>
        var notes, j := lanes[t].notes, IndexOf(lanes[t].notes, n);
        r == lanes[t := lanes[t].(notes := notes[..j] + notes[j + 1..])]
  {
    var t := LaneIndex(lanes, laneId);
    if t < 0 then lanes
    else
      var j := IndexOf(lanes[t].notes, n);
      if j != -1 then lanes[t := lanes[t].(notes := SliceOut(lanes[t].notes, j))] else lanes
  }

  /** DetachFound keeps the invariant, and detaching an attached note takes it off the board. */
  lemma {:induction false} DetachFoundKeepsBoard(lanes: seq<Lane>, laneId: LaneId, n: NoteId)
    requires NotesUnique(lanes)
    ensures NotesUnique(DetachFound(lanes, laneId, n))
    ensures var t := LaneIndex(lanes, laneId);
      0 <= t && n in lanes[t].notes ==> Refs(DetachFound(lanes, laneId, n))[n] == 0
  {
    var r := DetachFound(lanes, laneId, n);
    var t := LaneIndex(lanes, laneId);
    if t >= 0 && n in lanes[t].notes {
      DropCount(lanes[t].notes, IndexOf(lanes[t].notes, n));
      RefsUpdate(lanes, t, r[t]);
      CancelOne(Refs(r), Refs(lanes), multiset(lanes[t].notes), n);
      forall m ensures Refs(r)[m] <= 1 {
        assert Refs(r)[m] <= Refs(lanes)[m];
      }
    }
  }

  /** Attaching then detaching through the lookup variants leaves the note on no lane. */
  lemma {:induction false} DetachFoundUndoesAttachFound(lanes: seq<Lane>, laneId: LaneId, n: NoteId)
    requires NotesUnique(lanes) && 0 <= LaneIndex(lanes, laneId)
    ensures Refs(DetachFound(AttachFound(lanes, laneId, n), laneId, n))[n] == 0
  {
    var a := AttachFound(lanes, laneId, n);
    AttachFoundHomesNote(lanes, laneId, n);
    assert LaneIndex(a, laneId) == LaneIndex(lanes, laneId);
    DetachFoundKeepsBoard(a, laneId, n);
  }

  /**
   * detachFromLane whose guard compares a position with note ids and so
   * always lets the removal run: when the lane does not list the note the
   * position is -1, and the lane's notes become all but the last followed
   * by all of them again.
   */
  function DetachUnguarded(lanes: seq<Lane>, laneId: LaneId, n: NoteId): (r: seq<Lane>)
    ensures var t := LaneIndex(lanes, laneId);
      (t == -1 || n in lanes[t].notes) ==> r == DetachFound(lanes, laneId, n)
    ensures var t := LaneIndex(lanes, laneId);
      (0 <= t && n !in lanes[t].notes && lanes[t].notes != []) ==>
        |r| == |lanes| && r[t].notes == lanes[t].notes[..|lanes[t].notes| - 1] + lanes[t].notes &&
        r[t].id == lanes[t].id && r[t].name == lanes[t].name &&
        forall i :: 0 <= i < |lanes| && i != t ==> r[i] == lanes[i]
    ensures var t := LaneIndex(lanes, laneId);
      (0 <= t && lanes[t].notes == []) ==> r == lanes
  {
    var t := LaneIndex(lanes, laneId);
    if t < 0 then lanes
    else
      var removeId := IndexOf(lanes[t].notes, n);
      lanes[t := lanes[t].(notes := SliceOut(lanes[t].notes, removeId))]
  }

  /**
   * Detaching a note a lane of two or more notes does not list glues the
   * whole list behind all but its last note: the first note is listed twice.
   */
  lemma DetachUnguardedDuplicates(lanes: seq<Lane>, laneId: LaneId, n: NoteId)
    requires 0 <= LaneIndex(lanes, laneId)
    requires var ns := lanes[LaneIndex(lanes, laneId)].notes; n !in ns && |ns| >= 2
    ensures var t, r := LaneIndex(lanes, laneId), DetachUnguarded(lanes, laneId, n);
      var ns := lanes[t].notes;
      r[t].notes[0] == r[t].notes[|ns| - 1] == ns[0] && !NotesUnique(r)
  {
    var t, r := LaneIndex(lanes, laneId), DetachUnguarded(lanes, laneId, n);
    var ns := lanes[t].notes;
    var front := ns[..|ns| - 1];
    assert r[t].notes == front + ns;
    assert front[0] == ns[0];
    assert multiset(r[t].notes) == multiset(front) + multiset(ns);
    assert multiset(r[t].notes)[ns[0]] >= 2;
    RefsAt(r, t);
    assert Refs(r)[ns[0]] >= 2;
  }

  /**
   * `note.id` where `note` is a note id: a string has no `id` property, so
   * the read gives `undefined`, which equals no number.
   */
  function IdProperty(note: NoteId): Option<int>
  {
    None
  }

  /** `notes.filter(note => note.id !== removeIndex)`: no note is ever dropped. */
  function KeepIdNot(notes: seq<NoteId>, removeIndex: int): (r: seq<NoteId>)
    ensures r == notes
  {
    if notes == [] then []
    else (if IdProperty(notes[0]) == Some(removeIndex) then [] else [notes[0]]) + KeepIdNot(notes[1..], removeIndex)
  }

  /**
   * detachFromLane that finds the note's position and then filters the
   * notes by `note.id !== position`: it never detaches anything.
   */
  function DetachByPosition(lanes: seq<Lane>, laneId: LaneId, n: NoteId): (r: seq<Lane>)
    ensures r == lanes
  {
    seq(|lanes|, i requires 0 <= i < |lanes| =>
      if lanes[i].id == laneId && IndexOf(lanes[i].notes, n) != -1
      then lanes[i].(notes := KeepIdNot(lanes[i].notes, IndexOf(lanes[i].notes, n)))
      else lanes[i])
  }

  /** An attached note stays attached after DetachByPosition. */
  lemma {:induction false} DetachByPositionKeepsNote()
    ensures var lanes := [Lane("a", "Todo", ["n"])];
      DetachFiltered(lanes, "a", "n") == [Lane("a", "Todo", [])] &&
      "n" in DetachByPosition(lanes, "a", "n")[0].notes
  {
    var lanes := [Lane("a", "Todo", ["n"])];
    var r := DetachFiltered(lanes, "a", "n");
    assert r[0].notes == Without(["n"], "n");
    assert Without(["n"], "n") == [];
  }

  // ---------------------------------------------------------------------
  // move

  /**
   * Drag and drop: the note `src` goes to where `tgt` is. Each is looked up
   * as the first lane listing it; when either is listed by no lane the
   * handler reads `notes` of `undefined` and throws (None).
   */
  function Move(lanes: seq<Lane>, src: NoteId, tgt: NoteId): (r: Option<seq<Lane>>)
    ensures r.None? <==> HolderIndex(lanes, src) == -1 || HolderIndex(lanes, tgt) == -1
    ensures r.Some? ==> |r.value| == |lanes|
    ensures r.Some? ==>
      forall i :: 0 <= i < |lanes| ==> r.value[i].id == lanes[i].id && r.value[i].name == lanes[i].name
  {
    var s, t := HolderIndex(lanes, src), HolderIndex(lanes, tgt);
    if s < 0 || t < 0 then None
    else
      var si, ti := IndexOf(lanes[s].notes, src), IndexOf(lanes[t].notes, tgt);
      if s == t then
        Some(lanes[s := lanes[s].(notes := SpliceAll(lanes[s].notes, [SpliceArgs(si, 1, []), SpliceArgs(ti, 0, [src])]))])
      else
        var removed := lanes[s := lanes[s].(notes := Splice(lanes[s].notes, si, 1, []))];
        Some(removed[t := removed[t].(notes := Splice(removed[t].notes, ti, 0, [src]))])
  }

  /** A move inside one lane reorders that lane only: `src` lands at the position `tgt` had. */
  lemma {:induction false} MoveWithinLane(lanes: seq<Lane>, src: NoteId, tgt: NoteId)
    requires 0 <= HolderIndex(lanes, src) && HolderIndex(lanes, src) == HolderIndex(lanes, tgt)
    ensures var s := HolderIndex(lanes, src); var r := Move(lanes, src, tgt).value;
      var ti := IndexOf(lanes[s].notes, tgt);
      (forall i :: 0 <= i < |lanes| && i != s ==> r[i] == lanes[i]) &&
      |r[s].notes| == |lanes[s].notes| && r[s].notes[ti] == src &&
      multiset(r[s].notes) == multiset(lanes[s].notes)
  {
    var s := HolderIndex(lanes, src);
    var notes := lanes[s].notes;
    var si, ti := IndexOf(notes, src), IndexOf(notes, tgt);
    RemoveInsert(notes, si, ti, src);
  }

  /**
   * A move across lanes takes `src` out of its lane and inserts it before
   * `tgt` in the other; every other lane stays as it was.
   */
  lemma {:induction false} MoveAcrossLanes(lanes: seq<Lane>, src: NoteId, tgt: NoteId)
    requires 0 <= HolderIndex(lanes, src) && 0 <= HolderIndex(lanes, tgt)
    requires HolderIndex(lanes, src) != HolderIndex(lanes, tgt)
    ensures var s, t := HolderIndex(lanes, src), HolderIndex(lanes, tgt);
      var sn, tn := lanes[s].notes, lanes[t].notes;
      var si, ti := IndexOf(sn, src), IndexOf(tn, tgt);
      Move(lanes, src, tgt) ==
        Some(lanes[s := lanes[s].(notes := sn[..si] + sn[si + 1..])][t := lanes[t].(notes := tn[..ti] + [src] + tn[ti..])])
  {
    var s, t := HolderIndex(lanes, src), HolderIndex(lanes, tgt);
    var sn, tn := lanes[s].notes, lanes[t].notes;
    var si, ti := IndexOf(sn, src), IndexOf(tn, tgt);
    var ls := lanes[s].(notes := Splice(sn, si, 1, []));
    var lt := lanes[t].(notes := Splice(tn, ti, 0, [src]));
    assert Move(lanes, src, tgt) == Some(lanes[s := ls][t := lt]);
    assert ls.notes == sn[..si] + sn[si + 1..];
    assert lt.notes == tn[..ti] + [src] + tn[ti..];
  }

  /** A move neither creates nor loses a reference, so it keeps the board invariant. */
  lemma {:induction false} MoveKeepsBoard(lanes: seq<Lane>, src: NoteId, tgt: NoteId)
    requires Move(lanes, src, tgt).Some?
    ensures Refs(Move(lanes, src, tgt).value) == Refs(lanes)
    ensures NotesUnique(lanes) ==> NotesUnique(Move(lanes, src, tgt).value)
  {
    if HolderIndex(lanes, src) == HolderIndex(lanes, tgt) {
      MoveWithinLaneRefs(lanes, src, tgt);
    } else {
      MoveAcrossLanesRefs(lanes, src, tgt);
    }
  }

  lemma {:induction false} MoveWithinLaneRefs(lanes: seq<Lane>, src: NoteId, tgt: NoteId)
    requires Move(lanes, src, tgt).Some?
    requires HolderIndex(lanes, src) == HolderIndex(lanes, tgt)
    ensures Refs(Move(lanes, src, tgt).value) == Refs(lanes)
  {
    var s := HolderIndex(lanes, src);
    var r := Move(lanes, src, tgt).value;
    MoveWithinLane(lanes, src, tgt);
    assert r == lanes[s := r[s]];
    RefsReplaceSame(lanes, s, r[s]);
  }

  /** Handing one reference to `x` from lane `s` to lane `t` keeps the board's references. */
  lemma {:induction false} RefsTransfer(lanes: seq<Lane>, s: int, t: int, ls: Lane, lt: Lane, x: NoteId)
    requires 0 <= s < |lanes| && 0 <= t < |lanes| && s != t
    requires multiset(ls.notes) + multiset{x} == multiset(lanes[s].notes)
    requires multiset(lt.notes) == multiset(lanes[t].notes) + multiset{x}
    ensures Refs(lanes[s := ls][t := lt]) == Refs(lanes)
  {
    var removed := lanes[s := ls];
    forall m ensures Refs(removed[t := lt])[m] == Refs(lanes)[m] {
      RefsUpdateCount(lanes, s, ls, m);
      RefsUpdateCount(removed, t, lt, m);
    }
  }

  lemma {:induction false} MoveAcrossLanesRefs(lanes: seq<Lane>, src: NoteId, tgt: NoteId)
    requires Move(lanes, src, tgt).Some?
    requires HolderIndex(lanes, src) != HolderIndex(lanes, tgt)
    ensures Refs(Move(lanes, src, tgt).value) == Refs(lanes)
  {
    var s, t := HolderIndex(lanes, src), HolderIndex(lanes, tgt);
    var sn, tn := lanes[s].notes, lanes[t].notes;
    var si, ti := IndexOf(sn, src), IndexOf(tn, tgt);
    var ls := lanes[s].(notes := Splice(sn, si, 1, []));
    var lt := lanes[t].(notes := Splice(tn, ti, 0, [src]));
    assert Move(lanes, src, tgt).value == lanes[s := ls][t := lt];
    SpliceRemoveOne(sn, si);
    SpliceInsertOne(tn, ti, src);
    RefsTransfer(lanes, s, t, ls, lt, src);
  }

  /** Dropping a note onto itself changes nothing. */
  lemma {:induction false} MoveOntoItself(lanes: seq<Lane>, n: NoteId)
    requires 0 <= HolderIndex(lanes, n)
    ensures Move(lanes, n, n) == Some(lanes)
  {
    var s := HolderIndex(lanes, n);
    var notes := lanes[s].notes;
    var i := IndexOf(notes, n);
    RemoveInsertSame(notes, i);
    assert [SpliceArgs(i, 1, []), SpliceArgs(i, 0, [n])] == [SpliceArgs(i, 1, []), SpliceArgs(i, 0, [notes[i]])];
    assert lanes[s].(notes := notes) == lanes[s];
    assert lanes[s := lanes[s]] == lanes;
  }

  // ---------------------------------------------------------------------
  // The well-formed board

  /** What the lane stores keep when they work as intended: lane ids are unique and no note is referenced twice. */
  ghost predicate WellFormed(lanes: seq<Lane>)
  {
    NotesUnique(lanes) && UniqueIds(lanes)
  }

  /** Appending a lane with a new id and no notes keeps the board well formed. */
  lemma {:induction false} AppendKeepsWellFormed(lanes: seq<Lane>, l: Lane)
    requires WellFormed(lanes) && LaneIndex(lanes, l.id) == -1 && l.notes == []
    ensures WellFormed(lanes + [l])
  {
    var r := lanes + [l];
    RefsConcat(lanes, [l]);
    RefsOne(l);
    forall i, j | 0 <= i < j < |r| ensures r[i].id != r[j].id {
      assert r[i] == lanes[i];
      if j < |lanes| { assert r[j] == lanes[j]; }
    }
  }

  lemma {:induction false} UpdateMergedKeepsWellFormed(lanes: seq<Lane>, patch: LanePatch)
    requires WellFormed(lanes) && patch.notes.None?
    ensures WellFormed(UpdateMerged(lanes, patch))
  {
    UpdateMergedKeepsBoard(lanes, patch);
  }

  lemma {:induction false} RenamedKeepsWellFormed(lanes: seq<Lane>, id: LaneId, name: string)
    requires WellFormed(lanes)
    ensures WellFormed(Renamed(lanes, id, name))
  {
    RenamedIsMerge(lanes, id, name);
    UpdateMergedKeepsBoard(lanes, LanePatch(id, Some(name), None));
  }

  lemma {:induction false} RenameFirstKeepsWellFormed(lanes: seq<Lane>, id: LaneId, name: string)
    requires WellFormed(lanes)
    ensures WellFormed(RenameFirst(lanes, id, name))
  {
    RenameFirstIsRenamed(lanes, id, name);
    RenamedKeepsWellFormed(lanes, id, name);
  }

  lemma {:induction false} DeleteFoundKeepsWellFormed(lanes: seq<Lane>, id: LaneId)
    requires WellFormed(lanes)
    ensures WellFormed(DeleteFound(lanes, id))
  {
    DeleteFoundKeepsBoard(lanes, id);
    DeleteFoundKeepsIds(lanes, id);
    var r := DeleteFound(lanes, id);
    forall n ensures Refs(r)[n] <= 1 {
      assert Refs(r)[n] <= Refs(lanes)[n];
    }
  }

  lemma {:induction false} DeleteAllKeepsWellFormed(lanes: seq<Lane>, id: LaneId)
    requires WellFormed(lanes)
    ensures WellFormed(DeleteAll(lanes, id))
  {
    DeleteFoundIsDeleteAll(lanes, id);
    DeleteFoundKeepsWellFormed(lanes, id);
  }

  lemma {:induction false} RemoveNoteKeepsWellFormed(lanes: seq<Lane>, n: NoteId)
    requires WellFormed(lanes)
    ensures WellFormed(RemoveNote(lanes, n))
  {
    RemoveNoteClears(lanes, n);
    SameIds(RemoveNote(lanes, n), lanes, "");
  }

  lemma {:induction false} AttachFoundKeepsWellFormed(lanes: seq<Lane>, laneId: LaneId, n: NoteId)
    requires WellFormed(lanes)
    ensures WellFormed(AttachFound(lanes, laneId, n))
  {
    AttachFoundHomesNote(lanes, laneId, n);
    SameIds(AttachFound(lanes, laneId, n), lanes, "");
  }

  lemma {:induction false} AttachRemovingKeepsWellFormed(lanes: seq<Lane>, laneId: LaneId, n: NoteId)
    requires WellFormed(lanes)
    ensures WellFormed(AttachRemoving(lanes, laneId, n))
  {
    AttachRemovingHomesNote(lanes, laneId, n);
    SameIds(AttachRemoving(lanes, laneId, n), lanes, "");
  }

  lemma {:induction false} AttachRemovingAllKeepsWellFormed(lanes: seq<Lane>, laneId: LaneId, n: NoteId)
    requires WellFormed(lanes)
    ensures WellFormed(AttachRemovingAll(lanes, laneId, n))
  {
    AttachRemovingAllIsAttachRemoving(lanes, laneId, n);
    AttachRemovingKeepsWellFormed(lanes, laneId, n);
  }

  lemma {:induction false} AttachEverywhereKeepsWellFormed(lanes: seq<Lane>, laneId: LaneId, n: NoteId)
    requires WellFormed(lanes)
    ensures WellFormed(AttachEverywhere(lanes, laneId, n))
  {
    AttachEverywhereHomesNote(lanes, laneId, n);
    SameIds(AttachEverywhere(lanes, laneId, n), lanes, "");
  }

  lemma {:induction false} DetachFilteredKeepsWellFormed(lanes: seq<Lane>, laneId: LaneId, n: NoteId)
    requires WellFormed(lanes)
    ensures WellFormed(DetachFiltered(lanes, laneId, n))
  {
    DetachFilteredKeepsBoard(lanes, laneId, n);
    SameIds(DetachFiltered(lanes, laneId, n), lanes, "");
  }

  lemma {:induction false} DetachFoundKeepsWellFormed(lanes: seq<Lane>, laneId: LaneId, n: NoteId)
    requires WellFormed(lanes)
    ensures WellFormed(DetachFound(lanes, laneId, n))
  {
    DetachFoundKeepsBoard(lanes, laneId, n);
    var r := DetachFound(lanes, laneId, n);
    assert forall i :: 0 <= i < |r| ==> r[i].id == lanes[i].id;
    SameIds(r, lanes, "");
  }

  lemma {:induction false} MoveKeepsWellFormed(lanes: seq<Lane>, src: NoteId, tgt: NoteId)
    requires WellFormed(lanes) && Move(lanes, src, tgt).Some?
    ensures WellFormed(Move(lanes, src, tgt).value)
  {
    MoveKeepsBoard(lanes, src, tgt);
    SameIds(Move(lanes, src, tgt).value, lanes, "");
  }
}
