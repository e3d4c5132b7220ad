/**
 * The JavaScript array primitives the stores are built from, with their
 * JavaScript semantics written out: `indexOf` answering -1, `slice` and
 * `splice` reading a negative position as counted from the end, `filter`,
 * and React's `update(list, {$splice: ...})`, which applies several splices
 * one after another to a copy of the list.
 */
module JsArray {

  datatype Option<+T> = None | Some(value: T)

  /**
   * How an action handler ended. `TypeError` is the exception JavaScript throws
   * when a handler reads a property of `undefined` (`lanes[-1].name = ...`);
   * in every handler modelled here that read comes before any change, so a
   * handler that throws leaves the store as it was.
   */
  datatype Status = Completed | TypeError

  /** `s.indexOf(x)`: the first position holding `x`, or -1. */
  function IndexOf<T(==)>(s: seq<T>, x: T): (r: int)
    ensures -1 <= r < |s|
    ensures r == -1 ==> x !in s
    ensures 0 <= r ==> s[r] == x && x !in s[..r]
  {
    if s == [] then -1
    else if s[0] == x then 0
    else
      var k := IndexOf(s[1..], x);
      assert s[1..][..k + 1] == s[1..k + 2] by { assert k + 2 <= |s| || k == -1; }
      if k == -1 then -1 else k + 1
  }

  /** `indexOf` finds `x` no later than any position holding it. */
  lemma {:induction false} IndexOfAtMost<T>(s: seq<T>, x: T, i: int)
    requires 0 <= i < |s| && s[i] == x
    ensures 0 <= IndexOf(s, x) <= i
  {
    if s[0] != x {
      IndexOfAtMost(s[1..], x, i - 1);
    }
  }

  /** The position `slice` and `splice` use for an argument `k` on a list of length `len`. */
  function RelIndex(k: int, len: nat): (r: nat)
  {
    if k < 0 then (if len + k < 0 then 0 else len + k)
    else if k > len then len
    else k
  }

  /** `s.slice(start, end)`. */
  function Slice<T>(s: seq<T>, start: int, end: int): (r: seq<T>)
    ensures 0 <= start <= end <= |s| ==> r == s[start..end]
    ensures |r| <= |s|
  {
    var a, b := RelIndex(start, |s|), RelIndex(end, |s|);
    if a < b then s[a..b] else []
  }

  /** `s.slice(start)`. */
  function SliceFrom<T>(s: seq<T>, start: int): (r: seq<T>)
    ensures 0 <= start <= |s| ==> r == s[start..]
    ensures |s| <= start ==> r == []
  {
    s[RelIndex(start, |s|)..]
  }

  /**
   * `s.slice(0, i).concat(s.slice(i + 1))`, the idiom the stores use to drop
   * position `i`. For a position in range it drops exactly that element; for
   * -1 (what a failed search answers) it does not drop anything but glues
   * all of `s` behind all but the last element of `s`.
   */
  function SliceOut<T>(s: seq<T>, i: int): (r: seq<T>)
    ensures 0 <= i < |s| ==> r == s[..i] + s[i + 1..] && |r| == |s| - 1
    ensures |s| <= i ==> r == s
    ensures i == -1 && s != [] ==> r == s[..|s| - 1] + s
    ensures i == -1 && s == [] ==> r == []
  {
    Slice(s, 0, i) + SliceFrom(s, i + 1)
  }

  /** Removing the position an append filled gives the list back: `remove` undoes `create`. */
  lemma {:induction false} SliceOutUndoesAppend<T>(s: seq<T>, x: T)
    ensures SliceOut(s + [x], |s|) == s
  {
    assert (s + [x])[..|s|] == s;
  }

  /** Removing a position in range drops exactly one element and keeps the others in order. */
  lemma {:induction false} SliceOutKeepsOthers<T>(s: seq<T>, i: int)
    requires 0 <= i < |s|
    ensures var r := SliceOut(s, i);
      (forall k :: 0 <= k < i ==> r[k] == s[k]) && (forall k :: i <= k < |r| ==> r[k] == s[k + 1])
  {
  }

  /** `s.splice(start, deleteCount, ...items)`, as the list it leaves behind. */
  function Splice<T>(s: seq<T>, start: int, deleteCount: int, items: seq<T>): (r: seq<T>)
    ensures 0 <= start <= |s| && 0 <= deleteCount <= |s| - start ==>
      r == s[..start] + items + s[start + deleteCount..]
    ensures start == -1 && s != [] && deleteCount == 0 ==>
      r == s[..|s| - 1] + items + [s[|s| - 1]]
    ensures start == -1 && s == [] ==> r == items
  {
    var a := RelIndex(start, |s|);
    var d := if deleteCount < 0 then 0 else if deleteCount > |s| - a then |s| - a else deleteCount;
    s[..a] + items + s[a + d..]
  }

  /** `splice(i, 1)` on a position in range takes exactly that element out. */
  lemma {:induction false} SpliceRemoveOne<T>(s: seq<T>, i: int)
    requires 0 <= i < |s|
    ensures multiset(Splice(s, i, 1, [])) + multiset{s[i]} == multiset(s)
  {
    assert s == s[..i] + [s[i]] + s[i + 1..];
  }

  /** `splice(i, 0, x)` on a position in range adds exactly `x`. */
  lemma {:induction false} SpliceInsertOne<T>(s: seq<T>, i: int, x: T)
    requires 0 <= i <= |s|
    ensures multiset(Splice(s, i, 0, [x])) == multiset(s) + multiset{x}
  {
    assert s == s[..i] + s[i..];
  }

  /** One argument list of a `$splice` command: `[start, deleteCount, ...items]`. */
  datatype SpliceArgs<T> = SpliceArgs(start: int, deleteCount: int, items: seq<T>)

  /** `update(s, {$splice: ops})`: the splices of `ops` applied in order to a copy of `s`. */
  function SpliceAll<T>(s: seq<T>, ops: seq<SpliceArgs<T>>): seq<T>
    decreases |ops|
  {
    if ops == [] then s
    else SpliceAll(Splice(s, ops[0].start, ops[0].deleteCount, ops[0].items), ops[1..])
  }

  /** A `$splice` command of two argument lists is the two splices in order. */
  lemma {:induction false} SpliceTwo<T>(s: seq<T>, a: SpliceArgs<T>, b: SpliceArgs<T>)
    ensures SpliceAll(s, [a, b]) == Splice(Splice(s, a.start, a.deleteCount, a.items), b.start, b.deleteCount, b.items)
  {
    var s1 := Splice(s, a.start, a.deleteCount, a.items);
    assert [a, b][1..] == [b];
    assert SpliceAll(s, [a, b]) == SpliceAll(s1, [b]);
    assert [b][1..] == [];
  }

  /**
   * The `$splice` a drag-and-drop move issues: take out position `i`, then
   * insert `x` at position `j` of what is left.
   */
  lemma {:induction false} RemoveInsertShape<T>(s: seq<T>, i: int, j: int, x: T)
    requires 0 <= i < |s| && 0 <= j < |s|
    ensures var rest := s[..i] + s[i + 1..];
      SpliceAll(s, [SpliceArgs(i, 1, []), SpliceArgs(j, 0, [x])]) == rest[..j] + [x] + rest[j..]
  {
    SpliceTwo(s, SpliceArgs(i, 1, []), SpliceArgs(j, 0, [x]));
    var rest := s[..i] + s[i + 1..];
    assert Splice(s, i, 1, []) == rest;
    assert Splice(rest, j, 0, [x]) == rest[..j] + [x] + rest[j..];
  }

  lemma {:induction false} DropCount<T>(s: seq<T>, i: int)
    requires 0 <= i < |s|
    ensures multiset(s[..i] + s[i + 1..]) == multiset(s) - multiset{s[i]}
  {
    assert s == s[..i] + [s[i]] + s[i + 1..];
  }

  lemma {:induction false} InsertCount<T>(s: seq<T>, j: int, x: T)
    requires 0 <= j <= |s|
    ensures multiset(s[..j] + [x] + s[j..]) == multiset(s) + multiset{x}
  {
    assert s == s[..j] + s[j..];
  }

  /**
   * The same move, in terms of what the caller sees: the list keeps its
   * length, holds `x` at `j`, and as a multiset has traded `s[i]` for `x`.
   */
  lemma {:induction false} RemoveInsert<T>(s: seq<T>, i: int, j: int, x: T)
    requires 0 <= i < |s| && 0 <= j < |s|
    ensures var r := SpliceAll(s, [SpliceArgs(i, 1, []), SpliceArgs(j, 0, [x])]);
      |r| == |s| && r[j] == x && multiset(r) == multiset(s) - multiset{s[i]} + multiset{x}
  {
    RemoveInsertShape(s, i, j, x);
    DropCount(s, i);
    InsertCount(s[..i] + s[i + 1..], j, x);
  }

  /** Moving an element onto its own position changes nothing. */
  lemma {:induction false} RemoveInsertSame<T>(s: seq<T>, i: int)
    requires 0 <= i < |s|
    ensures SpliceAll(s, [SpliceArgs(i, 1, []), SpliceArgs(i, 0, [s[i]])]) == s
  {
    var rest := s[..i] + s[i + 1..];
    assert rest[..i] + [s[i]] + rest[i..] == s by {
      assert rest[..i] == s[..i];
      assert rest[i..] == s[i + 1..];
    }
    RemoveInsertShape(s, i, i, s[i]);
  }

  /** `s.filter(y => y !== x)`. */
  function Without<T(==)>(s: seq<T>, x: T): (r: seq<T>)
    ensures x !in r
    ensures x !in s ==> r == s
    ensures |r| <= |s|
  {
    if s == [] then []
    else (if s[0] == x then [] else [s[0]]) + Without(s[1..], x)
  }

  /** The filter drops every copy of `x` and keeps every other element as often as it was. */
  lemma {:induction false} WithoutCount<T>(s: seq<T>, x: T)
    ensures multiset(Without(s, x)) == multiset(s)[x := 0]
  {
    if s != [] {
      WithoutCount(s[1..], x);
      assert s == [s[0]] + s[1..];
    }
  }

  /** `filter` keeps the order: it works on each part of a concatenation separately. */
  lemma {:induction false} WithoutConcat<T>(a: seq<T>, b: seq<T>, x: T)
    ensures Without(a + b, x) == Without(a, x) + Without(b, x)
  {
    if a == [] {
      assert a + b == b;
    } else {
      assert (a + b)[1..] == a[1..] + b;
      WithoutConcat(a[1..], b, x);
    }
  }
}
