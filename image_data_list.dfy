/**
 * The bounded undo/redo history of canvas snapshots (`ImageDataList` in
 * src/editor/image_data_list.rs).
 *
 * The history is first described as a value, `ListState`, with one function
 * per operation; the class `ImageDataList` then performs the same steps in
 * place and states that its new state is that function of its old state.
 */
module History {
  import opened Wrappers
  import opened ImageData

  /** The most snapshots the history holds; a push beyond it evicts the oldest. */
  const MaxImageDataListSize: nat := 10

  /** The history as a value: the snapshots, oldest first, and the cursor. */
  datatype ListState = ListState(list: seq<ImageDataWrapper>, currentIndex: nat) {
    /** What every history reachable from `new` satisfies. */
    predicate Valid() {
      |list| <= MaxImageDataListSize &&
      (if list == [] then currentIndex == 0 else currentIndex < |list|)
    }

    /** The cursor is on the newest snapshot (or there is none). */
    predicate AtLast() {
      list == [] || currentIndex == |list| - 1
    }
  }

  /** The outcome of `undo` or `redo`: the new history and what the call returns. */
  datatype Move = Move(state: ListState, result: Option<ImageDataWrapper>)

  /** `Vec::truncate`: keeps the first `n` entries, or all of them when there are fewer. */
  function Truncate<T>(s: seq<T>, n: nat): (r: seq<T>)
    ensures |r| == if n < |s| then n else |s|
    ensures r <= s
  {
    if n < |s| then s[..n] else s
  }

  /** The history after `push(x)`: cut after the cursor, evict the oldest when full, append. */
  function Pushed(h: ListState, x: ImageDataWrapper): (r: ListState)
    ensures r.list != [] && r.AtLast() && r.list[r.currentIndex] == x
    ensures |h.list| <= MaxImageDataListSize ==> |r.list| <= MaxImageDataListSize
    ensures h.Valid() ==> r.Valid()
  {
    var kept := Truncate(h.list, h.currentIndex + 1);
    var room := if |kept| == MaxImageDataListSize then kept[1..] else kept;
    ListState(room + [x], |room|)
  }

  /** The history after `clone_push`: a copy of the current snapshot is pushed, if there is one. */
  function ClonePushed(h: ListState): (r: ListState)
    ensures h.list == [] ==> r == h
    ensures h.Valid() ==> r.Valid()
    ensures h.Valid() && h.list != [] ==>
              r.list != [] && r.AtLast() && r.list[r.currentIndex] == h.list[h.currentIndex]
  {
    if h.currentIndex < |h.list| then Pushed(h, h.list[h.currentIndex]) else h
  }

  /** On a history with a current snapshot, `clone_push` is exactly `push` of that snapshot. */
  lemma ClonePushedIsPush(h: ListState)
    requires h.Valid() && h.list != []
    ensures ClonePushed(h) == Pushed(h, h.list[h.currentIndex])
  {
  }

  /**
   * `undo`: step the cursor back one snapshot unless it is on the first.
   * The source indexes the list at the decremented cursor, which is in range
   * exactly when the cursor is at most the length.
   */
  function Undone(h: ListState): (m: Move)
    requires h.currentIndex <= |h.list|
    ensures m.state.list == h.list
    ensures h.Valid() ==> m.state.Valid()
    ensures m.result.None? <==> h.currentIndex == 0
    ensures m.result.None? ==> m.state == h
    ensures m.result.Some? ==>
              m.state.currentIndex + 1 == h.currentIndex &&
              m.result.value == h.list[m.state.currentIndex]
  {
    if h.currentIndex > 0 then
      var back := h.(currentIndex := h.currentIndex - 1);
      Move(back, Some(h.list[back.currentIndex]))
    else
      Move(h, None)
  }

  /**
   * `redo`: step the cursor forward one snapshot unless it is on the last.
   * Its guard keeps the index in range in every state.
   */
  function Redone(h: ListState): (m: Move)
    ensures m.state.list == h.list
    ensures h.Valid() ==> m.state.Valid()
    ensures h.Valid() ==> (m.result.None? <==> h.AtLast())
    ensures m.result.None? ==> m.state == h
    ensures m.result.Some? ==>
              m.state.currentIndex == h.currentIndex + 1 &&
              m.state.currentIndex < |h.list| &&
              m.result.value == h.list[m.state.currentIndex]
  {
    if h.list != [] && h.currentIndex < |h.list| - 1 then
      var forward := h.(currentIndex := h.currentIndex + 1);
      Move(forward, Some(h.list[forward.currentIndex]))
    else
      Move(h, None)
  }

  /**
   * `push` keeps the snapshots up to and including the cursor, in order, and
   * drops the first of them when they already fill the history; everything
   * after the cursor is discarded.
   */
  lemma PushKeepsPrefix(h: ListState, x: ImageDataWrapper)
    requires h.Valid()
    ensures var kept := if h.list == [] then 0 else h.currentIndex + 1;
            var evicted := if kept == MaxImageDataListSize then 1 else 0;
            var r := Pushed(h, x);
            |r.list| == kept - evicted + 1 &&
            (forall i :: 0 <= i < kept - evicted ==> r.list[i] == h.list[i + evicted])
  {
  }

  /** Undo from `[a, b, c]` and then push `d`: the branch `c` is gone. */
  lemma PushAfterUndoTruncates(a: ImageDataWrapper, b: ImageDataWrapper, c: ImageDataWrapper, d: ImageDataWrapper)
    ensures var h := ListState([a, b, c], 2);
            var u := Undone(h);
            u.result == Some(b) &&
            Pushed(u.state, d) == ListState([a, b, d], 2)
  {
  }

  /** A successful undo is reversed by redo, which returns the snapshot that was current. */
  lemma UndoThenRedo(h: ListState)
    requires h.Valid() && Undone(h).result.Some?
    ensures Redone(Undone(h).state) == Move(h, Some(h.list[h.currentIndex]))
  {
  }

  /** A successful redo is reversed by undo, which returns the snapshot that was current. */
  lemma RedoThenUndo(h: ListState)
    requires h.Valid() && Redone(h).result.Some?
    ensures Undone(Redone(h).state) == Move(h, Some(h.list[h.currentIndex]))
  {
  }

  /** On an empty history `clone_push` does nothing; after `push(a)` it yields `[a, a]`. */
  lemma ClonePushScenario(a: ImageDataWrapper)
    ensures ClonePushed(ListState([], 0)) == ListState([], 0)
    ensures ClonePushed(Pushed(ListState([], 0), a)) == ListState([a, a], 1)
  {
  }

  /** The history after pushing each of `xs` in turn. */
  function PushedAll(h: ListState, xs: seq<ImageDataWrapper>): (r: ListState)
    decreases |xs|
  {
    if xs == [] then h else PushedAll(Pushed(h, xs[0]), xs[1..])
  }

  /** The last `n` elements of `s`, or all of `s` when it is shorter. */
  function Latest<T>(s: seq<T>, n: nat): (r: seq<T>)
    ensures |r| == if |s| < n then |s| else n
    ensures forall k :: 0 <= k < |r| ==> r[k] == s[|s| - |r| + k]
  {
    if |s| <= n then s else s[|s| - n..]
  }

  /** Keeping the latest `n`, appending, and keeping the latest `n` again loses nothing extra. */
  lemma LatestAppend<T>(s: seq<T>, t: seq<T>, n: nat)
    ensures Latest(Latest(s, n) + t, n) == Latest(s + t, n)
  {
    // Both sides are the last n elements of s + t: Latest(s, n) is a suffix of s.
  }

  /** One push from the newest snapshot keeps the ten most recent of the old snapshots followed by the new one. */
  lemma PushAtLast(h: ListState, x: ImageDataWrapper)
    requires h.Valid() && h.AtLast()
    ensures Pushed(h, x).list == Latest(h.list + [x], MaxImageDataListSize)
  {
  }

  /**
   * Pushing a run of snapshots onto a history whose cursor is on its newest
   * entry leaves exactly the ten most recent snapshots: the oldest are lost.
   */
  lemma {:induction false} PushedAllKeepsLatest(h: ListState, xs: seq<ImageDataWrapper>)
    requires h.Valid() && h.AtLast()
    ensures PushedAll(h, xs).Valid() && PushedAll(h, xs).AtLast()
    ensures PushedAll(h, xs).list == Latest(h.list + xs, MaxImageDataListSize)
    decreases |xs|
  {
    if xs == [] {
      assert h.list + xs == h.list;
    } else {
      var h1 := Pushed(h, xs[0]);
      PushAtLast(h, xs[0]);
      PushedAllKeepsLatest(h1, xs[1..]);
      LatestAppend(h.list + [xs[0]], xs[1..], MaxImageDataListSize);
      assert h.list + [xs[0]] + xs[1..] == h.list + xs;
    }
  }

  /** The history itself, updated in place. */
  class ImageDataList {
    var imageDataList: seq<ImageDataWrapper>
    var currentIndex: nat

    /** The history as a value. */
    function State(): ListState
      reads this
    {
      ListState(imageDataList, currentIndex)
    }

    /** The class invariant: the cursor is on a snapshot and there are at most ten. */
    predicate Valid()
      reads this
    {
      State().Valid()
    }

    constructor ()
      ensures State() == ListState([], 0) && Valid()
      ensures IsEmpty() && IsFirst() && IsLast() && GetImageData() == None
    {
      imageDataList := [];
      currentIndex := 0;
    }

    /** The snapshot under the cursor, if any. */
    function GetImageData(): (r: Option<ImageDataWrapper>)
      reads this
      ensures r.Some? <==> currentIndex < |imageDataList|
      ensures r.Some? ==> r.value == imageDataList[currentIndex]
      ensures Valid() ==> (r.None? <==> IsEmpty())
    {
      if currentIndex < |imageDataList| then Some(imageDataList[currentIndex]) else None
    }

    function IsEmpty(): (b: bool)
      reads this
      ensures b <==> |imageDataList| == 0
      ensures b ==> ClonePushed(State()) == State()
    {
      |imageDataList| == 0
    }

    /** Undo is unavailable exactly when this holds. */
    function IsFirst(): (b: bool)
      reads this
      ensures currentIndex <= |imageDataList| ==> (b <==> Undone(State()).result.None?)
    {
      currentIndex == 0
    }

    /** Redo is unavailable exactly when this holds. */
    function IsLast(): (b: bool)
      reads this
      ensures Valid() ==> (b <==> Redone(State()).result.None?)
    {
      IsEmpty() || currentIndex == |imageDataList| - 1
    }

    method Push(imageData: ImageDataWrapper)
      modifies this
      ensures State() == Pushed(old(State()), imageData)
      ensures old(Valid()) ==> Valid()
      ensures |imageDataList| > 0 && currentIndex == |imageDataList| - 1
      ensures imageDataList[currentIndex] == imageData
    {
      imageDataList := Truncate(imageDataList, currentIndex + 1);
      if |imageDataList| == MaxImageDataListSize {
        imageDataList := imageDataList[1..];
      }
      imageDataList := imageDataList + [imageData];
      currentIndex := |imageDataList| - 1;
    }

    method ClonePush()
      modifies this
      ensures State() == ClonePushed(old(State()))
      ensures old(currentIndex) >= old(|imageDataList|) ==> State() == old(State())
      ensures old(currentIndex) < old(|imageDataList|) ==>
                State() == Pushed(old(State()), old(imageDataList[currentIndex]))
      ensures old(Valid()) ==> Valid()
    {
      var current := GetImageData();
      if current.Some? {
        Push(current.value);
      }
    }

    method Undo() returns (r: Option<ImageDataWrapper>)
      requires currentIndex <= |imageDataList|
      modifies this
      ensures Move(State(), r) == Undone(old(State()))
      ensures imageDataList == old(imageDataList)
      ensures old(Valid()) ==> Valid()
      ensures r.None? ==> currentIndex == old(currentIndex) == 0
      ensures r.Some? ==> currentIndex == old(currentIndex) - 1 && r.value == imageDataList[currentIndex]
    {
      if currentIndex > 0 {
        currentIndex := currentIndex - 1;
        r := Some(imageDataList[currentIndex]);
      } else {
        r := None;
      }
    }

    method Redo() returns (r: Option<ImageDataWrapper>)
      modifies this
      ensures Move(State(), r) == Redone(old(State()))
      ensures imageDataList == old(imageDataList)
      ensures old(Valid()) ==> Valid()
      ensures r.None? ==> currentIndex == old(currentIndex)
      ensures r.None? && old(Valid()) ==> old(State()).AtLast()
      ensures r.Some? ==> currentIndex == old(currentIndex) + 1 && r.value == imageDataList[currentIndex]
    {
      if imageDataList != [] && currentIndex < |imageDataList| - 1 {
        currentIndex := currentIndex + 1;
        r := Some(imageDataList[currentIndex]);
      } else {
        r := None;
      }
    }
  }

  /** Three pushes, an undo and a redo on a fresh history, as an editor session performs them. */
  method HistorySession(a: ImageDataWrapper, b: ImageDataWrapper, c: ImageDataWrapper)
  {
    var history := new ImageDataList();
    history.Push(a);
    history.Push(b);
    history.ClonePush();
    assert history.imageDataList == [a, b, b];
    var r := history.Undo();
    assert r == Some(b) && !history.IsLast();
    history.Push(c);
    assert history.imageDataList == [a, b, c] && history.IsLast();
    r := history.Redo();
    assert r == None;
  }
}
