/**
  The synchronous mode: every frame is spliced directly into the root list whose
  head is Julia's thread-local `pgcstack`. Pushing a frame stores the old head in
  the frame's link cell and points the head at the frame; popping the frame sets
  the head back to the link of the frame the head points to.
*/
module SyncMode {
  import opened Layout

  /**
    The part of Julia's thread-local state this mode touches: the head of the
    root list. It is passed to the operations explicitly instead of being read
    from the runtime.
  */
  class ThreadState {
    var pgcstack: Cell

    constructor (head: Cell)
      ensures pgcstack == head
    {
      pgcstack := head;
    }
  }

  /** The slot buffer together with the root-list head, as values. */
  datatype Roots = Roots(stack: seq<Cell>, head: Cell)

  /** The roots after pushing a frame of `capacity` slots at offset `size`. */
  function Push(st: Roots, size: nat, capacity: nat): (r: Roots)
    requires 1 <= size && size + capacity + 2 <= |st.stack|
    ensures |r.stack| == |st.stack|
    ensures FrameAt(r.stack, size, Static(capacity), st.head)
    ensures r.head == Addr(size)
    ensures r.stack[0] == Num(size + capacity + 2)
    ensures forall i :: 0 < i < |st.stack| && (i < size || size + capacity + 2 <= i) ==> r.stack[i] == st.stack[i]
  {
    var linked := st.stack[size := Num(2 * capacity)][size + 1 := st.head];
    Roots(NullFill(linked, size + 2, capacity)[0 := Num(size + capacity + 2)], Addr(size))
  }

  /** The roots after pushing a dynamic frame at offset `size`. */
  function PushDynamic(st: Roots, size: nat): (r: Roots)
    requires 1 <= size && size + 2 <= |st.stack|
    ensures |r.stack| == |st.stack|
    ensures FrameAt(r.stack, size, Dynamic, st.head)
    ensures r.head == Addr(size)
    ensures r.stack[0] == Num(size + 2)
    ensures forall i :: 0 < i < |st.stack| && (i < size || size + 2 <= i) ==> r.stack[i] == st.stack[i]
  {
    Roots(st.stack[size := Num(0)][size + 1 := st.head][0 := Num(size + 2)], Addr(size))
  }

  /**
    The roots after popping the frame `idx`: the head becomes the link stored in
    the frame the head points to, and the bump offset is rewound to `idx - 2`.
  */
  function Pop(st: Roots, idx: FrameIdx): (r: Roots)
    requires 2 <= idx.offset
    requires st.head.Addr? && st.head.i + 1 < |st.stack|
    ensures |r.stack| == |st.stack|
    ensures r.stack[0] == Num(idx.offset - 2)
    ensures forall i :: 0 < i < |st.stack| ==> r.stack[i] == st.stack[i]
    ensures r.head == st.stack[st.head.i + 1]
  {
    Roots(st.stack[0 := Num(idx.offset - 2)], st.stack[st.head.i + 1])
  }

  /** The roots after pushing a frame of either kind at offset `size`. */
  function PushKind(st: Roots, size: nat, kind: FrameKind): (r: Roots)
    requires 1 <= size && size + Cells(kind) <= |st.stack|
    ensures |r.stack| == |st.stack|
    ensures FrameAt(r.stack, size, kind, st.head)
    ensures r.head == Addr(size)
    ensures r.stack[0] == Num(size + Cells(kind))
    ensures forall i :: 0 < i < |st.stack| && (i < size || size + Cells(kind) <= i) ==> r.stack[i] == st.stack[i]
  {
    match kind
    case Static(c) => Push(st, size, c)
    case Dynamic => PushDynamic(st, size)
  }

  /**
    The roots after a pushed frame of each kind in `frames`, nested one inside
    the other from offset `size` upward, has been popped again in reverse order.
    Popping every frame with the index its push returned gives back the original
    root-list head and leaves every cell below `size` (but cell 0) alone; the
    bump offset ends where it was before the outermost push.
  */
  function Nested(st: Roots, size: nat, frames: seq<FrameKind>): (r: Roots)
    requires 1 <= size && size + Total(frames) <= |st.stack|
    ensures |r.stack| == |st.stack|
    ensures r.head == st.head
    ensures forall i :: 0 < i < size ==> r.stack[i] == st.stack[i]
    ensures frames != [] ==> r.stack[0] == Num(size)
    decreases |frames|
  {
    if frames == [] then st
    else
      var pushed := PushKind(st, size, frames[0]);
      var inner := Nested(pushed, size + Cells(frames[0]), frames[1..]);
      Pop(inner, FrameIdx(size + 2))
  }

  /**
    The roots after pushing each frame of `frames`, one above the other from
    offset `size`, without popping any.
  */
  function PushAll(st: Roots, size: nat, frames: seq<FrameKind>): (r: Roots)
    requires 1 <= size && size + Total(frames) <= |st.stack|
    ensures |r.stack| == |st.stack|
    ensures forall i :: 0 < i < size ==> r.stack[i] == st.stack[i]
    decreases |frames|
  {
    if frames == [] then st
    else PushAll(PushKind(st, size, frames[0]), size + Cells(frames[0]), frames[1..])
  }

  /**
    After a series of pushes the head points at the last frame pushed and cell 0
    holds the offset just above it.
  */
  lemma {:induction false} PushAllTop(st: Roots, size: nat, frames: seq<FrameKind>)
    requires 1 <= size && size + Total(frames) <= |st.stack|
    ensures var r, offs := PushAll(st, size, frames), Offsets(size, frames);
      && (frames == [] ==> r == st)
      && (frames != [] ==> r.head == Addr(offs[|offs| - 1]) && r.stack[0] == Num(size + Total(frames)))
      && (frames != [] ==> r.stack[0] == Num(offs[|offs| - 1] + Cells(frames[|frames| - 1])))
    decreases |frames|
  {
    if frames != [] {
      var pushed := PushKind(st, size, frames[0]);
      var above := size + Cells(frames[0]);
      var offs, inner := Offsets(size, frames), Offsets(above, frames[1..]);
      PushAllTop(pushed, above, frames[1..]);
      assert PushAll(st, size, frames) == PushAll(pushed, above, frames[1..]);
      assert Total(frames) == Cells(frames[0]) + Total(frames[1..]);
      assert offs == [size] + inner;
      if |frames| == 1 {
        assert PushAll(st, size, frames) == pushed;
      } else {
        assert offs[|offs| - 1] == inner[|inner| - 1];
      }
      assert offs[|offs| - 1] + Cells(frames[|frames| - 1]) == size + Total(frames) by {
        OffsetsContiguous(size, frames);
      }
    }
  }

  /**
    After a series of pushes the root list is exactly the chain of the pushed
    frames, newest first: each frame links to the one pushed before it, and the
    first links to the head that was there before.
  */
  lemma {:induction false} PushAllChain(st: Roots, size: nat, frames: seq<FrameKind>)
    requires 1 <= size && size + Total(frames) <= |st.stack|
    ensures Chained(PushAll(st, size, frames).stack, Offsets(size, frames), frames, st.head)
    decreases |frames|
  {
    if frames != [] {
      var pushed := PushKind(st, size, frames[0]);
      var above := size + Cells(frames[0]);
      var r := PushAll(st, size, frames);
      PushAllChain(pushed, above, frames[1..]);
      assert r == PushAll(pushed, above, frames[1..]);
      FrameKept(pushed.stack, r.stack, size, frames[0], st.head);
      ChainedCons(r.stack, size, frames[0], st.head, Offsets(above, frames[1..]), frames[1..]);
      assert [frames[0]] + frames[1..] == frames;
    }
  }

  /** At push time a dynamic frame is laid out exactly like a static frame of capacity 0. */
  lemma DynamicIsEmptyStatic(st: Roots, size: nat)
    requires 1 <= size && size + 2 <= |st.stack|
    ensures PushDynamic(st, size) == Push(st, size, 0)
  {
  }

  /** Pushes a frame of `capacity` null slots at offset `size` and links it into the root list. */
  method NewFrame(stack: array<Cell>, rtls: ThreadState, size: nat, capacity: nat) returns (idx: FrameIdx)
    requires 1 <= size && size + capacity + 2 <= stack.Length
    modifies stack, rtls
    ensures idx == FrameIdx(size + 2)
    ensures Roots(stack[..], rtls.pgcstack) == Push(Roots(old(stack[..]), old(rtls.pgcstack)), size, capacity)
  {
    stack[size] := Num(2 * capacity);
    stack[size + 1] := rtls.pgcstack;
    ghost var linked := stack[..];
    for i := 0 to capacity
      invariant stack[..] == NullFill(linked, size + 2, i)
    {
      stack[size + 2 + i] := Null;
    }
    rtls.pgcstack := Addr(size);
    stack[0] := Num(size + capacity + 2);
    idx := FrameIdx(size + 2);
  }

  /** Pushes a dynamic frame, which reserves no slots, at offset `size` and links it into the root list. */
  method NewDynamicFrame(stack: array<Cell>, rtls: ThreadState, size: nat) returns (idx: FrameIdx)
    requires 1 <= size && size + 2 <= stack.Length
    modifies stack, rtls
    ensures idx == FrameIdx(size + 2)
    ensures Roots(stack[..], rtls.pgcstack) == PushDynamic(Roots(old(stack[..]), old(rtls.pgcstack)), size)
  {
    stack[size] := Num(0);
    stack[size + 1] := rtls.pgcstack;
    rtls.pgcstack := Addr(size);
    stack[0] := Num(size + 2);
    idx := FrameIdx(size + 2);
  }

  /** Unlinks the frame the root-list head points at and rewinds the bump offset to `idx - 2`. */
  method PopFrame(stack: array<Cell>, rtls: ThreadState, idx: FrameIdx)
    requires 2 <= idx.offset
    requires rtls.pgcstack.Addr? && rtls.pgcstack.i + 1 < stack.Length
    modifies stack, rtls
    ensures Roots(stack[..], rtls.pgcstack) == Pop(Roots(old(stack[..]), old(rtls.pgcstack)), idx)
  {
    rtls.pgcstack := stack[rtls.pgcstack.i + 1];
    stack[0] := Num(idx.offset - 2);
  }

  /**
    Runs nested scopes: pushes a frame of the first kind, runs the remaining
    scopes above it, then pops the frame with the index its push returned.
  */
  method RunNested(stack: array<Cell>, rtls: ThreadState, size: nat, frames: seq<FrameKind>)
    requires 1 <= size && size + Total(frames) <= stack.Length
    modifies stack, rtls
    ensures Roots(stack[..], rtls.pgcstack) == Nested(Roots(old(stack[..]), old(rtls.pgcstack)), size, frames)
    decreases |frames|
  {
    if frames != [] {
      ghost var before := Roots(stack[..], rtls.pgcstack);
      var idx: FrameIdx;
      match frames[0] {
        case Static(c) => idx := NewFrame(stack, rtls, size, c);
        case Dynamic => idx := NewDynamicFrame(stack, rtls, size);
      }
      ghost var pushed := Roots(stack[..], rtls.pgcstack);
      assert pushed == PushKind(before, size, frames[0]);
      RunNested(stack, rtls, size + Cells(frames[0]), frames[1..]);
      assert Roots(stack[..], rtls.pgcstack) == Nested(pushed, size + Cells(frames[0]), frames[1..]);
      PopFrame(stack, rtls, idx);
    }
  }
}
