/**
  The asynchronous mode: several logical stacks share Julia's one root list, so
  the frames of one buffer are not linked into the thread-local head. Instead
  cell 2 of the buffer serves as the buffer's own list head: pushing a frame
  stores the old cell 2 in the frame's link cell and points cell 2 at the
  frame; popping frame `idx` copies its link cell `idx - 1` back into cell 2.
  Cells 0, 1 and 2 are reserved, so frames start at offset 3 or above.
*/
module AsyncMode {
  import opened Layout
  import SyncMode

  /** The buffer after pushing a frame of `capacity` slots at offset `size`. */
  function Push(s: seq<Cell>, size: nat, capacity: nat): (r: seq<Cell>)
    requires 3 <= size && size + capacity + 2 <= |s|
    ensures |r| == |s|
    ensures FrameAt(r, size, Static(capacity), s[2])
    ensures r[2] == Addr(size)
    ensures r[0] == Num(size + capacity + 2)
    ensures forall i :: 0 < i < |s| && i != 2 && (i < size || size + capacity + 2 <= i) ==> r[i] == s[i]
  {
    var linked := s[size := Num(2 * capacity)][size + 1 := s[2]];
    NullFill(linked, size + 2, capacity)[2 := Addr(size)][0 := Num(size + capacity + 2)]
  }

  /** The buffer after pushing a dynamic frame at offset `size`. */
  function PushDynamic(s: seq<Cell>, size: nat): (r: seq<Cell>)
    requires 3 <= size && size + 2 <= |s|
    ensures |r| == |s|
    ensures FrameAt(r, size, Dynamic, s[2])
    ensures r[2] == Addr(size)
    ensures r[0] == Num(size + 2)
    ensures forall i :: 0 < i < |s| && i != 2 && (i < size || size + 2 <= i) ==> r[i] == s[i]
  {
    s[size := Num(0)][size + 1 := s[2]][2 := Addr(size)][0 := Num(size + 2)]
  }

  /**
    The buffer after popping the frame `idx`: the bump offset is rewound to
    `idx - 2` and cell 2 gets back the link stored in cell `idx - 1`.
  */
  function Pop(s: seq<Cell>, idx: FrameIdx): (r: seq<Cell>)
    requires 2 <= idx.offset <= |s| && 3 <= |s|
    ensures |r| == |s|
    ensures r[0] == Num(idx.offset - 2)
    ensures r[2] == s[idx.offset - 1]
    ensures forall i :: 0 < i < |s| && i != 2 ==> r[i] == s[i]
  {
    var rewound := s[0 := Num(idx.offset - 2)];
    rewound[2 := rewound[idx.offset - 1]]
  }

  /** The buffer after pushing a frame of either kind at offset `size`. */
  function PushKind(s: seq<Cell>, size: nat, kind: FrameKind): (r: seq<Cell>)
    requires 3 <= size && size + Cells(kind) <= |s|
    ensures |r| == |s|
    ensures FrameAt(r, size, kind, s[2])
    ensures r[2] == Addr(size)
    ensures r[0] == Num(size + Cells(kind))
    ensures forall i :: 0 < i < |s| && i != 2 && (i < size || size + Cells(kind) <= i) ==> r[i] == s[i]
  {
    match kind
    case Static(c) => Push(s, size, c)
    case Dynamic => PushDynamic(s, size)
  }

  /**
    The buffer after a pushed frame of each kind in `frames`, nested one inside
    the other from offset `size` upward, has been popped again in reverse order.
    Cell 2 gets back its original value, every cell below `size` but cell 0 is
    left alone, and the bump offset ends where it was before the outermost push.
  */
  function Nested(s: seq<Cell>, size: nat, frames: seq<FrameKind>): (r: seq<Cell>)
    requires 3 <= size && size + Total(frames) <= |s|
    ensures |r| == |s|
    ensures forall i :: 0 < i < size ==> r[i] == s[i]
    ensures frames != [] ==> r[0] == Num(size)
    decreases |frames|
  {
    if frames == [] then s
    else
      var pushed := PushKind(s, size, frames[0]);
      var inner := Nested(pushed, size + Cells(frames[0]), frames[1..]);
      Pop(inner, FrameIdx(size + 2))
  }

  /**
    The buffer after pushing each frame of `frames`, one above the other from
    offset `size`, without popping any.
  */
  function PushAll(s: seq<Cell>, size: nat, frames: seq<FrameKind>): (r: seq<Cell>)
    requires 3 <= size && size + Total(frames) <= |s|
    ensures |r| == |s|
    ensures forall i :: 0 < i < size && i != 2 ==> r[i] == s[i]
    decreases |frames|
  {
    if frames == [] then s
    else PushAll(PushKind(s, size, frames[0]), size + Cells(frames[0]), frames[1..])
  }

  /**
    After a series of pushes cell 2 points at the last frame pushed and cell 0
    holds the offset just above it.
  */
  lemma {:induction false} PushAllTop(s: seq<Cell>, size: nat, frames: seq<FrameKind>)
    requires 3 <= size && size + Total(frames) <= |s|
    ensures var r, offs := PushAll(s, size, frames), Offsets(size, frames);
      && (frames == [] ==> r == s)
      && (frames != [] ==> r[2] == Addr(offs[|offs| - 1]) && r[0] == Num(size + Total(frames)))
      && (frames != [] ==> r[0] == Num(offs[|offs| - 1] + Cells(frames[|frames| - 1])))
    decreases |frames|
  {
    if frames != [] {
      var pushed := PushKind(s, size, frames[0]);
      var above := size + Cells(frames[0]);
      var offs, inner := Offsets(size, frames), Offsets(above, frames[1..]);
      var r := PushAll(s, size, frames);
      PushAllTop(pushed, above, frames[1..]);
      assert r == PushAll(pushed, above, frames[1..]);
      assert Total(frames) == Cells(frames[0]) + Total(frames[1..]);
      assert offs == [size] + inner;
      if |frames| == 1 {
        assert r == pushed;
        assert r[2] == Addr(size);
      } else {
        assert r[2] == Addr(inner[|inner| - 1]);
        assert offs[|offs| - 1] == inner[|inner| - 1];
      }
      assert offs[|offs| - 1] + Cells(frames[|frames| - 1]) == size + Total(frames) by {
        OffsetsContiguous(size, frames);
      }
    }
  }

  /**
    After a series of pushes the frames form a chain behind cell 2, newest
    first: each frame links to the one pushed before it, and the first links to
    the value cell 2 held before.
  */
  lemma {:induction false} PushAllChain(s: seq<Cell>, size: nat, frames: seq<FrameKind>)
    requires 3 <= size && size + Total(frames) <= |s|
    ensures Chained(PushAll(s, size, frames), Offsets(size, frames), frames, s[2])
    decreases |frames|
  {
    if frames != [] {
      var pushed := PushKind(s, size, frames[0]);
      var above := size + Cells(frames[0]);
      var r := PushAll(s, size, frames);
      PushAllChain(pushed, above, frames[1..]);
      assert r == PushAll(pushed, above, frames[1..]);
      FrameKept(pushed, r, size, frames[0], s[2]);
      ChainedCons(r, size, frames[0], s[2], Offsets(above, frames[1..]), frames[1..]);
      assert [frames[0]] + frames[1..] == frames;
    }
  }

  /**
    The asynchronous push lays a frame out exactly as the synchronous push
    does, with cell 2 playing the part of the root-list head.
  */
  lemma SameShapeAsSync(s: seq<Cell>, size: nat, kind: FrameKind)
    requires 3 <= size && size + Cells(kind) <= |s|
    ensures var st := SyncMode.PushKind(SyncMode.Roots(s, s[2]), size, kind);
      PushKind(s, size, kind) == st.stack[2 := st.head]
  {
  }

  /** Pushes a frame of `capacity` null slots at offset `size` and links it behind cell 2. */
  method NewFrame(stack: array<Cell>, size: nat, capacity: nat) returns (idx: FrameIdx)
    requires 3 <= size && size + capacity + 2 <= stack.Length
    modifies stack
    ensures idx == FrameIdx(size + 2)
    ensures stack[..] == Push(old(stack[..]), size, capacity)
  {
    stack[size] := Num(2 * capacity);
    stack[size + 1] := stack[2];
    ghost var linked := stack[..];
    for i := 0 to capacity
      invariant stack[..] == NullFill(linked, size + 2, i)
    {
      stack[size + 2 + i] := Null;
    }
    stack[2] := Addr(size);
    stack[0] := Num(size + capacity + 2);
    idx := FrameIdx(size + 2);
  }

  /** Pushes a dynamic frame, which reserves no slots, at offset `size` and links it behind cell 2. */
  method NewDynamicFrame(stack: array<Cell>, size: nat) returns (idx: FrameIdx)
    requires 3 <= size && size + 2 <= stack.Length
    modifies stack
    ensures idx == FrameIdx(size + 2)
    ensures stack[..] == PushDynamic(old(stack[..]), size)
  {
    stack[size] := Num(0);
    stack[size + 1] := stack[2];
    stack[2] := Addr(size);
    stack[0] := Num(size + 2);
    idx := FrameIdx(size + 2);
  }

  /** Rewinds the bump offset to `idx - 2` and restores cell 2 from the frame's link cell. */
  method PopFrame(stack: array<Cell>, idx: FrameIdx)
    requires 2 <= idx.offset <= stack.Length && 3 <= stack.Length
    modifies stack
    ensures stack[..] == Pop(old(stack[..]), idx)
  {
    stack[0] := Num(idx.offset - 2);
    stack[2] := stack[idx.offset - 1];
  }

  /**
    Runs nested scopes: pushes a frame of the first kind, runs the remaining
    scopes above it, then pops the frame with the index its push returned.
  */
  method RunNested(stack: array<Cell>, size: nat, frames: seq<FrameKind>)
    requires 3 <= size && size + Total(frames) <= stack.Length
    modifies stack
    ensures stack[..] == Nested(old(stack[..]), size, frames)
    decreases |frames|
  {
    if frames != [] {
      ghost var before := stack[..];
      var idx: FrameIdx;
      match frames[0] {
        case Static(c) => idx := NewFrame(stack, size, c);
        case Dynamic => idx := NewDynamicFrame(stack, size);
      }
      ghost var pushed := stack[..];
      assert pushed == PushKind(before, size, frames[0]);
      RunNested(stack, size + Cells(frames[0]), frames[1..]);
      assert stack[..] == Nested(pushed, size + Cells(frames[0]), frames[1..]);
      PopFrame(stack, idx);
    }
  }
}
