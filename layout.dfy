/**
  Cells of the GC slot buffer and the layout of one root frame, shared by the
  synchronous and the asynchronous mode.

  A frame placed at offset `o` of the buffer occupies
    - the header cell `o`, holding the frame's capacity shifted left by one bit,
    - the link cell `o + 1`, holding the previous frame of the root list,
    - `capacity` payload cells `o + 2 .. o + 2 + capacity`, null on creation.
  Cell 0 of the buffer always holds the bump offset, the number of cells in use.
*/
module Layout {

  /** One pointer-sized cell of the slot buffer. */
  datatype Cell =
    | Null          // the null pointer
    | Num(n: nat)   // an integer stored in a pointer-sized cell (bump offset, frame header)
    | Addr(i: nat)  // the address of cell `i` of the same buffer

  /** The handle returned by a push: the offset of the frame's first payload cell. */
  datatype FrameIdx = FrameIdx(offset: nat)

  /** A frame with a fixed number of root slots, or a dynamic frame that reserves none up front. */
  datatype FrameKind = Static(capacity: nat) | Dynamic

  /** Number of payload cells a frame reserves when it is pushed. */
  function Capacity(kind: FrameKind): nat
  {
    match kind
    case Static(c) => c
    case Dynamic => 0
  }

  /** Number of buffer cells a frame occupies when it is pushed: header, link and payload. */
  function Cells(kind: FrameKind): nat
  {
    Capacity(kind) + 2
  }

  /** The header word: the capacity shifted left by one bit, and 0 for a dynamic frame. */
  function Header(kind: FrameKind): Cell
  {
    match kind
    case Static(c) => Num(2 * c)
    case Dynamic => Num(0)
  }

  /** Cells occupied by a sequence of frames pushed one above the other. */
  function Total(frames: seq<FrameKind>): nat
  {
    if frames == [] then 0 else Cells(frames[0]) + Total(frames[1..])
  }

  /** Offsets of a sequence of frames pushed one above the other, starting at `size`. */
  function Offsets(size: nat, frames: seq<FrameKind>): (offs: seq<nat>)
    ensures |offs| == |frames|
    decreases |frames|
  {
    if frames == [] then [] else [size] + Offsets(size + Cells(frames[0]), frames[1..])
  }

  /**
    Frames pushed one above the other are contiguous: the first starts at
    `size`, each starts where the one below it ends, and the last ends at
    `size + Total(frames)`.
  */
  lemma {:induction false} OffsetsContiguous(size: nat, frames: seq<FrameKind>)
    ensures var offs := Offsets(size, frames);
      && (frames != [] ==> offs[0] == size && offs[|offs| - 1] + Cells(frames[|frames| - 1]) == size + Total(frames))
      && forall k :: 0 < k < |offs| ==> offs[k] == offs[k - 1] + Cells(frames[k - 1])
    decreases |frames|
  {
    if frames != [] {
      var above := size + Cells(frames[0]);
      var offs, inner := Offsets(size, frames), Offsets(above, frames[1..]);
      OffsetsContiguous(above, frames[1..]);
      assert offs == [size] + inner;
      forall k | 1 < k < |offs|
        ensures offs[k] == offs[k - 1] + Cells(frames[k - 1])
      {
        assert offs[k] == inner[k - 1] && offs[k - 1] == inner[k - 2] && frames[k - 1] == frames[1..][k - 2];
      }
      if |frames| > 1 {
        assert frames[|frames| - 1] == frames[1..][|frames| - 2];
      }
    }
  }

  /**
    The buffer after nulling the `count` payload cells that start at `from`, one
    cell at a time in increasing order.
  */
  function NullFill(s: seq<Cell>, from: nat, count: nat): (r: seq<Cell>)
    requires from + count <= |s|
    ensures |r| == |s|
    ensures forall i :: 0 <= i < |s| ==> r[i] == if from <= i < from + count then Null else s[i]
    decreases count
  {
    if count == 0 then s else NullFill(s, from, count - 1)[from + count - 1 := Null]
  }

  /**
    The buffer `s` holds, at offset `o`, a frame of the given kind whose link is
    `link` and whose payload cells are all null.
  */
  ghost predicate FrameAt(s: seq<Cell>, o: nat, kind: FrameKind, link: Cell)
  {
    && o + Cells(kind) <= |s|
    && s[o] == Header(kind)
    && s[o + 1] == link
    && forall i :: o + 2 <= i < o + Cells(kind) ==> s[i] == Null
  }

  /** A frame whose cells are copied over unchanged is still a frame. */
  lemma FrameKept(a: seq<Cell>, b: seq<Cell>, o: nat, kind: FrameKind, link: Cell)
    requires FrameAt(a, o, kind, link) && |b| == |a|
    requires forall i :: o <= i < o + Cells(kind) ==> b[i] == a[i]
    ensures FrameAt(b, o, kind, link)
  {
  }

  /**
    The buffer `s` holds, at the offsets `offs`, the frames `frames` linked into
    one chain: the first frame links to `base` and every later one to the frame
    below it.
  */
  ghost predicate Chained(s: seq<Cell>, offs: seq<nat>, frames: seq<FrameKind>, base: Cell)
  {
    && |offs| == |frames|
    && (offs != [] ==> FrameAt(s, offs[0], frames[0], base))
    && forall k :: 0 < k < |offs| ==> FrameAt(s, offs[k], frames[k], Addr(offs[k - 1]))
  }

  /** A frame linked to `base`, below a chain linked to that frame, extends the chain downward. */
  lemma ChainedCons(s: seq<Cell>, o: nat, kind: FrameKind, base: Cell, offs: seq<nat>, frames: seq<FrameKind>)
    requires FrameAt(s, o, kind, base)
    requires Chained(s, offs, frames, Addr(o))
    ensures Chained(s, [o] + offs, [kind] + frames, base)
  {
  }
}
