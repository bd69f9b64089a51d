# jlrs GC-frame push/pop protocol, modelled in Dafny

jlrs embeds Julia in Rust. Values that Rust code holds must stay visible to
Julia's garbage collector, so jlrs keeps a slot buffer (`stack`) of
pointer-sized cells and writes Julia's root-frame layout into it. Each frame at
offset `size` has a header cell `stack[size]` with `capacity << 1` (0 for a
dynamic frame), a link cell `stack[size + 1]` with the previous frame, and
`capacity` payload cells, all null when the frame is pushed. Cell 0 always holds
the bump offset. A push returns the frame index `size + 2`, and a pop rewinds
cell 0 to `idx - 2`.

The `Mode` trait has two implementations. They differ in where the root-list
head lives:

- `Sync` links every frame into Julia's thread-local head `pgcstack`. A push
  stores the old head in the link cell and points the head at the frame. A pop
  sets the head to the `prev` link of the frame the head points to.
- `Async` leaves the thread-local head alone and uses buffer cell 2 as the
  buffer's own list head. A push stores the old cell 2 in the link cell and
  points cell 2 at the frame. A pop copies `stack[idx - 1]` back into cell 2.

The model has three modules:

- `Layout` (`layout.dfy`) defines the cells (`Null`, `Num(n)` for an integer
  stored in a cell, `Addr(i)` for the address of cell `i`), the frame index, the
  frame kinds, the frame layout predicate `FrameAt`, the chain predicate
  `Chained` and `NullFill`, which is the payload-nulling loop as a function.
- `SyncMode` (`sync_mode.dfy`) models the three `Sync` operations. Each one is a
  method on an `array<Cell>` plus a `ThreadState` object. That object holds
  `pgcstack` explicitly, where the Rust code reads it from Julia. Each method is
  proved equal to a function on values (`Roots`: the buffer contents plus the
  head).
- `AsyncMode` (`async_mode.dfy`) models the three `Async` operations. Each one
  is a method that modifies only the array, and each is proved equal to a
  function on `seq<Cell>`.

In both modes, the properties are proved about those functions:

- the exact frame layout;
- that nothing else changes;
- that frames pushed one above the other form a chain, newest first, behind
  the head (or behind cell 2);
- that nested pushes popped in reverse order restore the head (or cell 2) and
  the bump offset.

`RunNested` runs that nesting with the methods themselves.

Notes on the code:

- A pop rewinds cell 0 to `idx - 2` (jlrs/src/mode.rs:59 and 124).
- The `Sync` pop sets the head to `(*pgcstack).prev` (jlrs/src/mode.rs:58): the
  link of whatever frame the head points to, not a cell chosen by `idx`.
  `SyncMode.Pop` models that, and the nesting proofs show that, when frames are
  popped in reverse order, this is the link of the frame `idx`.
- The `Async` impl never reads or writes `pgcstack`.

## Model

| member | source | states |
|---|---|---|
| Layout.NullFill | jlrs/src/mode.rs:33-35 | nulling `count` cells from `from`, one at a time, makes exactly the cells `from .. from + count` null and leaves every other cell as it was |
| Layout.OffsetsContiguous | jlrs/src/mode.rs:38-40 | frames pushed one above the other are contiguous: the first starts at `size`, each starts where the one below ends (`capacity + 2` cells later), the last ends at `size` plus the total |
| SyncMode.ThreadState.constructor | jlrs/src/mode.rs:29 | the thread-local state starts with the given root-list head |
| SyncMode.Push | jlrs/src/mode.rs:28-41 | header `2 * capacity` at `size`, link cell = old head, every payload cell null, head = address of `stack[size]`, cell 0 = `size + capacity + 2`, every other cell unchanged |
| SyncMode.PushDynamic | jlrs/src/mode.rs:44-53 | header 0 at `size`, link cell = old head, no payload, head = address of `stack[size]`, cell 0 = `size + 2`, every other cell unchanged |
| SyncMode.Pop | jlrs/src/mode.rs:56-60 | head becomes the `prev` link of the frame it points to, cell 0 = `idx - 2`, every other cell unchanged |
| SyncMode.PushKind | jlrs/src/mode.rs:28-53 | a push of either kind lays out the frame, links it to the old head, makes it the head and sets cell 0 past it, changing nothing else |
| SyncMode.Nested | jlrs/src/mode.rs:28-60 | nested push/pop pairs in LIFO order restore the root-list head, rewind cell 0 to the outermost `size` and leave every cell below `size` alone |
| SyncMode.PushAll | jlrs/src/mode.rs:28-53 | a series of pushes changes nothing below the first frame except cell 0 |
| SyncMode.PushAllTop | jlrs/src/mode.rs:37-38 | after a series of pushes the head points at the last frame pushed and cell 0 is just above it; an empty series changes nothing |
| SyncMode.PushAllChain | jlrs/src/mode.rs:29-37 | after a series of pushes every frame is laid out correctly, and the frames form the root list newest first, the oldest linked to the old head |
| SyncMode.DynamicIsEmptyStatic | jlrs/src/mode.rs:44-53 | at push time a dynamic frame is identical to a static frame of capacity 0 |
| SyncMode.NewFrame | jlrs/src/mode.rs:28-41 | the method, with its nulling loop, leaves the buffer and head exactly as `Push` describes and returns `size + 2` |
| SyncMode.NewDynamicFrame | jlrs/src/mode.rs:44-53 | the method leaves the buffer and head exactly as `PushDynamic` describes and returns `size + 2` |
| SyncMode.PopFrame | jlrs/src/mode.rs:56-60 | the method leaves the buffer and head exactly as `Pop` describes |
| SyncMode.RunNested | jlrs/src/mode.rs:28-60 | running the push methods, the nested scopes and the pop method gives the state `Nested` describes, so the head is restored |
| AsyncMode.Push | jlrs/src/mode.rs:97-109 | header `2 * capacity` at `size`, link cell = old cell 2, every payload cell null, cell 2 = address of `stack[size]`, cell 0 = `size + capacity + 2`, every other cell unchanged |
| AsyncMode.PushDynamic | jlrs/src/mode.rs:112-120 | header 0 at `size`, link cell = old cell 2, no payload, cell 2 = address of `stack[size]`, cell 0 = `size + 2`, every other cell unchanged |
| AsyncMode.Pop | jlrs/src/mode.rs:123-126 | cell 0 = `idx - 2`, cell 2 = the link cell `stack[idx - 1]`, every other cell unchanged |
| AsyncMode.PushKind | jlrs/src/mode.rs:97-120 | a push of either kind lays out the frame, links it to the old cell 2, points cell 2 at it and sets cell 0 past it, changing nothing else |
| AsyncMode.Nested | jlrs/src/mode.rs:97-126 | nested push/pop pairs in LIFO order restore cell 2, rewind cell 0 to the outermost `size` and leave every cell below `size` alone |
| AsyncMode.PushAll | jlrs/src/mode.rs:97-120 | a series of pushes changes nothing below the first frame except cells 0 and 2 |
| AsyncMode.PushAllTop | jlrs/src/mode.rs:105-106 | after a series of pushes cell 2 points at the last frame pushed and cell 0 is just above it; an empty series changes nothing |
| AsyncMode.PushAllChain | jlrs/src/mode.rs:65-94 | after a series of pushes every frame is laid out correctly, and the frames form a chain behind cell 2 newest first, the oldest linked to the old cell 2 |
| AsyncMode.SameShapeAsSync | jlrs/src/mode.rs:97-120 | an async push writes exactly what a sync push writes, with cell 2 in place of the thread-local head |
| AsyncMode.NewFrame | jlrs/src/mode.rs:97-109 | the method, with its nulling loop, leaves the buffer exactly as `Push` describes, touches no other state and returns `size + 2` |
| AsyncMode.NewDynamicFrame | jlrs/src/mode.rs:112-120 | the method leaves the buffer exactly as `PushDynamic` describes, touches no other state and returns `size + 2` |
| AsyncMode.PopFrame | jlrs/src/mode.rs:123-126 | the method leaves the buffer exactly as `Pop` describes and touches no other state |
| AsyncMode.RunNested | jlrs/src/mode.rs:97-126 | running the push methods, the nested scopes and the pop method gives the buffer `Nested` describes, so cell 2 is restored |

## Left out

- Julia's thread-local state: `jl_get_ptls_states()` is replaced by a
  `ThreadState` object passed in explicitly. Only its `pgcstack` field is
  modelled.
- SyncMode.Pop: the frame the head points to is dereferenced only when the head
  points into this buffer (`Addr(i)` with `i + 1` in range). Julia's own frames
  and other memory outside the buffer are not modelled.
- SyncMode.PopFrame: has the same restriction as `SyncMode.Pop`.
- Bit-level representation: pointer/`usize` casts and the `capacity << 1`
  overflow are not modelled. The header is `Num(2 * capacity)`, and `Num(0)`
  (the dynamic header) and `Null` are distinct cells, although both are the zero
  word in the Rust code.
- Frame offsets: the pushes require `size >= 1` (`Sync`) or `size >= 3`
  (`Async`), because cell 0 (and cells 1 and 2 in async mode) are reserved by
  the caller. The pops require `idx >= 2`, since `idx - 2` would underflow
  otherwise. Out-of-range slice indexing, a panic in the Rust code, is excluded
  by preconditions.
- The capacity check and its error happen in `StackView`, and the appending of
  slots to a dynamic frame happens in the frame types. The error is the
  `JlrsResult` error that `StackView::new_frame` returns (src/lib.rs:278 and
  314). The source of `StackView` and of the frame types is not shown, so that
  code is not part of this model.
- Filling payload slots between a push and its pop is done by the frame types.
  They are not part of this model.
- Compile-time gating and the sealed-trait pattern: the two modes are two
  modules.
- src/lib.rs is not part of this model. Its runtime start-up and shutdown,
  `include`, and the closure-driven `frame`/`dynamic_frame` are foreign calls
  and plumbing.
- The integration tests run real Julia code and floating point, so they are not
  modelled.
- The schematic comment in `Async` shows several buffers side by side. The model
  covers one buffer, and its chain behind cell 2.
