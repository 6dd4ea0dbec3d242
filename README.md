# image_editor core, modelled in Dafny

This project models the three sequential components of the image editor's
`editor` module that hold its editing logic:

- **The undo/redo history** (`ImageDataList`, src/editor/image_data_list.rs).
  It keeps at most ten canvas snapshots and a cursor. `push` discards every
  snapshot after the cursor, evicts the oldest one when ten remain, appends
  the new snapshot and moves the cursor onto it. `clone_push` pushes a copy
  of the current snapshot. `undo` and `redo` move the cursor by one and
  return the snapshot now under it.
- **The single-flight mode manager** (`ModeManager`, src/editor/mode_manager.rs).
  It is either `Idle` or `Run(g)`. `try_run` admits an operation only when
  idle and hands it a fresh generation `g` from a 16-bit counter.
  `match_run_id` lets a continuation check that it has not been superseded,
  and `to_idle` releases the manager.
- **The binarization filter** (`binarization`, src/editor/binarization.rs).
  It makes one pass over an RGBA byte buffer. Every colour byte above 128
  becomes 255 and every other colour byte becomes 0. Alpha bytes, at
  indices `i % 4 == 3`, are left as they are.

Files:

- `wrappers.dfy` holds `Option`.
- `image_data.dfy` holds the byte and `u32` types. It also holds the snapshot
  value `ImageDataWrapper`: pixel bytes plus width and height.
- `image_data_list.dfy` is module `History`.
- `mode_manager.dfy` is module `ModeManagement`.
- `binarization.dfy` is module `Binarization`.

History and mode manager follow one pattern. A value type (`ListState` or
`ManagerState`) gets a function for each operation that changes it
non-trivially, and lemmas are proved about those functions. A class with the
Rust struct's fields performs the same steps in place. Each such method
states that the new `State()` is that function of the old one. `ToIdle` only
resets the mode, so its contract states the new fields directly. Each class
has a `Valid()` invariant that its constructor establishes and its methods
preserve:

- The history holds at most ten snapshots, and the cursor points at one of
  them, or is 0 when the history is empty.
- If the manager is `Run(g)`, then `g` is the current value of the counter.

The Rust fields are private, so every reachable object satisfies `Valid()`.
No method requires it, and what a method promises about the invariant is
conditioned on it. `undo` indexes the vector at the decremented cursor. That
index is out of range only when the cursor is past the end of the list, so
`Undone` and `Undo` require the cursor to be at most the length. `redo`'s
guard keeps its index in range in every state, so `Redone` and `Redo` have
no precondition.

`ImageDataWrapper` does not require `|data| == width * height * 4`, because
`ImageDataWrapper::new` (src/engine/image_data.rs:16-26) does not check it.

## Model

| member | source | states |
|---|---|---|
| `History.Pushed` | src/editor/image_data_list.rs:41-48 | after `push(x)` the list is non-empty, the cursor is on its last entry and that entry is `x`; a list of at most 10 stays at most 10; the history invariant is kept |
| `History.ClonePushed` | src/editor/image_data_list.rs:50-54 | on an empty history nothing changes; otherwise the cursor ends on a new last entry equal to the snapshot that was current, and the invariant is kept |
| `History.ClonePushedIsPush` | src/editor/image_data_list.rs:50-54 | on a history with a current snapshot, `clone_push` gives exactly the history that `push` of that snapshot gives |
| `History.Undone` | src/editor/image_data_list.rs:63-70 | defined whenever the cursor is at most the length; the list is never changed and the invariant is kept; nothing is returned exactly when the cursor is at 0, and then nothing changes; otherwise the cursor drops by one and the entry now under it is returned |
| `History.Redone` | src/editor/image_data_list.rs:72-80 | defined in every state; the list is never changed and the invariant is kept; on a valid history nothing is returned exactly when it is empty or the cursor is on the last entry, and then nothing changes; otherwise the cursor rises by one and the entry now under it is returned |
| `History.PushKeepsPrefix` | src/editor/image_data_list.rs:42-46 | `push` keeps the entries at `0..=cursor` in order (dropping the first of them when they number 10) and discards everything after the cursor |
| `History.PushAfterUndoTruncates` | src/editor/image_data_list.rs:41-70 | from `[A,B,C]` at `C`, `undo` returns `B` and a following `push(D)` yields `[A,B,D]` with the cursor on `D` |
| `History.UndoThenRedo` | src/editor/image_data_list.rs:63-80 | a successful `undo` followed by `redo` restores the list and cursor, and `redo` returns the entry that was current before the `undo` |
| `History.RedoThenUndo` | src/editor/image_data_list.rs:63-80 | a successful `redo` followed by `undo` restores the list and cursor and returns the entry that was current before the `redo` |
| `History.ClonePushScenario` | src/editor/image_data_list.rs:41-54 | `clone_push` on a new history is a no-op; after `push(A)` it yields `[A,A]` with the cursor on the copy |
| `History.PushAtLast` | src/editor/image_data_list.rs:41-48 | a push while the cursor is on the newest entry keeps the ten most recent of the old entries followed by the new one |
| `History.PushedAllKeepsLatest` | src/editor/image_data_list.rs:4-48 | any run of pushes from a history at its newest entry leaves exactly the ten most recent snapshots, the invariant holds and the cursor is on the newest |
| `History.ImageDataList.constructor` | src/editor/image_data_list.rs:13-18 | a new history is empty with cursor 0; `is_empty`, `is_first` and `is_last` hold and `get_image_data` gives nothing |
| `History.ImageDataList.GetImageData` | src/editor/image_data_list.rs:20-22 | returns the entry under the cursor when there is one; under the invariant it returns nothing exactly when the history is empty |
| `History.ImageDataList.IsEmpty` | src/editor/image_data_list.rs:29-31 | true exactly when there are no snapshots, and then `clone_push` changes nothing |
| `History.ImageDataList.IsFirst` | src/editor/image_data_list.rs:33-35 | whenever the cursor is at most the length, true exactly when `undo` would return nothing |
| `History.ImageDataList.IsLast` | src/editor/image_data_list.rs:37-39 | on a valid history, true exactly when `redo` would return nothing |
| `History.ImageDataList.Push` | src/editor/image_data_list.rs:41-48 | truncates, evicts and appends in place so that the new state is `Pushed` of the old; keeps the invariant; the cursor is on the pushed snapshot |
| `History.ImageDataList.ClonePush` | src/editor/image_data_list.rs:50-54 | the new state is `Pushed` of the old with a copy of the current snapshot, or unchanged when there is no current snapshot |
| `History.ImageDataList.Undo` | src/editor/image_data_list.rs:63-70 | moves the cursor as `Undone` says, leaves the list unchanged and returns the entry now under the cursor, or nothing at index 0 |
| `History.ImageDataList.Redo` | src/editor/image_data_list.rs:72-80 | moves the cursor as `Redone` says, leaves the list unchanged and returns the entry now under the cursor, or nothing at the last entry |
| `ModeManagement.RunState` | src/editor/mode_manager.rs:29-33 | `to_run` raises the counter by exactly one and leaves the manager running under the new counter value |
| `ModeManagement.TryRunState` | src/editor/mode_manager.rs:39-45 | a generation is granted exactly when the manager was idle; it is the old counter plus one and the manager becomes `Run` of it; otherwise nothing changes; the manager is always running afterwards |
| `ModeManagement.Replay` | src/editor/mode_manager.rs:29-45 | over any run of `try_run`/`to_idle` calls whose `try_run` calls cannot push the counter past 65535, the generations granted are the consecutive counter values after the starting one, the counter never decreases and the invariant is kept |
| `ModeManagement.GenerationsIncrease` | src/editor/mode_manager.rs:29-33 | each granted generation is strictly greater than every earlier one and than the starting counter |
| `ModeManagement.AdmissionExclusive` | src/editor/mode_manager.rs:39-45 | without `to_idle`, at most one `try_run` succeeds, none succeeds when already running, and the manager stays running |
| `ModeManagement.SupersededNeverMatches` | src/editor/mode_manager.rs:25-45 | once the counter has passed a generation, that generation never matches again after any further calls |
| `ModeManagement.SupersedeScenario` | src/editor/mode_manager.rs:25-45 | `try_run` grants `g`, which then matches; after `to_idle` and `try_run` granting `g'`, `g' > g`, `g'` matches and `g` does not |
| `ModeManagement.ModeManager.constructor` | src/editor/mode_manager.rs:14-19 | a new manager is idle with counter 0 |
| `ModeManagement.ModeManager.IsIdle` | src/editor/mode_manager.rs:21-23 | true exactly when the mode is `Idle`, which (below the overflow bound) is exactly when `try_run` would admit an operation |
| `ModeManagement.ModeManager.MatchRunId` | src/editor/mode_manager.rs:25-27 | true exactly when the mode is `Run(g)`, never when idle, and under the invariant only for the latest generation |
| `ModeManagement.ModeManager.ToRun` | src/editor/mode_manager.rs:29-33 | raises the counter by one, runs under it and returns it |
| `ModeManagement.ModeManager.ToIdle` | src/editor/mode_manager.rs:35-37 | sets the mode to `Idle` and leaves the counter alone |
| `ModeManagement.ModeManager.TryRun` | src/editor/mode_manager.rs:39-45 | updates the fields as `TryRunState` says: returns the old counter plus one, which then matches, exactly when it was idle, and otherwise changes nothing |
| `Binarization.Binarized` | src/editor/binarization.rs:12-23 | the buffer keeps its length, alpha bytes keep their value, colour bytes above 128 become 255, and colour bytes of 128 or less become 0 |
| `Binarization.BinarizedIsTwoValued` | src/editor/binarization.rs:17-21 | after the pass every colour byte is 0 or 255 |
| `Binarization.BinarizedIdempotent` | src/editor/binarization.rs:12-23 | a second pass leaves the buffer as the first left it |
| `Binarization.BinarizedIsLocal` | src/editor/binarization.rs:13-22 | an output byte depends only on its index and its own input byte |
| `Binarization.BinarizedPixel` | src/editor/binarization.rs:12-23 | `[10,200,50,255]` becomes `[0,255,0,255]`, and `[128,129,0,7]` becomes `[0,255,0,7]` |
| `Binarization.Binarization` | src/editor/binarization.rs:12-23 | overwrites the array in place so that it ends up as `Binarized` of its old contents |

## Left out

- `ModeManagement.ModeManager.ToRun`: requires the counter to be below 65535. The `u16` `+=` at 65535 would panic in a debug build and wrap to 0 in a release build, and this model does not cover that case.
- `ModeManagement.ModeManager.TryRun`: when idle, requires the counter to be below 65535, for the same reason. `TryRunState` and `RunState` carry the same no-overflow precondition. `Replay` and the lemmas about it (`GenerationsIncrease`, `AdmissionExclusive`, `SupersededNeverMatches`) require the starting counter plus the number of `try_run` calls in the run to be at most 65535. `to_idle` calls are not bounded.
- `get_image_data_inner_mut` and `data_to_image_data` (src/editor/image_data_list.rs:24-27, 56-61) are not modelled. The first hands out a mutable borrow of the current snapshot's bytes. The second rebuilds the browser `ImageData` from those bytes, which is a foreign call.
- Snapshots are values. A clone is therefore the same value, and the deep copy of the byte buffer and the absence of aliasing between history slots are not modelled.
- The event handlers around the filter (src/editor/binarization.rs:25-94) are not modelled. Neither are the undo/redo, file-input, save and theme handlers. They consist of DOM callbacks, timeouts, `spawn_local` and `try_lock` on the shared editor.
- The `Editor` composition (src/editor.rs) is not modelled. It wires the renderer, the canvas and the UI elements together.
- The image-loading future bridge (src/engine/image.rs) and the floating-point fitting and centring geometry are not modelled.
- The browser wrappers under src/browser and src/engine are not modelled.
