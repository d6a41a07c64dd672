# beatcode overlay: hotkey-driven window control

A Dafny model of the core of beatcode, a small always-on-top desktop overlay
window steered by global hotkeys. The model covers:

- the hotkey identifier lookup table (`KeyLookup`, ten `u32` slots) and how
  `main` fills it;
- the decoding of a global hotkey event into a command (close, or move
  right/left/up/down). The first matching slot among 0..4 wins; anything else
  is ignored;
- the application state `Counter`: an `i64` value, the remembered window id
  and the remembered window position;
- its message handler `Counter::update`, as a class method that changes these
  fields in place and returns the task the runtime should run: none, exit,
  fetch the native handle, perform a move request, or move the window;
- the overlay styling of the `GotRawId` arm. The extended style word loses
  `WS_EX_APPWINDOW` and gains `WS_EX_TOOLWINDOW | WS_EX_TOPMOST |
  WS_EX_LAYERED | WS_EX_TRANSPARENT`. The Win32 calls around it are returned
  as a sequence of recorded native calls.

Modules: `Wrappers` (Option), `Ints` (fixed-width integers, wrap-around,
truncation), `Geometry` (points, move offsets), `Hotkeys` (lookup table and
decoding), `Overlay` (style word and native calls), `App` (messages, tasks,
the `Counter` class, its specification functions `NextState` and `Effects`,
and the lemmas about single messages and message sequences).

Modelling choices:

- `Counter::update` is `App.Counter.Update`. Its postcondition ties the new
  fields to `NextState(old state, message)` and the returned task and native
  calls to `Effects(...)`. The properties are proved as lemmas about these
  two functions.
- The result of `GetWindowLongPtrW(hwnd, GWL_EXSTYLE)` is a parameter of
  `Update`, given as the 64-bit pattern of the `isize`. Its `as u32` cast is
  `Ints.Low32`, which keeps the low 32 bits. The written-back value is the
  `u32` word, which `as isize` zero-extends.
- `self.value += 1` / `-= 1` on `i64` are modelled with two's-complement
  wrap-around (`WrappingInc`, `WrappingDec`).
- `iced::Point` coordinates (`f32`) are integers. This restricts the start
  position the framework reports in `Opened` to integer coordinates; each
  move then adds an exact ±40.
- `window::Id` is a datatype over an opaque token, compared only for
  equality. `window::Event` is `Opened(position)` plus representatives of
  the other events, which the handler ignores.
- `Task::perform(async { dir }, Message::MoveWindow)` is the task
  `Perform(dir)`. It stands for the later delivery of `MoveWindow(dir)`.
- The hotkey ids are inputs (`HotkeyIds`). Registering them with the OS is
  not modelled.

Two behaviours of the code worth noting:

- The code never resets the window id or position on close, or on any window
  event other than `Opened`. A later `Opened` event overwrites both.
- `main` writes each hotkey's id into the table whether or not
  `manager.register` succeeds. A binding that failed to register still
  occupies its slot; it simply never fires.

## Model

| member | source | states |
|---|---|---|
| `Ints.WrappingInc` | src/main.rs:102-105 | `value += 1` gives the i64 congruent to value + 1 modulo 2^64, which is exactly value + 1 below i64::MAX |
| `Ints.WrappingDec` | src/main.rs:106-109 | `value -= 1` gives the i64 congruent to value - 1 modulo 2^64, which is exactly value - 1 above i64::MIN |
| `Ints.IncDecInverse` | src/main.rs:102-109 | incrementing then decrementing (and the reverse) restores the value, also across the wrap-around |
| `Ints.Low32` | src/main.rs:122 | the `as u32` cast of the read style keeps exactly its low 32 bits |
| `Geometry.OffsetIsOneStep` | src/main.rs:193-213 | every move offset is along one axis, of length 40, pointing the way its name says (Up is negative y) |
| `Geometry.OppositeOffsetsCancel` | src/main.rs:193-213 | offset(Left) + offset(Right) = (0, 0), and likewise for Up and Down |
| `Geometry.TranslatePlus` | src/main.rs:195 | translating by two vectors in turn is translating by their sum |
| `Hotkeys.Slot` | src/main.rs:148-167 | every command's slot is among 0..4 (Close 0, Right 1, Left 2, Up 3, Down 4) |
| `Hotkeys.SlotInjective` | src/main.rs:148-167 | different commands have different slots |
| `Hotkeys.Decode` | src/main.rs:142-176 | a released key gives no command; a pressed key gives a command iff its id is among slots 0..4, and then the command of the lowest such slot |
| `Hotkeys.SetUpKeyLookup` | src/main.rs:21-46 | after setup, slots 0..4 hold the Close, Right, Left, Up and Down ids in that order and slots 5..9 are still 0 |
| `Hotkeys.PopulatedSlot` | src/main.rs:21-46 | in a populated table the slot of every command holds that command's id |
| `Hotkeys.LookupRoundTrip` | src/main.rs:148-167 | with distinct ids, pressing the hotkey assigned to a command decodes to exactly that command |
| `Hotkeys.ForeignIdUnrecognized` | src/main.rs:168-170 | an id assigned to none of the five bindings (including the sentinel 0) decodes to nothing |
| `Overlay.OverlayStyle` | src/main.rs:122-127 | the new style has TOOLWINDOW, TOPMOST, LAYERED and TRANSPARENT set, APPWINDOW clear, and every other bit as before |
| `Overlay.OverlayBitsUnique` | src/main.rs:122-127 | those three conditions determine the new style word uniquely |
| `Overlay.OverlayStyleIdempotent` | src/main.rs:122-127 | styling an already styled word changes nothing |
| `Overlay.StyleAsOverlay` | src/main.rs:119-138 | the step-by-step clear-then-set computation issues exactly the specified sequence of native calls |
| `App.Counter.constructor` | src/main.rs:59-66 | the application starts with value 0, no window id and no window position, holding the given lookup table |
| `App.Counter.Update` | src/main.rs:100-221 | the new fields are `NextState` of the old ones and the message; the returned task and native calls are `Effects` of the same |
| `App.Start` | src/main.rs:15-66 | `main` yields a fresh application in its initial state whose lookup table holds the five ids in slot order |
| `App.ButtonsStepValue` | src/main.rs:102-109 | Increment raises the value by one and Decrement lowers it by one (away from the i64 bounds); both return no task, issue no native call, leave the window id and position alone, and undo each other |
| `App.OpenedRecordsWindow` | src/main.rs:110-114 | an Opened event stores the window id and the possibly absent position, keeps the value, and returns GetRawId for that same id |
| `App.OtherWindowEventsIgnored` | src/main.rs:216-219 | every other window event changes nothing and returns no task |
| `App.GotRawIdStylesWindow` | src/main.rs:115-141 | GotRawId changes no field and returns no task; it issues capture exclusion, the style read, the write of the overlay style of the read style's low 32 bits, and the topmost z-order call without move, resize or activation, in that order |
| `App.HotKeyDispatch` | src/main.rs:142-176 | no hotkey event changes the state; Released gives no task; the slot 0 id gives Exit whatever the window state; the id first found in a move slot gives that move; an id outside slots 0..4 gives no task |
| `App.MoveWithoutWindowIsNoOp` | src/main.rs:177-192 | with the window id or the position unknown, a move leaves the state unchanged and issues no move |
| `App.MoveWhenActive` | src/main.rs:193-213 | with both known, the new position is the old one plus the direction's offset, the returned MoveTo carries the stored id and exactly the stored new position, and the value and id are unchanged |
| `App.OppositeMovesRestore` | src/main.rs:193-213 | a move followed by the opposite move (Left then Right, Up then Down, and conversely) restores the whole state |
| `App.RunAccumulatesMoves` | src/main.rs:177-213 | once a window is known, any message sequence that opens no window ends at the start position plus the sum of the offsets of its move commands, whatever is interleaved, and keeps the window id |
| `App.RunBeforeOpenKeepsWindowState` | src/main.rs:177-192 | before any window opens, messages that open none leave the window id unset and the position unchanged: every move is dropped |
| `App.OpenRightDownScenario` | src/main.rs:110-213 | a window opened at (100, 100) that gets Right then Down ends at (140, 140), and the moves are issued to (140, 100) and then (140, 140) |

## Left out

- Registering the hotkeys with the OS (`GlobalHotKeyManager::new`, `register`): foreign OS state whose results the program ignores. The five ids are inputs.
- The Win32 calls themselves (`SetWindowDisplayAffinity`, `GetWindowLongPtrW`, `SetWindowLongPtrW`, `SetWindowPos`): they are recorded as `NativeCall` values with their arguments. The style read is an input, and failures are ignored as in the code.
- `Counter::subscription`: the blocking-receive bridge built on `spawn_blocking`, a bounded channel and a receive loop. This is concurrency and runtime plumbing. Messages reach `Update` one at a time, in order, as the sequence lemmas assume.
- `Counter::view`, the `iced::application` setup and the window settings: user interface, including the float alpha value.
- `println!` / `eprintln!` logging.
- `f32` arithmetic of `iced::Point`: fractional start positions and the rounding of `f32` addition are not captured; positions are integer pairs.
- The non-Windows build of the `GotRawId` arm (`#[cfg(target_os = "windows")]`): only the Windows behaviour is modelled.
- `Ints.WrappingInc` and `Ints.WrappingDec`: a debug build panics on `i64` overflow instead of wrapping. The panic is not modelled.
- The asynchronous delivery of `window::get_raw_id` and `Task::perform`: they are returned as the tasks `GetRawId(id)` and `Perform(dir)`, and the message each later produces is an ordinary input to `Update`.
