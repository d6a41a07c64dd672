/** The application state `Counter` and its message handler `Counter::update`.
    The handler changes the counter value, the remembered window id and the
    remembered window position in place and answers each message with one
    task for the runtime (and, for `GotRawId`, a sequence of native calls). */
module App {

  import opened Wrappers
  import opened Ints
  import opened Geometry
  import opened Hotkeys
  import opened Overlay

  /** The framework's `window::Id`; the program only compares and forwards it. */
  datatype WindowId = WindowId(token: nat)

  /** The window lifecycle events of the framework; all but `Opened` are
      handled alike, so the others stand for the rest. */
  datatype Event =
    | Opened(position: Option<Point>)
    | Moved(to: Point)
    | Closed
    | OtherEvent

  datatype Message =
    | Increment
    | Decrement
    | WindowEvent(id: WindowId, event: Event)
    | GotRawId(rawId: u64)
    | HotKeyPressed(hotkey: GlobalHotKeyEvent)
    | MoveWindow(direction: MoveDirection)

  /** The `Task<Message>` that `update` returns. */
  datatype Task =
    | NoTask                                  // Task::none()
    | Exit                                    // exit()
    | GetRawId(id: WindowId)                  // window::get_raw_id(id), answered by GotRawId
    | Perform(direction: MoveDirection)       // Task::perform(.., Message::MoveWindow)
    | MoveTo(id: WindowId, position: Point)   // window::move_to(id, position)

  /** The fields `update` may change. */
  datatype CounterState = CounterState(value: i64, windowPos: Option<Point>, windowId: Option<WindowId>)

  /** The state `main` starts the application in. */
  const Initial: CounterState := CounterState(0, None, None)

  /** A window is known and can be moved. */
  predicate Active(s: CounterState) {
    s.windowId.Some? && s.windowPos.Some?
  }

  /** The task that answers a decoded hotkey. */
  function CommandTask(c: Option<Command>): Task {
    match c
    case None => NoTask
    case Some(CloseApp) => Exit
    case Some(Move(d)) => Perform(d)
  }

  /** The state after `update` handles message m in state s. */
  function NextState(s: CounterState, m: Message): CounterState {
    match m
    case Increment => s.(value := WrappingInc(s.value))
    case Decrement => s.(value := WrappingDec(s.value))
    case WindowEvent(id, Opened(position)) => s.(windowPos := position, windowId := Some(id))
    case WindowEvent(_, _) => s
    case GotRawId(_) => s
    case HotKeyPressed(_) => s
    case MoveWindow(d) =>
      if Active(s) then s.(windowPos := Some(Translate(s.windowPos.value, Offset(d)))) else s
  }

  /** What `update` hands back when it handles m in state s: the task, and the
      native calls it makes; `currentExStyle` is what `GetWindowLongPtrW`
      reports for the window. */
  datatype Reply = Reply(task: Task, calls: seq<NativeCall>)

  function Effects(lookup: KeyLookup, s: CounterState, m: Message, currentExStyle: bv64): Reply {
    match m
    case WindowEvent(id, Opened(_)) => Reply(GetRawId(id), [])
    case GotRawId(rawId) => Reply(NoTask, OverlayCalls(rawId, currentExStyle))
    case HotKeyPressed(hotkey) => Reply(CommandTask(Decode(lookup, hotkey)), [])
    case MoveWindow(d) =>
      if Active(s) then Reply(MoveTo(s.windowId.value, Translate(s.windowPos.value, Offset(d))), [])
      else Reply(NoTask, [])
    case _ => Reply(NoTask, [])
  }

  class Counter {
    var value: i64
    const keyLookup: KeyLookup
    var inuseWindowPos: Option<Point>
    var inuseWindowId: Option<WindowId>

    function State(): CounterState
      reads this
    {
      CounterState(value, inuseWindowPos, inuseWindowId)
    }

    /** The initial `Counter` of `main`'s `run_with` closure. */
    constructor (keyLookup: KeyLookup)
      ensures this.keyLookup == keyLookup
      ensures State() == Initial
    {
      this.keyLookup := keyLookup;
      value := 0;
      inuseWindowPos := None;
      inuseWindowId := None;
    }

    /** `Counter::update`. `currentExStyle` stands for the result of
        `GetWindowLongPtrW(hwnd, GWL_EXSTYLE)`, which only the `GotRawId` arm
        reads. */
    method Update(message: Message, currentExStyle: bv64) returns (task: Task, calls: seq<NativeCall>)
      modifies this
      ensures State() == NextState(old(State()), message)
      ensures Reply(task, calls) == Effects(keyLookup, old(State()), message, currentExStyle)
    {
      calls := [];
      match message
      case Increment =>
        value := WrappingInc(value);
        task := NoTask;
      case Decrement =>
        value := WrappingDec(value);
        task := NoTask;
      case WindowEvent(id, event) =>
        match event {
          case Opened(position) =>
            inuseWindowPos := position;
            inuseWindowId := Some(id);
            task := GetRawId(id);
          case _ =>
            task := NoTask;
        }
      case GotRawId(rawId) =>
        var hwnd := rawId;
        calls := StyleAsOverlay(hwnd, currentExStyle);
        task := NoTask;
      case HotKeyPressed(hotkey) =>
        match Decode(keyLookup, hotkey) {
          case Some(CloseApp) =>
            return Exit, calls;
          case Some(Move(d)) =>
            return Perform(d), calls;
          case None =>
        }
        task := NoTask;
      case MoveWindow(direction) =>
        if inuseWindowId == None {
          return NoTask, calls;
        }
        var id := inuseWindowId.value;
        if inuseWindowPos == None {
          return NoTask, calls;
        }
        var position := inuseWindowPos.value;
        var newPosition := Translate(position, Offset(direction));
        inuseWindowPos := Some(newPosition);
        task := MoveTo(id, newPosition);
    }
  }

  /** `main`: populate the lookup table with the assigned hotkey ids, then
      start the application in its initial state. */
  method Start(ids: HotkeyIds) returns (app: Counter)
    ensures fresh(app)
    ensures Populated(app.keyLookup, ids)
    ensures app.State() == Initial
  {
    var lookup := SetUpKeyLookup(ids);
    app := new Counter(lookup);
  }

  // ---------------------------------------------------------------------
  // Properties of single messages

  /** The buttons change the counter by one (wrapping at the i64 bounds),
      return no task and leave the window state alone. */
  lemma ButtonsStepValue(lookup: KeyLookup, s: CounterState, style: bv64)
    ensures s.value < I64_MAX ==> NextState(s, Increment).value == s.value + 1
    ensures I64_MIN < s.value ==> NextState(s, Decrement).value == s.value - 1
    ensures NextState(s, Increment).windowPos == s.windowPos == NextState(s, Decrement).windowPos
    ensures NextState(s, Increment).windowId == s.windowId == NextState(s, Decrement).windowId
    ensures Effects(lookup, s, Increment, style) == Reply(NoTask, [])
    ensures Effects(lookup, s, Decrement, style) == Reply(NoTask, [])
    ensures NextState(NextState(s, Increment), Decrement) == s
    ensures NextState(NextState(s, Decrement), Increment) == s
  {
    IncDecInverse(s.value);
  }

  /** An `Opened` event records the window id and its (possibly absent)
      position, keeps the value, and asks for the native handle of that id. */
  lemma OpenedRecordsWindow(lookup: KeyLookup, s: CounterState, id: WindowId, position: Option<Point>, style: bv64)
    ensures NextState(s, WindowEvent(id, Opened(position))) == CounterState(s.value, position, Some(id))
    ensures Effects(lookup, s, WindowEvent(id, Opened(position)), style) == Reply(GetRawId(id), [])
  {
  }

  /** Every other window event is ignored. */
  lemma OtherWindowEventsIgnored(lookup: KeyLookup, s: CounterState, id: WindowId, event: Event, style: bv64)
    requires !event.Opened?
    ensures NextState(s, WindowEvent(id, event)) == s
    ensures Effects(lookup, s, WindowEvent(id, event), style) == Reply(NoTask, [])
  {
  }

  /** The native handle is styled as an overlay: capture exclusion first,
      then the style written back is the overlay transform of the low 32 bits
      of the style read, then the topmost z-order; the state does not
      change. */
  lemma GotRawIdStylesWindow(lookup: KeyLookup, s: CounterState, rawId: u64, style: bv64)
    ensures NextState(s, GotRawId(rawId)) == s
    ensures Effects(lookup, s, GotRawId(rawId), style).task == NoTask
    ensures var calls := Effects(lookup, s, GotRawId(rawId), style).calls;
      && |calls| == 4
      && calls[0] == SetWindowDisplayAffinity(rawId, WDA_EXCLUDEFROMCAPTURE)
      && calls[1] == GetWindowLongPtr(rawId, GWL_EXSTYLE)
      && calls[2].SetWindowLongPtr? && calls[2].hwnd == rawId && calls[2].index == GWL_EXSTYLE
      && OverlayBits(Low32(style), calls[2].newValue)
      && calls[3] == SetWindowPos(rawId, HWND_TOPMOST, 0, 0, 0, 0, SWP_NOMOVE | SWP_NOSIZE | SWP_NOACTIVATE)
  {
  }

  /** No hotkey event changes the state. A released key yields no task; the
      close id yields Exit whatever the window state; the id of the first
      matching move slot yields that move; any other id yields no task. */
  lemma HotKeyDispatch(lookup: KeyLookup, s: CounterState, hotkey: GlobalHotKeyEvent, style: bv64)
    ensures NextState(s, HotKeyPressed(hotkey)) == s
    ensures Effects(lookup, s, HotKeyPressed(hotkey), style).calls == []
    ensures hotkey.state == Released ==> Effects(lookup, s, HotKeyPressed(hotkey), style).task == NoTask
    ensures hotkey.state == Pressed && hotkey.id == lookup.table[0] ==>
      Effects(lookup, s, HotKeyPressed(hotkey), style).task == Exit
    ensures forall d: MoveDirection
      :: hotkey.state == Pressed && hotkey.id == lookup.table[Slot(Move(d))]
         && (forall j :: 0 <= j < Slot(Move(d)) ==> lookup.table[j] != hotkey.id)
         ==> Effects(lookup, s, HotKeyPressed(hotkey), style).task == Perform(d)
    ensures hotkey.id !in lookup.table[..UsedSlots] ==>
      Effects(lookup, s, HotKeyPressed(hotkey), style).task == NoTask
  {
  }

  /** Without both a window id and a position a move does nothing: the state
      is unchanged and no move is issued. */
  lemma MoveWithoutWindowIsNoOp(lookup: KeyLookup, s: CounterState, d: MoveDirection, style: bv64)
    requires s.windowId == None || s.windowPos == None
    ensures NextState(s, MoveWindow(d)) == s
    ensures Effects(lookup, s, MoveWindow(d), style) == Reply(NoTask, [])
  {
  }

  /** With both known, a move shifts the stored position by the direction's
      offset, issues a move of the stored window to exactly that position,
      and keeps the value and the window id. */
  lemma MoveWhenActive(lookup: KeyLookup, s: CounterState, d: MoveDirection, style: bv64)
    requires Active(s)
    ensures Active(NextState(s, MoveWindow(d)))
    ensures NextState(s, MoveWindow(d)).windowPos.value == Translate(s.windowPos.value, Offset(d))
    ensures NextState(s, MoveWindow(d)).value == s.value
    ensures NextState(s, MoveWindow(d)).windowId == s.windowId
    ensures Effects(lookup, s, MoveWindow(d), style)
         == Reply(MoveTo(s.windowId.value, NextState(s, MoveWindow(d)).windowPos.value), [])
  {
  }

  /** A move followed by the opposite move restores the state, whether or not
      a window is known (Left then Right, Up then Down, and conversely). */
  lemma OppositeMovesRestore(s: CounterState, d: MoveDirection)
    ensures NextState(NextState(s, MoveWindow(d)), MoveWindow(Opposite(d))) == s
  {
  }

  // ---------------------------------------------------------------------
  // Properties of message sequences

  /** The state after handling the messages in order. */
  function Run(s: CounterState, messages: seq<Message>): CounterState
    decreases |messages|
  {
    if messages == [] then s else Run(NextState(s, messages[0]), messages[1..])
  }

  /** The offset a message contributes to the window position when it is a
      move command. */
  function MoveOffset(m: Message): Vector {
    if m.MoveWindow? then Offset(m.direction) else Zero
  }

  /** The sum of the offsets of the move commands among the messages. */
  function MoveSum(messages: seq<Message>): Vector
    decreases |messages|
  {
    if messages == [] then Zero else Plus(MoveOffset(messages[0]), MoveSum(messages[1..]))
  }

  /** The message does not (re)open a window. */
  predicate KeepsWindow(m: Message) {
    !(m.WindowEvent? && m.event.Opened?)
  }

  /** Once a window is known, any sequence of messages that opens no window
      leaves it at its start position plus the sum of the offsets of the move
      commands among them, whatever else is interleaved, and keeps its id. */
  lemma {:induction false} RunAccumulatesMoves(s: CounterState, messages: seq<Message>)
    requires Active(s)
    requires forall i :: 0 <= i < |messages| ==> KeepsWindow(messages[i])
    ensures Active(Run(s, messages))
    ensures Run(s, messages).windowId == s.windowId
    ensures Run(s, messages).windowPos.value == Translate(s.windowPos.value, MoveSum(messages))
    decreases |messages|
  {
    if messages == [] {
      assert Translate(s.windowPos.value, Zero) == s.windowPos.value;
    } else {
      var m, rest := messages[0], messages[1..];
      var t := NextState(s, m);
      assert KeepsWindow(m);
      assert t.windowId == s.windowId;
      assert t.windowPos.value == Translate(s.windowPos.value, MoveOffset(m));
      assert forall i :: 0 <= i < |rest| ==> KeepsWindow(rest[i]) by {
        forall i | 0 <= i < |rest| ensures KeepsWindow(rest[i]) {
          assert rest[i] == messages[i + 1];
        }
      }
      RunAccumulatesMoves(t, rest);
      TranslatePlus(s.windowPos.value, MoveOffset(m), MoveSum(rest));
    }
  }

  /** Before any window has opened, messages that open none leave the window
      state as it was: every move command is dropped. */
  lemma {:induction false} RunBeforeOpenKeepsWindowState(s: CounterState, messages: seq<Message>)
    requires s.windowId == None
    requires forall i :: 0 <= i < |messages| ==> KeepsWindow(messages[i])
    ensures Run(s, messages).windowId == None
    ensures Run(s, messages).windowPos == s.windowPos
    decreases |messages|
  {
    if messages != [] {
      var rest := messages[1..];
      assert KeepsWindow(messages[0]);
      assert forall i :: 0 <= i < |rest| ==> KeepsWindow(rest[i]) by {
        forall i | 0 <= i < |rest| ensures KeepsWindow(rest[i]) {
          assert rest[i] == messages[i + 1];
        }
      }
      RunBeforeOpenKeepsWindowState(NextState(s, messages[0]), rest);
    }
  }

  /** A window opened at (100, 100) that receives Right and then Down ends at
      (140, 140), and the two moves are issued with (140, 100) and (140, 140). */
  lemma OpenRightDownScenario(lookup: KeyLookup, id: WindowId, style: bv64)
    ensures var s1 := NextState(Initial, WindowEvent(id, Opened(Some(Point(100, 100)))));
      var s2 := NextState(s1, MoveWindow(Right));
      && Effects(lookup, s1, MoveWindow(Right), style).task == MoveTo(id, Point(140, 100))
      && Effects(lookup, s2, MoveWindow(Down), style).task == MoveTo(id, Point(140, 140))
      && NextState(s2, MoveWindow(Down)).windowPos == Some(Point(140, 140))
  {
  }
}
