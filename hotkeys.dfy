/** The hotkey identifier lookup table (`KeyLookup`), its population at start
    up, and the decoding of a global hotkey event into a command. */
module Hotkeys {

  import opened Wrappers
  import opened Ints
  import opened Geometry

  /** Capacity of the table (`[u32; 10]`). */
  const TableSize: nat := 10

  /** Number of slots the program populates and consults. */
  const UsedSlots: nat := 5

  type Table = t: seq<u32> | |t| == TableSize witness [0, 0, 0, 0, 0, 0, 0, 0, 0, 0]

  /** `KeyLookup`: slot i holds the hotkey id of logical command i; unused
      slots hold 0. */
  datatype KeyLookup = KeyLookup(table: Table)

  datatype HotKeyState = Pressed | Released

  /** `GlobalHotKeyEvent` as the hotkey facility delivers it. */
  datatype GlobalHotKeyEvent = GlobalHotKeyEvent(id: u32, state: HotKeyState)

  /** What a recognised hotkey asks for: exit, or a move request. */
  datatype Command = CloseApp | Move(direction: MoveDirection)

  /** The table slot, by the program's convention, of each command. */
  function Slot(c: Command): (k: nat)
    ensures k < UsedSlots
  {
    match c
    case CloseApp => 0
    case Move(Right) => 1
    case Move(Left) => 2
    case Move(Up) => 3
    case Move(Down) => 4
  }

  /** Different commands have different slots. */
  lemma SlotInjective(c: Command, d: Command)
    requires Slot(c) == Slot(d)
    ensures c == d
  {
  }

  /** The if/else chain of the `HotKeyPressed` arm: a released key decodes to
      nothing; a pressed key decodes to the command of the FIRST of slots 0..4
      holding its id, and to nothing when none does. */
  function Decode(lookup: KeyLookup, event: GlobalHotKeyEvent): (r: Option<Command>)
    ensures event.state == Released ==> r == None
    ensures event.state == Pressed ==> (r.Some? <==> event.id in lookup.table[..UsedSlots])
    ensures r.Some? ==> lookup.table[Slot(r.value)] == event.id
    ensures r.Some? ==> forall j :: 0 <= j < Slot(r.value) ==> lookup.table[j] != event.id
  {
    var t := lookup.table;
    if event.state != Pressed then None
    else if event.id == t[0] then Some(CloseApp)
    else if event.id == t[1] then Some(Move(Right))
    else if event.id == t[2] then Some(Move(Left))
    else if event.id == t[3] then Some(Move(Up))
    else if event.id == t[4] then Some(Move(Down))
    else None
  }

  /** The ids the hotkey facility assigned to the five bindings (End, and the
      arrow keys with the Fn modifier). */
  datatype HotkeyIds = HotkeyIds(close: u32, moveRight: u32, moveLeft: u32, moveUp: u32, moveDown: u32)

  function IdOf(ids: HotkeyIds, c: Command): u32 {
    match c
    case CloseApp => ids.close
    case Move(Right) => ids.moveRight
    case Move(Left) => ids.moveLeft
    case Move(Up) => ids.moveUp
    case Move(Down) => ids.moveDown
  }

  /** The five ids are pairwise different. */
  ghost predicate Distinct(ids: HotkeyIds) {
    forall c, d :: c != d ==> IdOf(ids, c) != IdOf(ids, d)
  }

  /** The table after start up: slot i holds the id of the command of slot i,
      and slots 5..9 keep their initial 0. */
  ghost predicate Populated(lookup: KeyLookup, ids: HotkeyIds) {
    && lookup.table[0] == ids.close
    && lookup.table[1] == ids.moveRight
    && lookup.table[2] == ids.moveLeft
    && lookup.table[3] == ids.moveUp
    && lookup.table[4] == ids.moveDown
    && forall i :: UsedSlots <= i < TableSize ==> lookup.table[i] == 0
  }

  /** The start of `main`: a zeroed table filled slot by slot. */
  method SetUpKeyLookup(ids: HotkeyIds) returns (lookup: KeyLookup)
    ensures Populated(lookup, ids)
  {
    var table := new u32[TableSize](_ => 0);
    table[0] := ids.close;
    table[1] := ids.moveRight;
    table[2] := ids.moveLeft;
    table[3] := ids.moveUp;
    table[4] := ids.moveDown;
    lookup := KeyLookup(table[..]);
  }

  /** In a populated table every slot stores the id of its own command. */
  lemma PopulatedSlot(lookup: KeyLookup, ids: HotkeyIds, c: Command)
    requires Populated(lookup, ids)
    ensures lookup.table[Slot(c)] == IdOf(ids, c)
  {
  }

  /** Decoding inverts population: pressing the hotkey bound to a command
      decodes to exactly that command, provided the ids are distinct. */
  lemma {:induction false} LookupRoundTrip(lookup: KeyLookup, ids: HotkeyIds, c: Command)
    requires Populated(lookup, ids) && Distinct(ids)
    ensures Decode(lookup, GlobalHotKeyEvent(IdOf(ids, c), Pressed)) == Some(c)
  {
    var r := Decode(lookup, GlobalHotKeyEvent(IdOf(ids, c), Pressed));
    PopulatedSlot(lookup, ids, c);
    assert r.Some?;
    PopulatedSlot(lookup, ids, r.value);
    assert IdOf(ids, r.value) == IdOf(ids, c);
  }

  /** An id not assigned to any of the five bindings (a foreign id, or the
      sentinel 0 of the unused slots) decodes to nothing. */
  lemma ForeignIdUnrecognized(lookup: KeyLookup, ids: HotkeyIds, event: GlobalHotKeyEvent)
    requires Populated(lookup, ids)
    requires forall c :: event.id != IdOf(ids, c)
    ensures Decode(lookup, event) == None
  {
    assert event.id != IdOf(ids, CloseApp);
    assert event.id != IdOf(ids, Move(Right));
    assert event.id != IdOf(ids, Move(Left));
    assert event.id != IdOf(ids, Move(Up));
    assert event.id != IdOf(ids, Move(Down));
  }
}
