// Key events and the records that carry them through the tap/hold machine.
module KeyEvents {
  datatype KeyPos = KeyPos(row: nat, col: nat)

  datatype Event = Event(key: KeyPos, pressed: bool, time: nat)

  datatype Tap = Tap(interrupted: bool, count: nat)

  datatype Record = Record(event: Event, tap: Tap)

  const NO_TAP := Tap(false, 0)
  const NO_RECORD := Record(Event(KeyPos(0, 0), false, 0), NO_TAP)

  function Tick(time: nat): Event { Event(KeyPos(255, 255), false, time) }

  function Ticks(ts: seq<nat>): seq<Event> {
    if ts == [] then [] else [Tick(ts[0])] + Ticks(ts[1..])
  }

  function Fresh(e: Event): Record { Record(e, NO_TAP) }

  predicate NoEvent(e: Event) {
    e.time == 0 || e.key == KeyPos(255, 255)
  }

  predicate Real(e: Event) { !NoEvent(e) }

  // What the key matrix scanner submits: real events and ticks.
  predicate Input(e: Event) {
    e.time != 0 && (e.key == KeyPos(255, 255) ==> !e.pressed)
  }

  // Elapsed time on a 16-bit clock.
  function Diff(a: nat, b: nat): (d: nat)
    ensures d < 0x1_0000
  {
    (a - b) % 0x1_0000
  }
}
