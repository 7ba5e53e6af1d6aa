// The tap/hold machine of action_tapping.c on values: one pending key, a queue
// of deferred records and a log of everything handed to the action layer.
module Tapping {
  import opened KeyEvents

  // What the action layer was asked, in order.  Lookup is an is_tap_key or
  // layer_switch_get_action evaluation, which records the layer of a press.
  datatype Call =
    | Process(rec: Record, invented: bool, cancelled: bool)
    | Lookup(event: Event)
    | Overflow(dropped: seq<Event>)

  // The tapping term and the answers of the action layer, which may depend on
  // everything it was asked before: is the event's action a tap key, does the
  // release belong to a modifier that is kept until tapping is settled, and
  // does the action turn an interrupted tap into a hold.
  datatype Setup = Setup(
    term: nat,
    isTap: (seq<Call>, Event) -> bool,
    keepsMods: (seq<Call>, Record) -> bool,
    cancels: (seq<Call>, Record) -> bool)

  datatype State = State(tk: Record, buf: seq<Record>, log: seq<Call>)

  const CAPACITY: nat := 7
  const MAX_TAPS: nat := 15

  // process_action resets the tap count of an interrupted tap that turns
  // into a hold; it ignores ticks.
  function Act(c: Setup, log: seq<Call>, r: Record): (res: (seq<Call>, Record))
    ensures res.1.event == r.event
  {
    if NoEvent(r.event) then (log, r)
    else
      var cancelled := r.event.pressed && r.tap.count > 0 && r.tap.interrupted && c.cancels(log, r);
      (log + [Process(r, false, cancelled)], if cancelled then r.(tap := r.tap.(count := 0)) else r)
  }

  function IsTapKey(c: Setup, log: seq<Call>, e: Event): (seq<Call>, bool) {
    if NoEvent(e) then (log, false) else (log + [Lookup(e)], c.isTap(log, e))
  }

  predicate Within(c: Setup, e: Event, tk: Record) {
    Diff(e.time, tk.event.time) < c.term
  }

  // An opposite event of the same key is waiting.
  predicate Typed(buf: seq<Record>, e: Event) {
    exists i :: 0 <= i < |buf| && buf[i].event.key == e.key && buf[i].event.pressed != e.pressed
  }

  predicate Settles(c: Setup, tk: Record, r: Record) {
    Real(tk.event) && r.event.key == tk.event.key && !r.event.pressed && Within(c, r.event, tk)
  }

  // Index of the first waiting release that completes a tap of tk, or |buf|.
  function FindRelease(c: Setup, tk: Record, buf: seq<Record>): (i: nat)
    ensures i <= |buf|
    ensures forall j :: 0 <= j < i ==> !Settles(c, tk, buf[j])
    ensures i < |buf| ==> Settles(c, tk, buf[i])
  {
    if buf == [] || Settles(c, tk, buf[0]) then 0 else 1 + FindRelease(c, tk, buf[1..])
  }

  // waiting_buffer_scan_tap: a waiting release makes the new key a tap at once.
  function ScanTap(c: Setup, s: State): State {
    if s.tk.tap.count > 0 || !s.tk.event.pressed then s
    else
      var i := FindRelease(c, s.tk, s.buf);
      if i == |s.buf| then s
      else
        var tk := s.tk.(tap := s.tk.tap.(count := 1));
        var buf := s.buf[i := s.buf[i].(tap := s.buf[i].tap.(count := 1))];
        var (log, tk') := Act(c, s.log, tk);
        State(tk', buf, log)
  }

  datatype Outcome = Outcome(done: bool, s: State, rec: Record)

  // The release that stands in for the last tap when another tap key starts.
  function Invented(tk: Record, e: Event): Call {
    Process(Record(Event(tk.event.key, false, e.time), tk.tap), true, false)
  }

  // A tap key goes down while the settled key tk is still down, or any other
  // event passes by.
  function WhileTapped(c: Setup, s: State, k: Record): Outcome {
    var (log, isTap) := IsTapKey(c, s.log, k.event);
    if isTap && k.event.pressed then
      var log' := if s.tk.tap.count > 1 then log + [Invented(s.tk, k.event)] else log;
      Outcome(true, ScanTap(c, State(k, s.buf, log')), k)
    else
      var (log', k') := Act(c, log, k);
      Outcome(true, State(s.tk, s.buf, log'), k')
  }

  // Pressed, not settled, within the term.
  function Undecided(c: Setup, s: State, k: Record): Outcome {
    var e := k.event;
    if e.key == s.tk.event.key && !e.pressed then
      var (log, tk) := Act(c, s.log, s.tk.(tap := s.tk.tap.(count := 1)));
      Outcome(false, State(tk, s.buf, log), k.(tap := tk.tap))
    else if c.term >= 500 && Real(e) && !e.pressed && Typed(s.buf, e) then
      var (log, _) := Act(c, s.log, s.tk);
      Outcome(false, State(NO_RECORD, s.buf, log), k)
    else if Real(e) && !e.pressed && !Typed(s.buf, e) then
      var log := s.log + [Lookup(e)];
      if c.keepsMods(s.log, k) then Outcome(false, s.(log := log), k)
      else
        var (log', k') := Act(c, log, k);
        Outcome(true, s.(log := log'), k')
    else
      var tk := if e.pressed then s.tk.(tap := s.tk.tap.(interrupted := true)) else s.tk;
      Outcome(false, s.(tk := tk), k)
  }

  // process_tapping; done says the record was processed or consumed.
  function ProcessTapping(c: Setup, s: State, k: Record): Outcome {
    var e := k.event;
    if Real(s.tk.event) && s.tk.event.pressed then
      var release := e.key == s.tk.event.key && !e.pressed;
      if Within(c, e, s.tk) then
        if s.tk.tap.count == 0 then Undecided(c, s, k)
        else if release then
          var (log, k') := Act(c, s.log, k.(tap := s.tk.tap));
          Outcome(true, State(k', s.buf, log), k')
        else WhileTapped(c, s, k)
      else if s.tk.tap.count == 0 then
        var (log, _) := Act(c, s.log, s.tk);
        Outcome(false, State(NO_RECORD, s.buf, log), k)
      else if release then
        var (log, k') := Act(c, s.log, k.(tap := s.tk.tap));
        Outcome(true, State(NO_RECORD, s.buf, log), k')
      else WhileTapped(c, s, k)
    else if Real(s.tk.event) then
      if !Within(c, e, s.tk) then Outcome(false, s.(tk := NO_RECORD), k)
      else if e.pressed then
        if e.key == s.tk.event.key then
          if !s.tk.tap.interrupted && s.tk.tap.count > 0 then
            var n := if s.tk.tap.count < MAX_TAPS then s.tk.tap.count + 1 else s.tk.tap.count;
            var (log, k') := Act(c, s.log, k.(tap := s.tk.tap.(count := n)));
            Outcome(true, State(k', s.buf, log), k')
          else Outcome(true, s.(tk := k), k)
        else
          var (log, isTap) := IsTapKey(c, s.log, e);
          if isTap then Outcome(true, ScanTap(c, State(k, s.buf, log)), k)
          else
            var (log', k') := Act(c, log, k);
            Outcome(true, State(s.tk.(tap := s.tk.tap.(interrupted := true)), s.buf, log'), k')
      else
        var (log, k') := Act(c, s.log, k);
        Outcome(true, s.(log := log), k')
    else
      var (log, isTap) := if e.pressed then IsTapKey(c, s.log, e) else (s.log, false);
      if isTap then Outcome(true, ScanTap(c, State(k, s.buf, log)), k)
      else
        var (log', k') := Act(c, log, k);
        Outcome(true, s.(log := log'), k')
  }

  // ProcessTapping never changes the length of the queue.
  lemma KeepsLength(c: Setup, s: State, k: Record)
    ensures |ProcessTapping(c, s, k).s.buf| == |s.buf|
  {
  }

  // Processes waiting records from the front until one has to wait.
  function Drain(c: Setup, s: State): State
    decreases |s.buf|
  {
    if s.buf == [] then s
    else
      var o := ProcessTapping(c, s, s.buf[0]);
      KeepsLength(c, s, s.buf[0]);
      if o.done then Drain(c, o.s.(buf := o.s.buf[1..]))
      else o.s.(buf := o.s.buf[0 := o.rec])
  }

  function Events(buf: seq<Record>): (es: seq<Event>)
    ensures |es| == |buf|
    ensures forall i :: 0 <= i < |es| ==> es[i] == buf[i].event
  {
    seq(|buf|, i requires 0 <= i < |buf| => buf[i].event)
  }

  // The press that is neither processed nor waiting yet.
  function Pending(s: State): seq<Event> {
    if Real(s.tk.event) && s.tk.event.pressed && s.tk.tap.count == 0 then [s.tk.event] else []
  }

  // Defers a record; a full queue clears everything.
  function Enqueue(s: State, r: Record): State {
    if NoEvent(r.event) then s
    else if |s.buf| == CAPACITY then
      State(NO_RECORD, [], s.log + [Overflow(Pending(s) + Events(s.buf) + [r.event])])
    else s.(buf := s.buf + [r])
  }

  // action_tapping_process for one submitted event.
  function Step(c: Setup, s: State, e: Event): State {
    var o := ProcessTapping(c, s, Fresh(e));
    Drain(c, if o.done then o.s else Enqueue(o.s, o.rec))
  }

  function Run(c: Setup, s: State, es: seq<Event>): State
    decreases |es|
  {
    if es == [] then s else Run(c, Step(c, s, es[0]), es[1..])
  }

  const IDLE := State(NO_RECORD, [], [])
}
