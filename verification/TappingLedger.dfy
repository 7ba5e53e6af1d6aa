// Accounting for the tap/hold machine: its invariant, and that no event is
// lost or processed twice.
module TappingLedger {
  import opened KeyEvents
  import opened Tapping

  // A waiting record: a real event; only releases ever wait with a tap count.
  predicate Waitable(r: Record) {
    Real(r.event) && r.tap.count <= MAX_TAPS && (r.event.pressed ==> r.tap == NO_TAP)
  }

  // What holds in every reachable state.
  predicate Inv(s: State) {
    && (s.tk == NO_RECORD || Real(s.tk.event))
    && s.tk.tap.count <= MAX_TAPS
    && (Real(s.tk.event) && !s.tk.event.pressed ==> s.tk.tap.count >= 1)
    && |s.buf| <= CAPACITY
    && (forall i :: 0 <= i < |s.buf| ==> Waitable(s.buf[i]))
  }

  predicate CanEnter(r: Record) {
    Waitable(r) || (r.event.key == KeyPos(255, 255) && !r.event.pressed)
  }

  lemma ScanKeepsInv(c: Setup, s: State)
    requires Inv(s)
    ensures Inv(ScanTap(c, s)) && ScanTap(c, s).tk.event == s.tk.event
    ensures Events(ScanTap(c, s).buf) == Events(s.buf)
  {
  }

  lemma ProcessKeepsInv(c: Setup, s: State, k: Record)
    requires Inv(s) && CanEnter(k)
    ensures Inv(ProcessTapping(c, s, k).s)
    ensures Events(ProcessTapping(c, s, k).s.buf) == Events(s.buf)
    ensures ProcessTapping(c, s, k).rec.event == k.event
    ensures !ProcessTapping(c, s, k).done && Real(k.event) ==> Waitable(ProcessTapping(c, s, k).rec)
  {
    hide ScanTap, Events, Diff;
    var (log, _) := IsTapKey(c, s.log, k.event);
    var log' := if s.tk.tap.count > 1 then log + [Invented(s.tk, k.event)] else log;
    if Real(k.event) && k.event.pressed {
      ScanKeepsInv(c, State(k, s.buf, log));
      ScanKeepsInv(c, State(k, s.buf, log'));
    }
  }

  // How often event x has been settled: processed for good or dropped by an
  // overflow.  Invented releases and cancelled taps do not count.
  function Settled(log: seq<Call>, x: Event): nat {
    if log == [] then 0
    else Settled(log[..|log| - 1], x) + Weight(log[|log| - 1], x)
  }

  function Weight(call: Call, x: Event): nat {
    match call
    case Process(r, invented, cancelled) => if !invented && !cancelled && r.event == x then 1 else 0
    case Lookup(_) => 0
    case Overflow(dropped) => Occurs(dropped, x)
  }

  function Occurs(es: seq<Event>, x: Event): nat { multiset(es)[x] }

  function Is(e: Event, x: Event): nat { if Real(e) && e == x then 1 else 0 }

  lemma SettledSnoc(log: seq<Call>, call: Call, x: Event)
    ensures Settled(log + [call], x) == Settled(log, x) + Weight(call, x)
  {
    assert (log + [call])[..|log|] == log;
  }

  lemma ActSettles(c: Setup, log: seq<Call>, r: Record, x: Event)
    ensures var (log', r') := Act(c, log, r);
      Settled(log', x) == Settled(log, x) + if r'.tap.count == r.tap.count then Is(r.event, x) else 0
  {
    hide Settled;
    var cancelled := r.event.pressed && r.tap.count > 0 && r.tap.interrupted && c.cancels(log, r);
    SettledSnoc(log, Process(r, false, cancelled), x);
  }

  // What is settled, pending or in hand.
  function Held(s: State, x: Event): nat {
    Settled(s.log, x) + Occurs(Pending(s), x)
  }

  lemma OccursConcat(a: seq<Event>, b: seq<Event>, x: Event)
    ensures Occurs(a + b, x) == Occurs(a, x) + Occurs(b, x)
  {
  }

  lemma OccursOne(e: Event, x: Event)
    ensures Real(e) ==> Occurs([e], x) == Is(e, x)
  {
  }

  lemma OccursNone(x: Event)
    ensures Occurs([], x) == 0
  {
  }

  lemma OccursPending(s: State, x: Event)
    ensures Occurs(Pending(s), x) ==
            if Real(s.tk.event) && s.tk.event.pressed && s.tk.tap.count == 0 then Is(s.tk.event, x) else 0
  {
    hide Occurs;
    OccursOne(s.tk.event, x);
    OccursNone(x);
  }

  lemma IsTapKeySettles(c: Setup, log: seq<Call>, e: Event, x: Event)
    ensures Settled(IsTapKey(c, log, e).0, x) == Settled(log, x)
  {
    SettledSnoc(log, Lookup(e), x);
  }

  // A key that starts tapping is pending, or processed at once by the scan.
  lemma ScanSettles(c: Setup, s: State, x: Event)
    requires Real(s.tk.event) && s.tk.event.pressed && s.tk.tap == NO_TAP
    ensures Held(ScanTap(c, s), x) == Settled(s.log, x) + Is(s.tk.event, x)
  {
    hide Settled, FindRelease;
    ActSettles(c, s.log, s.tk.(tap := s.tk.tap.(count := 1)), x);
  }

  lemma WhileTappedSettles(c: Setup, s: State, k: Record, x: Event)
    requires Inv(s) && CanEnter(k) && s.tk.tap.count > 0
    ensures var o := WhileTapped(c, s, k);
      o.done && Held(o.s, x) == Held(s, x) + Is(k.event, x)
  {
    hide Settled, ScanTap;
    var (log, isTap) := IsTapKey(c, s.log, k.event);
    IsTapKeySettles(c, s.log, k.event, x);
    SettledSnoc(log, Invented(s.tk, k.event), x);
    ActSettles(c, log, k, x);
    if isTap && k.event.pressed {
      var log' := if s.tk.tap.count > 1 then log + [Invented(s.tk, k.event)] else log;
      ScanSettles(c, State(k, s.buf, log'), x);
    }
  }

  lemma UndecidedSettles(c: Setup, s: State, k: Record, x: Event)
    requires Inv(s) && CanEnter(k) && Real(s.tk.event) && s.tk.event.pressed && s.tk.tap.count == 0
    ensures var o := Undecided(c, s, k);
      Held(o.s, x) + (if o.done then 0 else Is(k.event, x)) == Held(s, x) + Is(k.event, x)
  {
    hide Settled, Typed, Occurs, Pending;
    OccursPending(s, x);
    OccursPending(Undecided(c, s, k).s, x);
    ActSettles(c, s.log, s.tk.(tap := s.tk.tap.(count := 1)), x);
    ActSettles(c, s.log, s.tk, x);
    SettledSnoc(s.log, Lookup(k.event), x);
    ActSettles(c, s.log + [Lookup(k.event)], k, x);
  }

  predicate TkPressed(s: State) { Real(s.tk.event) && s.tk.event.pressed }

  lemma PressedSettles(c: Setup, s: State, k: Record, x: Event)
    requires Inv(s) && CanEnter(k) && TkPressed(s)
    ensures var o := ProcessTapping(c, s, k);
      Held(o.s, x) + (if o.done then 0 else Is(k.event, x)) == Held(s, x) + Is(k.event, x)
  {
    hide Settled, Undecided, WhileTapped, Diff, Occurs;
    OccursPending(s, x);
    OccursPending(ProcessTapping(c, s, k).s, x);
    if s.tk.tap.count == 0 {
      UndecidedSettles(c, s, k, x);
      ActSettles(c, s.log, s.tk, x);
    } else {
      ActSettles(c, s.log, k.(tap := s.tk.tap), x);
      WhileTappedSettles(c, s, k, x);
    }
  }

  // The released key is tapped once more, or another key follows the tap.
  lemma ReleasedSettles(c: Setup, s: State, k: Record, x: Event)
    requires Inv(s) && CanEnter(k) && Real(s.tk.event) && !s.tk.event.pressed
    ensures var o := ProcessTapping(c, s, k);
      Held(o.s, x) + (if o.done then 0 else Is(k.event, x)) == Held(s, x) + Is(k.event, x)
  {
    hide Settled, ScanTap, Diff, Occurs;
    OccursPending(s, x);
    OccursPending(ProcessTapping(c, s, k).s, x);
    if k.event.pressed {
      if k.event.key == s.tk.event.key {
        var n := if s.tk.tap.count < MAX_TAPS then s.tk.tap.count + 1 else s.tk.tap.count;
        ActSettles(c, s.log, k.(tap := s.tk.tap.(count := n)), x);
      } else {
        StartSettles(c, s, k, x);
      }
    } else {
      ActSettles(c, s.log, k, x);
    }
  }

  // A press looked up and then either starting to tap or processed.
  lemma StartSettles(c: Setup, s: State, k: Record, x: Event)
    requires Waitable(k) && k.event.pressed
    ensures var (log, isTap) := IsTapKey(c, s.log, k.event);
      && Held(ScanTap(c, State(k, s.buf, log)), x) == Settled(s.log, x) + Is(k.event, x)
      && Act(c, log, k).1 == k
      && Settled(Act(c, log, k).0, x) == Settled(s.log, x) + Is(k.event, x)
  {
    hide Settled, ScanTap, Held;
    var (log, isTap) := IsTapKey(c, s.log, k.event);
    IsTapKeySettles(c, s.log, k.event, x);
    ActSettles(c, log, k, x);
    ScanSettles(c, State(k, s.buf, log), x);
  }

  lemma IdleSettles(c: Setup, s: State, k: Record, x: Event)
    requires Inv(s) && CanEnter(k) && s.tk == NO_RECORD
    ensures var o := ProcessTapping(c, s, k);
      Held(o.s, x) + (if o.done then 0 else Is(k.event, x)) == Held(s, x) + Is(k.event, x)
  {
    hide Settled, ScanTap, Diff;
    if k.event.pressed {
      StartSettles(c, s, k, x);
    } else {
      ActSettles(c, s.log, k, x);
    }
  }

  // process_tapping settles the record it consumes, once, and settles or keeps
  // pending whatever was pending.
  lemma ProcessSettles(c: Setup, s: State, k: Record, x: Event)
    requires Inv(s) && CanEnter(k)
    ensures var o := ProcessTapping(c, s, k);
      Held(o.s, x) + (if o.done then 0 else Is(k.event, x)) == Held(s, x) + Is(k.event, x)
  {
    hide Settled, ProcessTapping, Held;
    if TkPressed(s) {
      PressedSettles(c, s, k, x);
    } else if Real(s.tk.event) {
      ReleasedSettles(c, s, k, x);
    } else {
      IdleSettles(c, s, k, x);
    }
  }

  // Settled, pending or waiting.
  function Accounted(s: State, x: Event): nat {
    Held(s, x) + Occurs(Events(s.buf), x)
  }

  lemma {:induction false} DrainAccounts(c: Setup, s: State, x: Event)
    requires Inv(s)
    ensures Inv(Drain(c, s)) && Accounted(Drain(c, s), x) == Accounted(s, x)
    decreases |s.buf|
  {
    hide Settled, ProcessTapping, Occurs;
    OccursNone(x);
    if s.buf != [] {
      OccursOne(s.buf[0].event, x);
      var k := s.buf[0];
      var o := ProcessTapping(c, s, k);
      ProcessKeepsInv(c, s, k);
      ProcessSettles(c, s, k, x);
      assert Events(s.buf) == [k.event] + Events(s.buf[1..]);
      OccursConcat([k.event], Events(s.buf[1..]), x);
      if o.done {
        assert Events(o.s.buf[1..]) == Events(s.buf[1..]);
        DrainAccounts(c, o.s.(buf := o.s.buf[1..]), x);
      } else {
        var s' := o.s.(buf := o.s.buf[0 := o.rec]);
        assert Drain(c, s) == s' && Pending(s') == Pending(o.s);
        assert Events(s'.buf) == Events(s.buf);
      }
    }
  }

  lemma EnqueueAccounts(s: State, r: Record, x: Event)
    requires Inv(s) && (Real(r.event) ==> Waitable(r))
    ensures Inv(Enqueue(s, r)) && Accounted(Enqueue(s, r), x) == Accounted(s, x) + Is(r.event, x)
  {
    hide Settled, Occurs, Pending, Events;
    if Real(r.event) {
      var lost := Pending(s) + Events(s.buf) + [r.event];
      SettledSnoc(s.log, Overflow(lost), x);
      OccursConcat(Pending(s) + Events(s.buf), [r.event], x);
      OccursConcat(Pending(s), Events(s.buf), x);
      assert Events(s.buf + [r]) == Events(s.buf) + [r.event];
      OccursConcat(Events(s.buf), [r.event], x);
      OccursOne(r.event, x);
      OccursNone(x);
      assert Events([]) == [];
      OccursPending(s, x);
      OccursPending(Enqueue(s, r), x);
    }
  }

  lemma StepAccounts(c: Setup, s: State, e: Event, x: Event)
    requires Inv(s) && Input(e)
    ensures Inv(Step(c, s, e)) && Accounted(Step(c, s, e), x) == Accounted(s, x) + Is(e, x)
  {
    hide Settled, ProcessTapping, Enqueue, Drain, Pending;
    var o := ProcessTapping(c, s, Fresh(e));
    ProcessKeepsInv(c, s, Fresh(e));
    ProcessSettles(c, s, Fresh(e), x);
    if !o.done {
      EnqueueAccounts(o.s, o.rec, x);
    }
    DrainAccounts(c, if o.done then o.s else Enqueue(o.s, o.rec), x);
  }

  function Submitted(es: seq<Event>, x: Event): nat {
    if es == [] then 0 else Is(es[0], x) + Submitted(es[1..], x)
  }

  predicate Inputs(es: seq<Event>) {
    forall i :: 0 <= i < |es| ==> Input(es[i])
  }

  // No event is lost and none is settled twice: after every run each event x
  // is settled, pending or waiting exactly as often as it was submitted.
  lemma {:induction false} NothingLost(c: Setup, s: State, es: seq<Event>, x: Event)
    requires Inv(s) && Inputs(es)
    ensures Inv(Run(c, s, es))
    ensures Accounted(Run(c, s, es), x) == Accounted(s, x) + Submitted(es, x)
    decreases |es|
  {
    hide Step, Accounted;
    if es != [] {
      StepAccounts(c, s, es[0], x);
      NothingLost(c, Step(c, s, es[0]), es[1..], x);
    }
  }
}
