// The order in which the tap/hold machine presents the events of one key to the
// action layer, and when a new event is taken ahead of a waiting one.
module KeyOrder {
  import opened KeyEvents
  import opened Tapping
  import opened TappingLedger
  import opened TappingOrder

  // The events of one key.
  function Of(es: seq<Event>, key: KeyPos): (r: seq<Event>)
    ensures forall e :: e in r <==> e in es && e.key == key
  {
    if es == [] then [] else Of(es[..|es| - 1], key) + One(es[|es| - 1], key)
  }

  function One(e: Event, key: KeyPos): seq<Event> { if e.key == key then [e] else [] }

  // The events of one key that are settled: processed for good, or dropped by
  // an overflow.
  function SettledOf(log: seq<Call>, key: KeyPos): seq<Event> {
    if log == [] then [] else SettledOf(log[..|log| - 1], key) + Part(log[|log| - 1], key)
  }

  function Part(call: Call, key: KeyPos): seq<Event> {
    match call
    case Process(r, invented, cancelled) => if invented || cancelled then [] else One(r.event, key)
    case Lookup(_) => []
    case Overflow(dropped) => Of(dropped, key)
  }

  lemma SettledOfSnoc(log: seq<Call>, call: Call, key: KeyPos)
    ensures SettledOf(log + [call], key) == SettledOf(log, key) + Part(call, key)
  {
    assert (log + [call])[..|log|] == log;
  }

  lemma {:induction false} OfConcat(a: seq<Event>, b: seq<Event>, key: KeyPos)
    ensures Of(a + b, key) == Of(a, key) + Of(b, key)
    decreases |b|
  {
    if b == [] {
      assert a + b == a;
    } else {
      assert (a + b)[..|a + b| - 1] == a + b[..|b| - 1];
      OfConcat(a, b[..|b| - 1], key);
    }
  }

  lemma OfOne(e: Event, key: KeyPos)
    ensures Of([e], key) == One(e, key)
  {
    assert [e][..0] == [];
    assert Of([], key) == [];
  }

  lemma OfPending(s: State, key: KeyPos)
    ensures Of(Pending(s), key) ==
            if TkPressed(s) && s.tk.tap.count == 0 then One(s.tk.event, key) else []
  {
    OfOne(s.tk.event, key);
  }

  // Settled, then pending: what the action layer has been given of the key.
  function Given(s: State, key: KeyPos): seq<Event> {
    SettledOf(s.log, key) + Of(Pending(s), key)
  }

  // All of the key's events the machine knows, in the order in which it
  // presents them.
  function Presented(s: State, key: KeyPos): seq<Event> {
    Given(s, key) + Of(Events(s.buf), key)
  }

  function Real1(e: Event, key: KeyPos): seq<Event> { if Real(e) then One(e, key) else [] }

  lemma ActGives(c: Setup, log: seq<Call>, r: Record, key: KeyPos)
    ensures var (log', r') := Act(c, log, r);
      SettledOf(log', key) == SettledOf(log, key) + if r'.tap.count == r.tap.count then Real1(r.event, key) else []
  {
    hide SettledOf, Of;
    var cancelled := r.event.pressed && r.tap.count > 0 && r.tap.interrupted && c.cancels(log, r);
    SettledOfSnoc(log, Process(r, false, cancelled), key);
  }

  lemma LookupGives(c: Setup, log: seq<Call>, e: Event, key: KeyPos)
    ensures SettledOf(IsTapKey(c, log, e).0, key) == SettledOf(log, key)
  {
    hide SettledOf;
    SettledOfSnoc(log, Lookup(e), key);
  }

  lemma ScanGives(c: Setup, s: State, key: KeyPos)
    requires TkPressed(s) && s.tk.tap == NO_TAP
    ensures Given(ScanTap(c, s), key) == SettledOf(s.log, key) + One(s.tk.event, key)
  {
    hide SettledOf, FindRelease, Of;
    OfPending(s, key);
    OfPending(ScanTap(c, s), key);
    ActGives(c, s.log, s.tk.(tap := s.tk.tap.(count := 1)), key);
  }

  lemma StartGives(c: Setup, s: State, k: Record, key: KeyPos)
    requires Waitable(k) && k.event.pressed
    ensures var (log, isTap) := IsTapKey(c, s.log, k.event);
      && Given(ScanTap(c, State(k, s.buf, log)), key) == SettledOf(s.log, key) + One(k.event, key)
      && SettledOf(Act(c, log, k).0, key) == SettledOf(s.log, key) + One(k.event, key)
  {
    hide SettledOf, ScanTap, Given, Of;
    var (log, isTap) := IsTapKey(c, s.log, k.event);
    LookupGives(c, s.log, k.event, key);
    ActGives(c, log, k, key);
    ScanGives(c, State(k, s.buf, log), key);
  }

  lemma WhileTappedGives(c: Setup, s: State, k: Record, key: KeyPos)
    requires Inv(s) && CanEnter(k) && TkPressed(s) && s.tk.tap.count > 0
    ensures WhileTapped(c, s, k).done
    ensures Given(WhileTapped(c, s, k).s, key) == Given(s, key) + Real1(k.event, key)
  {
    hide SettledOf, ScanTap, Of;
    var (log, isTap) := IsTapKey(c, s.log, k.event);
    LookupGives(c, s.log, k.event, key);
    SettledOfSnoc(log, Invented(s.tk, k.event), key);
    ActGives(c, log, k, key);
    OfPending(s, key);
    OfPending(WhileTapped(c, s, k).s, key);
    if isTap && k.event.pressed {
      var log' := if s.tk.tap.count > 1 then log + [Invented(s.tk, k.event)] else log;
      ScanGives(c, State(k, s.buf, log'), key);
    }
  }

  lemma UndecidedGives(c: Setup, s: State, k: Record, key: KeyPos)
    requires Inv(s) && CanEnter(k) && TkPressed(s) && s.tk.tap.count == 0
    ensures var o := Undecided(c, s, k);
      Given(o.s, key) == Given(s, key) + if o.done then Real1(k.event, key) else []
  {
    hide SettledOf, Typed, Of;
    ActGives(c, s.log, s.tk.(tap := s.tk.tap.(count := 1)), key);
    ActGives(c, s.log, s.tk, key);
    SettledOfSnoc(s.log, Lookup(k.event), key);
    ActGives(c, s.log + [Lookup(k.event)], k, key);
    OfPending(s, key);
    OfPending(Undecided(c, s, k).s, key);
  }

  lemma PressedGives(c: Setup, s: State, k: Record, key: KeyPos)
    requires Inv(s) && CanEnter(k) && TkPressed(s)
    ensures var o := ProcessTapping(c, s, k);
      Given(o.s, key) == Given(s, key) + if o.done then Real1(k.event, key) else []
  {
    hide SettledOf, Undecided, WhileTapped, Diff, Of;
    OfPending(s, key);
    OfPending(ProcessTapping(c, s, k).s, key);
    if s.tk.tap.count == 0 {
      UndecidedGives(c, s, k, key);
      ActGives(c, s.log, s.tk, key);
      assert Given(s, key) + [] == Given(s, key);
    } else {
      ActGives(c, s.log, k.(tap := s.tk.tap), key);
      WhileTappedGives(c, s, k, key);
    }
  }

  lemma ReleasedGives(c: Setup, s: State, k: Record, key: KeyPos)
    requires Inv(s) && CanEnter(k) && Real(s.tk.event) && !s.tk.event.pressed
    ensures var o := ProcessTapping(c, s, k);
      Given(o.s, key) == Given(s, key) + if o.done then Real1(k.event, key) else []
  {
    hide SettledOf, ScanTap, Diff, Of;
    OfPending(s, key);
    OfPending(ProcessTapping(c, s, k).s, key);
    if k.event.pressed {
      if k.event.key == s.tk.event.key {
        var n := if s.tk.tap.count < MAX_TAPS then s.tk.tap.count + 1 else s.tk.tap.count;
        ActGives(c, s.log, k.(tap := s.tk.tap.(count := n)), key);
      } else {
        StartGives(c, s, k, key);
      }
    } else {
      ActGives(c, s.log, k, key);
    }
  }

  lemma IdleGives(c: Setup, s: State, k: Record, key: KeyPos)
    requires Inv(s) && CanEnter(k) && s.tk == NO_RECORD
    ensures var o := ProcessTapping(c, s, k);
      Given(o.s, key) == Given(s, key) + if o.done then Real1(k.event, key) else []
  {
    hide SettledOf, ScanTap, Diff, Of;
    OfPending(s, key);
    OfPending(ProcessTapping(c, s, k).s, key);
    if k.event.pressed {
      StartGives(c, s, k, key);
    } else {
      ActGives(c, s.log, k, key);
    }
  }

  // A transition gives the action layer the record it consumes, after
  // everything of the same key it was given before, and nothing else.
  lemma ProcessGives(c: Setup, s: State, k: Record, key: KeyPos)
    requires Inv(s) && CanEnter(k)
    ensures var o := ProcessTapping(c, s, k);
      Given(o.s, key) == Given(s, key) + if o.done then Real1(k.event, key) else []
  {
    hide ProcessTapping, Given;
    if TkPressed(s) {
      PressedGives(c, s, k, key);
    } else if Real(s.tk.event) {
      ReleasedGives(c, s, k, key);
    } else {
      IdleGives(c, s, k, key);
    }
  }

  // The state after the front record has been offered once.
  function Offered(c: Setup, s: State): (s': State)
    requires s.buf != []
    ensures |s'.buf| == if ProcessTapping(c, s, s.buf[0]).done then |s.buf| - 1 else |s.buf|
  {
    var o := ProcessTapping(c, s, s.buf[0]);
    KeepsLength(c, s, s.buf[0]);
    o.s.(buf := if o.done then o.s.buf[1..] else o.s.buf[0 := o.rec])
  }

  lemma OfferKeeps(c: Setup, s: State)
    requires Inv(s) && s.buf != []
    ensures Inv(Offered(c, s))
    ensures Events(Offered(c, s).buf) ==
            if ProcessTapping(c, s, s.buf[0]).done then Events(s.buf)[1..] else Events(s.buf)
  {
    hide ProcessTapping;
    var k := s.buf[0];
    var o, s' := ProcessTapping(c, s, k), Offered(c, s);
    ProcessKeepsInv(c, s, k);
    if o.done {
      assert Events(s'.buf) == Events(s.buf)[1..];
    } else {
      assert Events(s'.buf) == Events(s.buf);
    }
  }

  lemma OfferPresents(c: Setup, s: State, key: KeyPos)
    requires Inv(s) && s.buf != []
    ensures Inv(Offered(c, s)) && Presented(Offered(c, s), key) == Presented(s, key)
    ensures Events(Offered(c, s).buf) ==
            if ProcessTapping(c, s, s.buf[0]).done then Events(s.buf)[1..] else Events(s.buf)
  {
    hide ProcessTapping, SettledOf, Of, Inv, CanEnter, Events, Given, One;
    var k, rest := s.buf[0], Events(s.buf)[1..];
    FrontEnters(s);
    OfferKeeps(c, s);
    ProcessGives(c, s, k, key);
    assert Events(s.buf) == [k.event] + rest;
    OfConcat([k.event], rest, key);
    OfOne(k.event, key);
    assert Given(Offered(c, s), key) == Given(ProcessTapping(c, s, k).s, key) by { GivenIgnoresQueue(c, s, key); }
    assert Given(s, key) + (Real1(k.event, key) + Of(rest, key)) == Given(s, key) + Real1(k.event, key) + Of(rest, key);
    assert Given(s, key) + [] == Given(s, key);
  }

  lemma GivenIgnoresQueue(c: Setup, s: State, key: KeyPos)
    requires s.buf != []
    ensures Given(Offered(c, s), key) == Given(ProcessTapping(c, s, s.buf[0]).s, key)
  {
    hide ProcessTapping, SettledOf, Of;
  }

  lemma FrontEnters(s: State)
    requires Inv(s) && s.buf != []
    ensures CanEnter(s.buf[0]) && Real(s.buf[0].event)
  {
  }

  // Draining never changes the order of any key's events.
  lemma {:induction false} DrainPresents(c: Setup, s: State, key: KeyPos)
    requires Inv(s)
    ensures Presented(Drain(c, s), key) == Presented(s, key)
    decreases |s.buf|
  {
    hide ProcessTapping, Presented;
    if s.buf != [] {
      OfferPresents(c, s, key);
      if ProcessTapping(c, s, s.buf[0]).done {
        DrainPresents(c, Offered(c, s), key);
      }
    }
  }

  lemma OverflowPresents(s: State, r: Record, key: KeyPos)
    requires Real(r.event) && |s.buf| == CAPACITY
    ensures Presented(Enqueue(s, r), key) == Presented(s, key) + Real1(r.event, key)
  {
    hide SettledOf, Of, Pending, Events;
    var lost := Pending(s) + Events(s.buf) + [r.event];
    OfPending(State(NO_RECORD, [], s.log + [Overflow(lost)]), key);
    SettledOfSnoc(s.log, Overflow(lost), key);
    OfConcat(Pending(s) + Events(s.buf), [r.event], key);
    OfConcat(Pending(s), Events(s.buf), key);
    OfOne(r.event, key);
    assert Events([]) == [] && Of([], key) == [] by { NoneOf(key); }
  }

  lemma EnqueuePresents(s: State, r: Record, key: KeyPos)
    ensures Presented(Enqueue(s, r), key) == Presented(s, key) + Real1(r.event, key)
  {
    hide SettledOf, Of, Pending, Events;
    if Real(r.event) {
      if |s.buf| == CAPACITY {
        OverflowPresents(s, r, key);
      } else {
        OfPending(s, key);
        OfPending(Enqueue(s, r), key);
        OfOne(r.event, key);
        assert Events(s.buf + [r]) == Events(s.buf) + [r.event];
        OfConcat(Events(s.buf), [r.event], key);
      }
    }
  }

  lemma NoneOf(key: KeyPos)
    ensures Of([], key) == []
  {
  }

  // One call adds the event behind all others of its key, unless it is taken at
  // once: then it comes before those that wait.
  lemma StepPresents(c: Setup, s: State, e: Event, key: KeyPos)
    requires Inv(s) && Input(e)
    ensures Presented(Step(c, s, e), key) ==
            if ProcessTapping(c, s, Fresh(e)).done
            then Given(s, key) + Real1(e, key) + Of(Events(s.buf), key)
            else Presented(s, key) + Real1(e, key)
  {
    hide ProcessTapping, SettledOf, Of, Enqueue, Drain, Given;
    var o := ProcessTapping(c, s, Fresh(e));
    ProcessKeepsInv(c, s, Fresh(e));
    ProcessGives(c, s, Fresh(e), key);
    if o.done {
      DrainPresents(c, o.s, key);
    } else {
      EnqueueAccounts(o.s, o.rec, e);
      EnqueuePresents(o.s, o.rec, key);
      DrainPresents(c, Enqueue(o.s, o.rec), key);
    }
  }

  // Another event of the same key waits.
  predicate KeyWaits(s: State, e: Event) {
    exists i :: 0 <= i < |s.buf| && s.buf[i].event.key == e.key && s.buf[i].event != e
  }

  // The new event is taken ahead of a waiting one of its own key.
  predicate Overtakes(c: Setup, s: State, e: Event) {
    Real(e) && GoesAhead(c, s, e) && KeyWaits(s, e)
  }

  lemma {:induction false} Rotates(e: Event, b: seq<Event>)
    ensures [e] + b == b + [e] <==> forall x :: x in b ==> x == e
  {
    if [e] + b == b + [e] {
      AllSame(e, b, |b|);
    } else if forall x :: x in b ==> x == e {
      AllEqual(e, b);
    }
  }

  lemma AllEqual(e: Event, b: seq<Event>)
    requires forall x :: x in b ==> x == e
    ensures [e] + b == b + [e]
  {
    assert forall i :: 0 <= i < |b| ==> b[i] in b;
  }

  lemma {:induction false} AllSame(e: Event, b: seq<Event>, n: nat)
    requires [e] + b == b + [e] && n <= |b|
    ensures forall i :: 0 <= i < n ==> b[i] == e
  {
    if n > 0 {
      AllSame(e, b, n - 1);
      assert ([e] + b)[n - 1] == (b + [e])[n - 1] == b[n - 1];
      if n > 1 {
        assert ([e] + b)[n - 1] == b[n - 2];
      }
    }
  }

  lemma WaitsMeans(s: State, e: Event)
    ensures KeyWaits(s, e) <==> exists x :: x in Of(Events(s.buf), e.key) && x != e
  {
    hide Of;
    if KeyWaits(s, e) {
      var i :| 0 <= i < |s.buf| && s.buf[i].event.key == e.key && s.buf[i].event != e;
      assert Events(s.buf)[i] in Events(s.buf);
      assert s.buf[i].event in Of(Events(s.buf), e.key);
    }
    if x :| x in Of(Events(s.buf), e.key) && x != e {
      assert x in Events(s.buf) && x.key == e.key;
      var j :| 0 <= j < |Events(s.buf)| && Events(s.buf)[j] == x;
      assert s.buf[j].event == x;
    }
  }

  // A call keeps the order of every other key, and of the event's own key
  // exactly if the event does not overtake.
  lemma OvertakesIff(c: Setup, s: State, e: Event)
    requires Inv(s) && Real(e) && Input(e)
    ensures Presented(Step(c, s, e), e.key) == Presented(s, e.key) + [e] <==> !Overtakes(c, s, e)
    ensures forall key :: key != e.key ==> Presented(Step(c, s, e), key) == Presented(s, key)
  {
    hide Step, ProcessTapping, Given, Of, GoesAhead, KeyWaits;
    var g, b := Given(s, e.key), Of(Events(s.buf), e.key);
    StepPresents(c, s, e, e.key);
    GoesAheadIff(c, s, e);
    WaitsMeans(s, e);
    Rotates(e, b);
    if ProcessTapping(c, s, Fresh(e)).done {
      assert g + [e] + b == g + ([e] + b);
      assert g + b + [e] == g + (b + [e]);
      assert (g + ([e] + b))[|g|..] == [e] + b && (g + (b + [e]))[|g|..] == b + [e];
    }
    forall key | key != e.key
      ensures Presented(Step(c, s, e), key) == Presented(s, key)
    {
      StepPresents(c, s, e, key);
    }
  }

  predicate NoneOvertakes(c: Setup, s: State, es: seq<Event>)
    decreases |es|
  {
    es != [] ==> !Overtakes(c, s, es[0]) && NoneOvertakes(c, Step(c, s, es[0]), es[1..])
  }

  lemma OfRest(es: seq<Event>, key: KeyPos)
    requires es != []
    ensures Of(es, key) == One(es[0], key) + Of(es[1..], key)
  {
    hide Of;
    assert es == [es[0]] + es[1..];
    OfConcat([es[0]], es[1..], key);
    OfOne(es[0], key);
  }

  // If no event of a run overtakes, the action layer gets each key's events in
  // the order in which they were submitted: settled, then pending, then waiting.
  lemma {:induction false} KeysKeepOrder(c: Setup, s: State, es: seq<Event>, key: KeyPos)
    requires Inv(s) && Inputs(es) && NoneOvertakes(c, s, es) && key != KeyPos(255, 255)
    ensures Presented(Run(c, s, es), key) == Presented(s, key) + Of(es, key)
    decreases |es|
  {
    hide Step, Presented, Of, Overtakes, Inv, Input, One;
    if es == [] {
      NoneOf(key);
      assert Presented(s, key) + [] == Presented(s, key);
    } else {
      var e := es[0];
      StepAccounts(c, s, e, e);
      StepIsOrdered(c, s, e, key);
      KeysKeepOrder(c, Step(c, s, e), es[1..], key);
      OfRest(es, key);
      assert Presented(s, key) + One(e, key) + Of(es[1..], key) == Presented(s, key) + (One(e, key) + Of(es[1..], key));
    }
  }

  lemma StepIsOrdered(c: Setup, s: State, e: Event, key: KeyPos)
    requires Inv(s) && Input(e) && !Overtakes(c, s, e) && key != KeyPos(255, 255)
    ensures Presented(Step(c, s, e), key) == Presented(s, key) + One(e, key)
  {
    hide Step, ProcessTapping, Of, Overtakes, SettledOf;
    if Real(e) {
      OvertakesIff(c, s, e);
    } else {
      StepPresents(c, s, e, key);
    }
  }
}
