// Runs of the tap/hold machine in which no event clashes with a waiting one of
// its own key: every key's events reach the action layer in order and paired.
module PairedRuns {
  import opened KeyEvents
  import opened Tapping
  import opened TappingLedger
  import opened TappingOrder
  import opened KeyOrder
  import opened KeyPairs

  // Seen from any waiting event, later ones come later by less than a turn of
  // the clock.
  predicate ClockOk(es: seq<Event>) {
    forall h, i, j :: 0 <= h < i < j < |es| ==> Diff(es[i].time, es[h].time) <= Diff(es[j].time, es[h].time)
  }

  lemma ClockRest(buf: seq<Record>)
    requires buf != [] && ClockOk(Events(buf))
    ensures ClockFrom(buf[0].event.time, buf[1..]) && ClockOk(Events(buf)[1..])
  {
    hide Diff;
    var es := Events(buf);
    assert forall i :: 0 <= i < |buf| - 1 ==> buf[1..][i].event == es[i + 1] && es[1..][i] == es[i + 1];
  }

  // What holds of a state in which every key is in step with the action layer.
  ghost predicate Ready(c: Setup, s: State) {
    && Inv(s) && Orderly(c, s.log) && ClockOk(Events(s.buf))
    && (forall key :: key != KeyPos(255, 255) ==>
          KeyOk(s.tk, ModeOf(s.log, key), RecsOf(s.buf, key), key) && Alternates(Presented(s, key)))
  }

  lemma KeyFact(c: Setup, s: State, key: KeyPos, v: seq<Record>, more: seq<Event>)
    requires Orderly(c, s.log) && Alternates(Presented(s, key) + more)
    requires KeyOk(s.tk, ModeOf(s.log, key), v, key) && Events(v) == Of(Events(s.buf), key) + more
    ensures Fact(s, v, key)
  {
    hide Orderly, ModeOf, SettledOf, Of, KeyOk, Alternates, Turn, Pending;
    var q := Of(Pending(s), key) + Events(v);
    assert SettledOf(s.log, key) + q == Presented(s, key) + more;
    TurnFrom(c, s.log, key, q);
  }

  lemma ReadyFact(c: Setup, s: State, key: KeyPos)
    requires Ready(c, s) && key != KeyPos(255, 255)
    ensures Fact(s, RecsOf(s.buf, key), key)
  {
    hide Orderly, ModeOf, Of, KeyOk, Alternates, RecsOf, Presented, Fact;
    RecsEvents(s.buf, key);
    assert Presented(s, key) + [] == Presented(s, key);
    assert Of(Events(s.buf), key) + [] == Of(Events(s.buf), key);
    KeyFact(c, s, key, RecsOf(s.buf, key), []);
  }

  // ----- The drain loop -----

  lemma OfferReady(c: Setup, s: State)
    requires Ready(c, s) && s.buf != []
    ensures Ready(c, Offered(c, s))
  {
    hide Orderly, ModeOf, Of, KeyOk, Alternates, RecsOf, Presented, Fact, ProcessTapping, Diff;
    var k := s.buf[0];
    var o, s' := ProcessTapping(c, s, k), Offered(c, s);
    ClockRest(s.buf);
    OfferPresents(c, s, k.event.key);
    forall key | key != KeyPos(255, 255)
      ensures Orderly(c, s'.log) && KeyOk(s'.tk, ModeOf(s'.log, key), RecsOf(s'.buf, key), key)
      ensures Alternates(Presented(s', key))
    {
      OfferPresents(c, s, key);
      if o.done {
        OfferDone(c, s, key);
      } else {
        OfferWaits(c, s, key);
      }
    }
    assert Orderly(c, s'.log) by { assert KeyPos(0, 0) != KeyPos(255, 255); }
  }

  lemma OfferDone(c: Setup, s: State, key: KeyPos)
    requires Ready(c, s) && s.buf != [] && key != KeyPos(255, 255)
    requires ProcessTapping(c, s, s.buf[0]).done
    ensures var s' := Offered(c, s);
      Orderly(c, s'.log) && KeyOk(s'.tk, ModeOf(s'.log, key), RecsOf(s'.buf, key), key)
  {
    hide Orderly, ModeOf, Of, KeyOk, Alternates, RecsOf, Presented, Fact, ProcessTapping, Diff;
    var k := s.buf[0];
    ClockRest(s.buf);
    forall key | key != KeyPos(255, 255)
      ensures Fact(s, Front(s, k, 1, key), key)
    {
      ReadyFact(c, s, key);
      RecsCons(s.buf, key);
    }
    ProcessLeaves(c, s, k, 1, key);
  }

  lemma OfferWaits(c: Setup, s: State, key: KeyPos)
    requires Ready(c, s) && s.buf != [] && key != KeyPos(255, 255)
    requires !ProcessTapping(c, s, s.buf[0]).done
    ensures var s' := Offered(c, s);
      Orderly(c, s'.log) && KeyOk(s'.tk, ModeOf(s'.log, key), RecsOf(s'.buf, key), key)
  {
    hide Orderly, ModeOf, Of, KeyOk, Alternates, RecsOf, Presented, Fact, ProcessTapping, Diff;
    var k := s.buf[0];
    var v := (key: KeyPos) => RecsOf(s.buf, key);
    forall key | key != KeyPos(255, 255)
      ensures Fact(s, v(key), key)
    {
      ReadyFact(c, s, key);
    }
    RecsCons(s.buf, k.event.key);
    ProcessWaits(c, s, k, v, 0, key);
    var r := ProcessTapping(c, s, k).rec;
    RecsCons(s.buf, key);
    RecsCons(s.buf[0 := r], key);
    assert s.buf[0 := r][1..] == s.buf[1..];
    if k.event.key == key {
      assert ([k] + RecsOf(s.buf[1..], key))[0 := r] == [r] + RecsOf(s.buf[1..], key);
    }
  }

  lemma {:induction false} DrainReady(c: Setup, s: State)
    requires Ready(c, s)
    ensures Ready(c, Drain(c, s))
    decreases |s.buf|
  {
    hide ProcessTapping, Ready;
    if s.buf != [] {
      OfferReady(c, s);
      if ProcessTapping(c, s, s.buf[0]).done {
        DrainReady(c, Offered(c, s));
      }
    }
  }

  // ----- One submitted event -----

  // Another event of the key waits while the new one is acted upon: it is taken
  // ahead, or it settles the undecided key as a tap that is not cancelled.
  predicate Clashes(c: Setup, s: State, e: Event) {
    && Real(e) && KeyWaits(s, e)
    && (GoesAhead(c, s, e) || (FirstTap(c, s, e) && !Cancels(c, s.log, s.tk.(tap := s.tk.tap.(count := 1)))))
  }

  lemma LastDiffers(a: seq<Event>, w: seq<Event>, e: Event)
    requires Alternates(a + w + [e]) && w != []
    ensures exists x :: x in w && x != e
  {
    assert (a + w + [e])[|a| + |w|] == e && (a + w + [e])[|a| + |w| - 1] == w[|w| - 1];
    assert w[|w| - 1] in w;
  }

  // If no other event of the key waits, none does.
  lemma NoneWaits(s: State, e: Event)
    requires Alternates(Presented(s, e.key) + [e]) && !KeyWaits(s, e)
    ensures Of(Events(s.buf), e.key) == [] && RecsOf(s.buf, e.key) == []
  {
    hide Of, RecsOf, Given, Alternates, KeyWaits;
    RecsEvents(s.buf, e.key);
    WaitsMeans(s, e);
    if Of(Events(s.buf), e.key) != [] {
      LastDiffers(Given(s, e.key), Of(Events(s.buf), e.key), e);
    }
  }

  // The state a direct event meets, and what is asked of the event.
  ghost predicate Meets(c: Setup, s: State, e: Event) {
    && Ready(c, s) && Input(e) && !Clashes(c, s, e)
    && (Real(e) ==> Alternates(Presented(s, e.key) + [e]) && ClockOk(Events(s.buf) + [e]))
  }

  lemma DirectDone(c: Setup, s: State, e: Event)
    requires Meets(c, s, e) && ProcessTapping(c, s, Fresh(e)).done
    ensures Ready(c, ProcessTapping(c, s, Fresh(e)).s)
  {
    hide Orderly, ModeOf, Of, KeyOk, Alternates, RecsOf, Fact, ProcessTapping, Diff, KeyWaits, GoesAhead, FirstTap,
      Given;
    var k := Fresh(e);
    var o := ProcessTapping(c, s, k);
    if Real(e) {
      GoesAheadIff(c, s, e);
      NoneWaits(s, e);
    }
    forall key | key != KeyPos(255, 255)
      ensures Fact(s, Front(s, k, 0, key), key)
    {
      DirectFact(c, s, e, key);
    }
    ProcessKeepsInv(c, s, k);
    forall key | key != KeyPos(255, 255)
      ensures Orderly(c, o.s.log) && KeyOk(o.s.tk, ModeOf(o.s.log, key), RecsOf(o.s.buf, key), key)
      ensures Alternates(Presented(o.s, key))
    {
      ProcessLeaves(c, s, k, 0, key);
      assert o.s.buf[0..] == o.s.buf;
      ProcessGives(c, s, k, key);
      DirectPresents(c, s, e, o.s, key);
    }
    ProcessLeaves(c, s, k, 0, KeyPos(0, 0));
  }

  lemma DirectFact(c: Setup, s: State, e: Event, key: KeyPos)
    requires Meets(c, s, e) && key != KeyPos(255, 255)
    requires Real(e) ==> Of(Events(s.buf), e.key) == [] && RecsOf(s.buf, e.key) == []
    ensures Fact(s, Front(s, Fresh(e), 0, key), key)
  {
    hide Orderly, ModeOf, Of, Alternates, RecsOf, Fact, Presented, Diff, KeyWaits, GoesAhead, FirstTap;
    var k := Fresh(e);
    assert s.buf[0..] == s.buf;
    if Real(e) && e.key == key {
      assert Front(s, k, 0, key) == [k];
      NewFact(s.tk, ModeOf(s.log, key), k, key);
      assert Events([k]) == [] + [e];
      KeyFact(c, s, key, [k], [e]);
    } else {
      assert Front(s, k, 0, key) == RecsOf(s.buf, key);
      ReadyFact(c, s, key);
    }
  }

  // A fresh record may join when nothing of its key waits.
  lemma NewFact(tk: Record, m: Mode, k: Record, key: KeyPos)
    requires KeyOk(tk, m, [], key) && k.tap.count == 0
    ensures KeyOk(tk, m, [k], key)
  {
  }

  lemma DirectPresents(c: Setup, s: State, e: Event, s': State, key: KeyPos)
    requires Meets(c, s, e) && key != KeyPos(255, 255)
    requires Real(e) ==> Of(Events(s.buf), e.key) == []
    requires Events(s'.buf) == Events(s.buf) && Given(s', key) == Given(s, key) + Real1(e, key)
    ensures Alternates(Presented(s', key))
  {
    hide Orderly, ModeOf, Of, Alternates, RecsOf, Diff, KeyWaits, GoesAhead, FirstTap, Given, KeyOk;
    if Real(e) && e.key == key {
      assert Presented(s', key) == Presented(s, key) + [e];
    } else {
      assert Given(s', key) == Given(s, key);
      assert Presented(s', key) == Presented(s, key);
    }
  }

  // The records of a key with the new one behind them.
  function Behind(s: State, e: Event, key: KeyPos): seq<Record> {
    RecsOf(s.buf, key) + if Real(e) then OneRec(Fresh(e), key) else []
  }

  lemma BehindFact(c: Setup, s: State, e: Event, key: KeyPos)
    requires Meets(c, s, e) && key != KeyPos(255, 255)
    ensures Fact(s, Behind(s, e, key), key)
  {
    hide Orderly, ModeOf, Of, Alternates, RecsOf, Fact, Presented, Diff, KeyWaits, GoesAhead, FirstTap;
    ReadyFact(c, s, key);
    if Real(e) && e.key == key {
      var v := RecsOf(s.buf, key);
      RecsEvents(s.buf, key);
      LastFact(s.tk, ModeOf(s.log, key), v, Fresh(e), key);
      assert Events(v + [Fresh(e)]) == Events(v) + [e];
      KeyFact(c, s, key, v + [Fresh(e)], [e]);
    } else {
      assert Behind(s, e, key) == RecsOf(s.buf, key);
    }
  }

  lemma LastFact(tk: Record, m: Mode, v: seq<Record>, k: Record, key: KeyPos)
    requires KeyOk(tk, m, v, key) && k.tap.count == 0
    ensures KeyOk(tk, m, v + [k], key)
  {
  }

  lemma FirstTapAlone(c: Setup, s: State, e: Event)
    requires Meets(c, s, e) && FirstTap(c, s, e) && Real(e)
    ensures RecsOf(s.buf, e.key) == [] || Cancels(c, s.log, s.tk.(tap := s.tk.tap.(count := 1)))
  {
    hide Orderly, ModeOf, Of, Alternates, RecsOf, Presented, Diff, KeyWaits, KeyOk;
    if !KeyWaits(s, e) {
      NoneWaits(s, e);
    }
  }

  lemma DirectWaits(c: Setup, s: State, e: Event)
    requires Meets(c, s, e) && !ProcessTapping(c, s, Fresh(e)).done
    ensures var o := ProcessTapping(c, s, Fresh(e)); Ready(c, Enqueue(o.s, o.rec))
  {
    hide Orderly, ModeOf, Of, KeyOk, Alternates, RecsOf, Fact, Presented, ProcessTapping, Enqueue, Diff, KeyWaits,
      GoesAhead;
    var k := Fresh(e);
    var o := ProcessTapping(c, s, k);
    var s' := Enqueue(o.s, o.rec);
    var v := (key: KeyPos) => Behind(s, e, key);
    forall key | key != KeyPos(255, 255)
      ensures Fact(s, v(key), key)
    {
      BehindFact(c, s, e, key);
    }
    ProcessKeepsInv(c, s, k);
    EnqueueAccounts(o.s, o.rec, e);
    if FirstTap(c, s, e) {
      FirstTapAlone(c, s, e);
    }
    ProcessWaits(c, s, k, v, |RecsOf(s.buf, e.key)|, KeyPos(0, 0));
    EnqueueOk(c, s, e, o.s, o.rec, KeyPos(0, 0));
    EnqueueEvents(s, o.s, o.rec);
    forall key | key != KeyPos(255, 255)
      ensures Orderly(c, s'.log) && KeyOk(s'.tk, ModeOf(s'.log, key), RecsOf(s'.buf, key), key)
      ensures Alternates(Presented(s', key))
    {
      ProcessWaits(c, s, k, v, |RecsOf(s.buf, e.key)|, key);
      EnqueueOk(c, s, e, o.s, o.rec, key);
      ProcessGives(c, s, k, key);
      EnqueuePresents(o.s, o.rec, key);
      WaitPresents(c, s, e, o.s, key);
    }
  }

  lemma EnqueueEvents(s: State, s1: State, r: Record)
    requires s1.buf == s.buf && ClockOk(Events(s.buf)) && (Real(r.event) ==> ClockOk(Events(s.buf) + [r.event]))
    ensures ClockOk(Events(Enqueue(s1, r).buf))
  {
    hide Diff;
    assert Events(s.buf + [r]) == Events(s.buf) + [r.event];
  }

  lemma EnqueueOk(c: Setup, s: State, e: Event, s1: State, r: Record, key: KeyPos)
    requires s1.buf == s.buf && r.event == e && Orderly(c, s1.log)
    requires KeyOk(s1.tk, ModeOf(s1.log, key),
                   Back(Behind(s, e, key), |RecsOf(s.buf, e.key)|, Fresh(e), r, key), key)
    ensures var s' := Enqueue(s1, r);
      Orderly(c, s'.log) && KeyOk(s'.tk, ModeOf(s'.log, key), RecsOf(s'.buf, key), key)
  {
    hide Orderly, ModeOf, RecsOf, KeyOk, Pending;
    RecsConcat(s.buf, [r], key);
    RecsOne(r, key);
    var lost := Pending(s1) + Events(s1.buf) + [r.event];
    Snoc(c, s1.log, Overflow(lost), key);
    NoneOk(key);
    if Real(e) && e.key == key {
      assert (RecsOf(s.buf, key) + [Fresh(e)])[|RecsOf(s.buf, key)| := r] == RecsOf(s.buf, key) + [r];
    } else {
      assert Behind(s, e, key) == RecsOf(s.buf, key);
      assert RecsOf(s.buf, key) + [] == RecsOf(s.buf, key);
    }
  }

  lemma NoneOk(key: KeyPos)
    ensures KeyOk(NO_RECORD, Up, RecsOf([], key), key)
  {
  }

  lemma WaitPresents(c: Setup, s: State, e: Event, s1: State, key: KeyPos)
    requires Meets(c, s, e) && key != KeyPos(255, 255)
    requires s1.buf == s.buf && Given(s1, key) == Given(s, key) + []
    ensures Presented(s1, key) == Presented(s, key) && Alternates(Presented(s1, key) + Real1(e, key))
  {
    hide Orderly, ModeOf, Of, Alternates, RecsOf, Diff, KeyWaits, GoesAhead, FirstTap, Given, KeyOk;
    assert Given(s1, key) == Given(s, key);
    assert Presented(s, key) + [] == Presented(s, key);
  }

  lemma StepReady(c: Setup, s: State, e: Event)
    requires Meets(c, s, e)
    ensures Ready(c, Step(c, s, e))
  {
    hide ProcessTapping, Ready, Enqueue, Drain, Meets;
    var o := ProcessTapping(c, s, Fresh(e));
    if o.done {
      DirectDone(c, s, e);
      DrainReady(c, o.s);
    } else {
      DirectWaits(c, s, e);
      DrainReady(c, Enqueue(o.s, o.rec));
    }
  }

  // No event of the run clashes, and none waits for a whole turn of the clock.
  predicate Smooth(c: Setup, s: State, es: seq<Event>)
    decreases |es|
  {
    es != [] ==>
      && !Clashes(c, s, es[0]) && (Real(es[0]) ==> ClockOk(Events(s.buf) + [es[0]]))
      && Smooth(c, Step(c, s, es[0]), es[1..])
  }

  // After every smooth run of presses and releases that alternate key by key,
  // the log is orderly and presents each key's events in order.
  lemma {:induction false} SmoothRun(c: Setup, s: State, es: seq<Event>)
    requires Ready(c, s) && Inputs(es) && Smooth(c, s, es)
    requires forall key :: key != KeyPos(255, 255) ==> Alternates(Presented(s, key) + Of(es, key))
    ensures Ready(c, Run(c, s, es))
    ensures forall key :: key != KeyPos(255, 255) ==> Presented(Run(c, s, es), key) == Presented(s, key) + Of(es, key)
    decreases |es|
  {
    hide Step, Ready, Of, Presented, Alternates, ClockOk, Clashes;
    if es == [] {
      forall key
        ensures Presented(s, key) + Of([], key) == Presented(s, key)
      {
        NoneOf(key);
      }
    } else {
      var e := es[0];
      var s' := Step(c, s, e);
      MeetsFirst(c, s, es);
      StepReady(c, s, e);
      forall key | key != KeyPos(255, 255)
        ensures Presented(s', key) + Of(es[1..], key) == Presented(s, key) + Of(es, key)
      {
        NoClash(c, s, e, key);
        OfRest(es, key);
      }
      SmoothRun(c, s', es[1..]);
    }
  }

  lemma MeetsFirst(c: Setup, s: State, es: seq<Event>)
    requires Ready(c, s) && Inputs(es) && Smooth(c, s, es) && es != []
    requires forall key :: key != KeyPos(255, 255) ==> Alternates(Presented(s, key) + Of(es, key))
    ensures Meets(c, s, es[0])
  {
    hide Step, Ready, Of, Presented, Alternates, ClockOk, Clashes;
    var e := es[0];
    if Real(e) {
      OfRest(es, e.key);
      AlternatesFront(Presented(s, e.key), e, Of(es[1..], e.key));
    }
  }

  lemma AlternatesFront(a: seq<Event>, e: Event, b: seq<Event>)
    requires Alternates(a + ([e] + b))
    ensures Alternates(a + [e])
  {
    assert forall i :: 0 <= i < |a| + 1 ==> (a + [e])[i] == (a + ([e] + b))[i];
  }

  lemma NoClash(c: Setup, s: State, e: Event, key: KeyPos)
    requires Ready(c, s) && Input(e) && !Clashes(c, s, e) && key != KeyPos(255, 255)
    ensures Presented(Step(c, s, e), key) == Presented(s, key) + One(e, key)
  {
    hide Step, Presented, KeyWaits, GoesAhead, FirstTap, Alternates, ClockOk, KeyOk, Orderly;
    StepIsOrdered(c, s, e, key);
  }

  // Overtaking is exactly what breaks the pairing of a key: an event that is next
  // in turn leaves its key's events alternating exactly if it does not overtake.
  lemma PairsBreakIff(c: Setup, s: State, e: Event)
    requires Inv(s) && Real(e) && Input(e) && Alternates(Presented(s, e.key) + [e])
    ensures Alternates(Presented(Step(c, s, e), e.key)) <==> !Overtakes(c, s, e)
  {
    hide Step, ProcessTapping, Given, Of, GoesAhead, KeyWaits, Alternates;
    OvertakesIff(c, s, e);
    if Overtakes(c, s, e) {
      StepPresents(c, s, e, e.key);
      GoesAheadIff(c, s, e);
      WaitsMeans(s, e);
      InsertedBreaks(Given(s, e.key), Of(Events(s.buf), e.key), e);
    }
  }

  lemma InsertedBreaks(g: seq<Event>, b: seq<Event>, e: Event)
    requires Alternates(g + b + [e]) && b != []
    ensures !Alternates(g + [e] + b)
  {
    assert (g + [e] + b)[|g| + 1] == b[0] && (g + b + [e])[|g|] == b[0];
  }

  lemma IdleReady(c: Setup)
    ensures Ready(c, IDLE)
    ensures forall key :: Presented(IDLE, key) == []
  {
    assert Pending(IDLE) == [] && Events(IDLE.buf) == [];
    forall key
      ensures Presented(IDLE, key) == [] && KeyOk(NO_RECORD, Up, RecsOf([], key), key)
    {
      NoneOf(key);
      NoneOk(key);
    }
  }
}
