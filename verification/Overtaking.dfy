// Inputs on which the tap/hold machine changes the order of events: of two
// ordinary keys, and of the press and the release of one.
module Overtaking {
  import opened KeyEvents
  import opened Actions
  import opened Tapping
  import opened TappingLedger
  import opened TappingOrder
  import opened TapTrains
  import opened KeyOrder
  import opened Wired

  // The action layer tells tap keys from others by the key alone.
  ghost predicate TapKeys(c: Setup, taps: KeyPos -> bool) {
    forall log, e: Event :: e.pressed && Real(e) ==> (c.isTap(log, e) <==> taps(e.key))
  }

  // A keymap that does so on every layer.
  lemma WireTapKeys(km: Keymap, w: World, term: nat, taps: KeyPos -> bool)
    requires forall l: nat, key: KeyPos :: IsTapAction(km(l, key)) <==> taps(key)
    ensures TapKeys(Wire(km, w, term), taps)
  {
    hide IsTapAction, Replay, CurrentLayer, Active;
    forall log, e: Event | e.pressed && Real(e)
      ensures Wire(km, w, term).isTap(log, e) <==> taps(e.key)
    {
      var v := Replay(km, w, log);
      assert Resolve(km, v, e).1 == km(CurrentLayer(km, Active(v.layers, v.defaults), e.key), e.key);
    }
  }

  // Ticks within the term change nothing while a tap key is undecided and
  // presses wait.
  lemma {:induction false} QuietTicks(c: Setup, s: State, ts: seq<nat>)
    requires TkPressed(s) && s.tk.tap == Tap(true, 0) && Timely(c, s.tk.event.time, ts)
    requires s.buf != [] && s.buf[0].event.pressed && Within(c, s.buf[0].event, s.tk)
    ensures Run(c, s, Ticks(ts)) == s
    decreases |ts|
  {
    hide Step, Diff;
    if ts != [] {
      QuietTick(c, s, ts[0]);
      assert Ticks(ts)[1..] == Ticks(ts[1..]);
      QuietTicks(c, s, ts[1..]);
    }
  }

  lemma QuietTick(c: Setup, s: State, t: nat)
    requires TkPressed(s) && s.tk.tap == Tap(true, 0) && Diff(t, s.tk.event.time) < c.term
    requires s.buf != [] && s.buf[0].event.pressed && Within(c, s.buf[0].event, s.tk)
    ensures Step(c, s, Tick(t)) == s
  {
    hide Diff, Typed;
    assert ProcessTapping(c, s, Fresh(Tick(t))) == Outcome(false, s, Fresh(Tick(t)));
    assert ProcessTapping(c, s, s.buf[0]) == Outcome(false, s, s.buf[0]);
    assert s.buf[0 := s.buf[0]] == s.buf;
  }

  // A second tap key goes down while the first is undecided.
  lemma SecondDown(c: Setup, s: State, e: Event)
    requires TkPressed(s) && s.tk.tap.count == 0 && s.tk.tap.interrupted == (s.buf != []) && |s.buf| < CAPACITY
    requires Real(e) && e.pressed && Within(c, e, s.tk)
    requires s.buf != [] ==> s.buf[0].event.pressed && Within(c, s.buf[0].event, s.tk)
    ensures Step(c, s, e) == State(s.tk.(tap := Tap(true, 0)), s.buf + [Fresh(e)], s.log)
  {
    hide Diff, Typed;
    var t := State(s.tk.(tap := Tap(true, 0)), s.buf + [Fresh(e)], s.log);
    assert ProcessTapping(c, s, Fresh(e)) == Outcome(false, t.(buf := s.buf), Fresh(e));
    assert ProcessTapping(c, t, t.buf[0]) == Outcome(false, t, t.buf[0]);
    assert t.buf[0 := t.buf[0]] == t.buf;
  }

  // The undecided key has timed out: it is processed, and e waits behind q.
  lemma Timeout(c: Setup, s: State, q: Event, rest: seq<Record>, e: Event)
    requires TkPressed(s) && s.tk.tap.count == 0 && s.buf == [Fresh(q)] + rest
    requires e.time != 0 && !Within(c, e, s.tk) && |s.buf| < CAPACITY
    requires Real(q) && q.pressed && c.isTap(s.log + [Process(s.tk, false, false)], q)
    requires (forall i :: 0 <= i < |rest| ==> rest[i].event.pressed) && (Real(e) ==> e.pressed)
    ensures var more := if Real(e) then [Fresh(e)] else [];
      Step(c, s, e) == Drain(c, State(Fresh(q), rest + more, s.log + [Process(s.tk, false, false), Lookup(q)]))
  {
    hide Diff, Drain;
    var more := if Real(e) then [Fresh(e)] else [];
    var t := State(NO_RECORD, s.buf + more, s.log + [Process(s.tk, false, false)]);
    assert ProcessTapping(c, s, Fresh(e)) == Outcome(false, t.(buf := s.buf), Fresh(e));
    assert s.buf + [] == s.buf;
    var u := State(Fresh(q), t.buf, t.log + [Lookup(q)]);
    assert u.log == s.log + [Process(s.tk, false, false), Lookup(q)];
    NothingToScan(c, u);
    assert ProcessTapping(c, t, t.buf[0]) == Outcome(true, u, Fresh(q));
    DrainUnfold(c, t);
    assert t.buf[1..] == rest + more;
  }

  lemma NothingToScan(c: Setup, s: State)
    requires forall i :: 0 <= i < |s.buf| ==> s.buf[i].event.pressed
    ensures ScanTap(c, s) == s
  {
  }

  // The drain stops at a press that comes after the new tapping key's term, and
  // leaves the machine idle.
  lemma StopsIdle(c: Setup, q: Event, b: Event, log: seq<Call>)
    requires Real(q) && q.pressed && !Within(c, b, Fresh(q))
    ensures Drain(c, State(Fresh(q), [Fresh(b)], log)) ==
            State(NO_RECORD, [Fresh(b)], log + [Process(Fresh(q), false, false)])
  {
    hide Diff;
    var s := State(Fresh(q), [Fresh(b)], log);
    var t := State(NO_RECORD, s.buf, log + [Process(Fresh(q), false, false)]);
    assert ProcessTapping(c, s, Fresh(b)) == Outcome(false, t, Fresh(b));
    assert s.buf[0 := Fresh(b)] == s.buf;
  }

  // An event that finds the machine idle with b waiting is processed first.
  lemma GoesFirst(c: Setup, b: Event, e: Event, log: seq<Call>)
    requires Real(b) && b.pressed && Real(e)
    requires (forall l :: !c.isTap(l, b)) && (e.pressed ==> forall l :: !c.isTap(l, e))
    ensures Step(c, State(NO_RECORD, [Fresh(b)], log), e) ==
            State(NO_RECORD, [], log + (if e.pressed then [Lookup(e)] else []) +
                                 [Process(Fresh(e), false, false), Lookup(b), Process(Fresh(b), false, false)])
  {
    var s := State(NO_RECORD, [Fresh(b)], log);
    var log1 := log + (if e.pressed then [Lookup(e)] else []) + [Process(Fresh(e), false, false)];
    var t := s.(log := log1);
    var u := t.(log := log1 + [Lookup(b)] + [Process(Fresh(b), false, false)]);
    assert log + [] == log;
    assert ProcessTapping(c, s, Fresh(e)) == Outcome(true, t, Fresh(e));
    assert ProcessTapping(c, t, Fresh(b)) == Outcome(true, u, Fresh(b));
    DrainUnfold(c, t);
    assert u.buf[1..] == [];
    assert u.log == log + (if e.pressed then [Lookup(e)] else []) +
                    [Process(Fresh(e), false, false), Lookup(b), Process(Fresh(b), false, false)];
  }

  // Two tap keys p and q go down in one scan and stay down for their term; then
  // two ordinary keys b and d go down in one scan.  The later one is processed
  // first.
  lemma LaterKeyFirst(c: Setup, taps: KeyPos -> bool, p: Event, q: Event, ts: seq<nat>, b: Event, d: Event)
    requires c.term == 200 && TapKeys(c, taps) && taps(p.key) && taps(q.key) && !taps(b.key) && !taps(d.key)
    requires p.time == q.time == 1 && b.time == d.time == 201 && Timely(c, 1, ts)
    requires Real(p) && Real(q) && Real(b) && Real(d) && p.pressed && q.pressed && b.pressed && d.pressed
    ensures Run(c, IDLE, [p, q] + Ticks(ts) + [b, d]).log ==
            [Lookup(p), Process(Record(p, Tap(true, 0)), false, false),
             Lookup(q), Process(Fresh(q), false, false),
             Lookup(d), Process(Fresh(d), false, false),
             Lookup(b), Process(Fresh(b), false, false)]
  {
    hide Step, Drain, ProcessTapping, Ticks, GoesAhead;
    var s1 := State(Fresh(p), [], [Lookup(p)]);
    var s2 := State(Record(p, Tap(true, 0)), [Fresh(q)], [Lookup(p)]);
    var log3 := [Lookup(p), Process(s2.tk, false, false), Lookup(q)];
    var log4 := log3 + [Process(Fresh(q), false, false)];
    var s4 := State(NO_RECORD, [Fresh(b)], log4);
    FirstPress(c, [], p);
    assert [] + [Lookup(p)] == [Lookup(p)];
    SecondDown(c, s1, q);
    assert Run(c, IDLE, [p, q]) == s2 by {
      RunTwo(c, IDLE, p, q);
      assert s1.buf + [Fresh(q)] == s2.buf;
    }
    QuietTicks(c, s2, ts);
    assert Step(c, s2, b) == s4 by {
      Timeout(c, s2, q, [], b);
      assert s2.log + [Process(s2.tk, false, false), Lookup(q)] == log3 && [] + [Fresh(b)] == [Fresh(b)];
      StopsIdle(c, q, b, log3);
    }
    GoesFirst(c, b, d, log4);
    RunTwo(c, s2, b, d);
    RunParts(c, IDLE, [p, q], Ticks(ts), [b, d]);
    assert log4 + [Lookup(d)] + [Process(Fresh(d), false, false), Lookup(b), Process(Fresh(b), false, false)] ==
           [Lookup(p), Process(s2.tk, false, false), Lookup(q), Process(Fresh(q), false, false),
            Lookup(d), Process(Fresh(d), false, false), Lookup(b), Process(Fresh(b), false, false)];
  }

  lemma RunTwo(c: Setup, s: State, a: Event, b: Event)
    ensures Run(c, s, [a, b]) == Step(c, Step(c, s, a), b)
  {
    hide Step;
    assert [a, b] == [a] + [b];
    RunConcat(c, s, [a], [b]);
    RunOne(c, s, a);
    RunOne(c, Step(c, s, a), b);
  }

  lemma RunParts(c: Setup, s: State, x: seq<Event>, y: seq<Event>, z: seq<Event>)
    ensures Run(c, s, x + y + z) == Run(c, Run(c, Run(c, s, x), y), z)
  {
    hide Step;
    RunConcat(c, s, x + y, z);
    RunConcat(c, s, x, y);
  }

  // The drain stops at a press within the new tapping key's term.
  lemma StopsUndecided(c: Setup, q: Event, r: Event, rest: seq<Record>, log: seq<Call>)
    requires Real(q) && q.pressed && r.pressed && Within(c, r, Fresh(q))
    ensures Drain(c, State(Fresh(q), [Fresh(r)] + rest, log)) ==
            State(Record(q, Tap(true, 0)), [Fresh(r)] + rest, log)
  {
    hide Diff, Typed;
    var s := State(Fresh(q), [Fresh(r)] + rest, log);
    var t := State(Record(q, Tap(true, 0)), s.buf, log);
    assert ProcessTapping(c, s, Fresh(r)) == Outcome(false, t, Fresh(r));
    assert s.buf[0 := Fresh(r)] == s.buf;
  }

  // What the run below has done when b is released.
  function Held3(p: Event, q: Event, r: Event): seq<Call> {
    [Lookup(p), Process(Record(p, Tap(true, 0)), false, false),
     Lookup(q), Process(Record(q, Tap(true, 0)), false, false),
     Lookup(r), Process(Fresh(r), false, false)]
  }

  // Three tap keys p, q and r go down in one scan and stay down; an ordinary key
  // b goes down when their term is over and comes up a scan later.
  predicate ThreeHeld(c: Setup, taps: KeyPos -> bool, p: Event, q: Event, r: Event, ts: seq<nat>, b: Event, up: Event) {
    && c.term == 200 && taps(p.key) && taps(q.key) && taps(r.key) && !taps(b.key)
    && p.time == q.time == r.time == 1 && b.time == 201 && up.time == 211 && Timely(c, 1, ts)
    && Real(p) && Real(q) && Real(r) && Real(b) && Real(up)
    && p.pressed && q.pressed && r.pressed && b.pressed && !up.pressed && up.key == b.key
  }

  lemma ThreeWait(c: Setup, taps: KeyPos -> bool, p: Event, q: Event, r: Event, ts: seq<nat>, b: Event, up: Event)
    requires TapKeys(c, taps) && ThreeHeld(c, taps, p, q, r, ts, b, up)
    ensures Run(c, IDLE, [p, q, r] + Ticks(ts)) == State(Record(p, Tap(true, 0)), [Fresh(q), Fresh(r)], [Lookup(p)])
  {
    hide Step, Drain, ProcessTapping, Ticks;
    var s1 := State(Fresh(p), [], [Lookup(p)]);
    var s2 := State(Record(p, Tap(true, 0)), [Fresh(q)], [Lookup(p)]);
    var s3 := State(Record(p, Tap(true, 0)), [Fresh(q), Fresh(r)], [Lookup(p)]);
    FirstPress(c, [], p);
    assert [] + [Lookup(p)] == [Lookup(p)];
    SecondDown(c, s1, q);
    assert s1.buf + [Fresh(q)] == s2.buf;
    SecondDown(c, s2, r);
    assert s2.buf + [Fresh(r)] == s3.buf;
    RunTwo(c, IDLE, p, q);
    RunOne(c, s2, r);
    assert [p, q, r] == [p, q] + [r];
    RunConcat(c, IDLE, [p, q], [r]);
    QuietTicks(c, s3, ts);
    RunConcat(c, IDLE, [p, q, r], Ticks(ts));
  }

  // The order of one key's events is not kept either: the release of b finds
  // its press waiting on an idle machine and is processed first.
  lemma ReleaseFirst(c: Setup, taps: KeyPos -> bool, p: Event, q: Event, r: Event, ts: seq<nat>, b: Event, up: Event)
    requires TapKeys(c, taps) && ThreeHeld(c, taps, p, q, r, ts, b, up)
    ensures var s := Run(c, IDLE, [p, q, r] + Ticks(ts) + [b, Tick(201)]);
      Overtakes(c, s, up) && s == State(NO_RECORD, [Fresh(b)], Held3(p, q, r))
    ensures Run(c, IDLE, [p, q, r] + Ticks(ts) + [b, Tick(201)] + [up]) ==
            State(NO_RECORD, [],
                  Held3(p, q, r) + [Process(Fresh(up), false, false), Lookup(b), Process(Fresh(b), false, false)])
  {
    hide Step, Drain, ProcessTapping, Ticks;
    ThreeWait(c, taps, p, q, r, ts, b, up);
    var s3 := State(Record(p, Tap(true, 0)), [Fresh(q), Fresh(r)], [Lookup(p)]);
    var log4 := [Lookup(p), Process(s3.tk, false, false), Lookup(q)];
    var s4 := State(Record(q, Tap(true, 0)), [Fresh(r), Fresh(b)], log4);
    assert Step(c, s3, b) == s4 by {
      assert s3.buf == [Fresh(q)] + [Fresh(r)];
      Timeout(c, s3, q, [Fresh(r)], b);
      assert s3.log + [Process(s3.tk, false, false), Lookup(q)] == log4;
      StopsUndecided(c, q, r, [Fresh(b)], log4);
      assert [Fresh(r)] + [Fresh(b)] == s4.buf;
    }
    var s5 := State(NO_RECORD, [Fresh(b)], Held3(p, q, r));
    assert Step(c, s4, Tick(201)) == s5 by {
      assert s4.buf == [Fresh(r)] + [Fresh(b)];
      Timeout(c, s4, r, [Fresh(b)], Tick(201));
      var log5 := log4 + [Process(s4.tk, false, false), Lookup(r)];
      assert [Fresh(b)] + [] == [Fresh(b)];
      StopsIdle(c, r, b, log5);
      assert log5 + [Process(Fresh(r), false, false)] == Held3(p, q, r);
    }
    RunTwo(c, s3, b, Tick(201));
    RunConcat(c, IDLE, [p, q, r] + Ticks(ts), [b, Tick(201)]);
    GoesFirst(c, b, up, s5.log);
    assert s5.log + [] == s5.log;
    RunOne(c, s5, up);
    RunConcat(c, IDLE, [p, q, r] + Ticks(ts) + [b, Tick(201)], [up]);
    assert s5.buf[0].event == b;
  }
}
