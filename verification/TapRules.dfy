// The remaining rules of the tap/hold machine, each as what it delivers: tapped
// keys held on, tap keys that follow each other, taps already waiting, modifiers
// kept back, and keys typed while a long term runs.
module TapRules {
  import opened KeyEvents
  import opened Tapping
  import opened TappingOrder
  import opened TapTrains
  import opened TapGaps
  import opened Overtaking

  // ----- A tapped key that is still down -----

  // Another key's event is handed on as it comes, however long the tapped key
  // has been down.
  lemma OthersPassTap(c: Setup, key: KeyPos, t: nat, n: nat, log: seq<Call>, e: Event)
    requires RealKey(key) && t != 0 && n >= 1 && Bystander(key, e) && NeverTap(c, e)
    ensures Step(c, State(Tagged(Press(key, t), n).rec, [], log), e) ==
            State(Tagged(Press(key, t), n).rec, [],
                  log + if Real(e) then [Lookup(e), Process(Fresh(e), false, false)] else [])
  {
    hide Diff;
    var calls := if Real(e) then [Lookup(e), Process(Fresh(e), false, false)] else [];
    DrainEmpty(c, State(Tagged(Press(key, t), n).rec, [], log + calls));
    assert log + [Lookup(e)] + [Process(Fresh(e), false, false)] ==
           log + [Lookup(e), Process(Fresh(e), false, false)];
    assert log + [] == log;
  }

  // Its release past the term carries the same tag and ends the sequence.
  lemma LateRelease(c: Setup, key: KeyPos, t: nat, n: nat, log: seq<Call>, u: nat)
    requires RealKey(key) && t != 0 && u != 0 && n >= 1 && Diff(u, t) >= c.term
    ensures Step(c, State(Tagged(Press(key, t), n).rec, [], log), Release(key, u)) ==
            State(NO_RECORD, [], log + [Tagged(Release(key, u), n)])
  {
    hide Diff;
    DrainEmpty(c, State(NO_RECORD, [], log + [Tagged(Release(key, u), n)]));
  }

  // Another tap key takes over: from the second tap on the tapped key is
  // released first, with the tag of its press.
  lemma TakenOver(c: Setup, key: KeyPos, t: nat, n: nat, log: seq<Call>, y: Event)
    requires RealKey(key) && t != 0 && n >= 1 && Real(y) && y.pressed && y.key != key && c.isTap(log, y)
    ensures Step(c, State(Tagged(Press(key, t), n).rec, [], log), y) ==
            State(Fresh(y), [], log + [Lookup(y)] +
                  if n > 1 then [Process(Tagged(Release(key, y.time), n).rec, true, false)] else [])
  {
    hide Diff;
    var invented := if n > 1 then [Process(Tagged(Release(key, y.time), n).rec, true, false)] else [];
    DrainEmpty(c, State(Fresh(y), [], log + [Lookup(y)] + invented));
    assert log + [Lookup(y)] + [] == log + [Lookup(y)];
  }

  // ----- A tap key that has been released -----

  // Another tap key pressed in time starts a sequence of its own.
  lemma NextTapKey(c: Setup, key: KeyPos, up: nat, n: nat, pressed: bool, log: seq<Call>, y: Event)
    requires RealKey(key) && up != 0 && n >= 1 && Real(y) && y.pressed && y.key != key && c.isTap(log, y)
    requires Diff(y.time, up) < c.term
    ensures Step(c, After(key, up, n, pressed, log), y) == State(Fresh(y), [], log + [Lookup(y)])
  {
    hide Diff;
    DrainEmpty(c, State(Fresh(y), [], log + [Lookup(y)]));
  }

  // Once the term is over the sequence is: the key starts over, like any other
  // tap key, and an ordinary key or a release is handed on.
  lemma Forgotten(c: Setup, key: KeyPos, up: nat, n: nat, pressed: bool, log: seq<Call>, e: Event)
    requires RealKey(key) && up != 0 && n >= 1 && Real(e) && Diff(e.time, up) >= c.term
    ensures Step(c, After(key, up, n, pressed, log), e) ==
            if e.pressed && c.isTap(log, e) then State(Fresh(e), [], log + [Lookup(e)])
            else State(NO_RECORD, [], log + PassedOne(e))
  {
    hide Diff;
    var s := After(key, up, n, pressed, log);
    var t := State(NO_RECORD, [Fresh(e)], log);
    assert ProcessTapping(c, s, Fresh(e)) == Outcome(false, s.(tk := NO_RECORD), Fresh(e));
    assert [] + [Fresh(e)] == [Fresh(e)];
    assert Step(c, s, e) == Drain(c, t);
    assert log + [Lookup(e)] + [Process(Fresh(e), false, false)] ==
           log + [Lookup(e), Process(Fresh(e), false, false)];
    var u := if e.pressed && c.isTap(log, e) then State(Fresh(e), [Fresh(e)], log + [Lookup(e)])
             else State(NO_RECORD, [Fresh(e)], log + PassedOne(e));
    if e.pressed && c.isTap(log, e) {
      NothingToScan(c, u);
    }
    assert ProcessTapping(c, t, Fresh(e)) == Outcome(true, u, Fresh(e));
    DrainUnfold(c, t);
    assert u.buf[1..] == [];
    DrainEmpty(c, u.(buf := []));
  }

  // ----- A tap key that is undecided -----

  // An ordinary key typed meanwhile decides for a hold exactly if the term is
  // 500 or more; with a shorter one press and release wait.
  lemma TypedThrough(c: Setup, p: Event, log: seq<Call>, q: Event, q': Event)
    requires Real(p) && p.pressed && Real(q) && Real(q') && q.pressed && !q'.pressed && q.key == q'.key != p.key
    requires NeverTap(c, q) && Within(c, q, Fresh(p)) && Within(c, q', Fresh(p))
    ensures Run(c, State(Fresh(p), [], log), [q, q']) ==
            var tk := Record(p, Tap(true, 0));
            if c.term >= 500
            then State(NO_RECORD, [], log + [Process(tk, false, false)] + PassedOne(q) + PassedOne(q'))
            else State(tk, [Fresh(q), Fresh(q')], log)
  {
    hide Step, Diff;
    var tk := Record(p, Tap(true, 0));
    SecondDown(c, State(Fresh(p), [], log), q);
    assert [] + [Fresh(q)] == [Fresh(q)];
    RunTwo(c, State(Fresh(p), [], log), q, q');
    TypedRelease(c, tk, log, q, q');
  }

  lemma TypedRelease(c: Setup, tk: Record, log: seq<Call>, q: Event, q': Event)
    requires Real(tk.event) && tk.event.pressed && tk.tap == Tap(true, 0)
    requires Real(q) && Real(q') && q.pressed && !q'.pressed && q.key == q'.key != tk.event.key
    requires NeverTap(c, q) && Within(c, q, tk) && Within(c, q', tk)
    ensures Step(c, State(tk, [Fresh(q)], log), q') ==
            if c.term >= 500
            then State(NO_RECORD, [], log + [Process(tk, false, false)] + PassedOne(q) + PassedOne(q'))
            else State(tk, [Fresh(q), Fresh(q')], log)
  {
    hide Diff, Drain;
    var s := State(tk, [Fresh(q)], log);
    assert s.buf[0].event.key == q'.key && s.buf[0].event.pressed != q'.pressed;
    assert [Fresh(q)] + [Fresh(q')] == [Fresh(q), Fresh(q')];
    if c.term >= 500 {
      var log1 := log + [Process(tk, false, false)];
      assert ProcessTapping(c, s, Fresh(q')) == Outcome(false, State(NO_RECORD, s.buf, log1), Fresh(q'));
      IdleDrains(c, log1, q, q');
    } else {
      var t := State(tk, [Fresh(q), Fresh(q')], log);
      assert ProcessTapping(c, s, Fresh(q')) == Outcome(false, s, Fresh(q'));
      assert ProcessTapping(c, t, Fresh(q)) == Outcome(false, t, Fresh(q));
      assert t.buf[0 := Fresh(q)] == t.buf;
      DrainStops(c, t);
    }
  }

  lemma DrainStops(c: Setup, s: State)
    requires s.buf != [] && ProcessTapping(c, s, s.buf[0]) == Outcome(false, s, s.buf[0])
    ensures Drain(c, s) == s
  {
    hide ProcessTapping;
    assert s.buf[0 := s.buf[0]] == s.buf;
  }

  // An ordinary key's press and release waiting on an idle machine.
  lemma IdleDrains(c: Setup, log: seq<Call>, q: Event, q': Event)
    requires Real(q) && Real(q') && q.pressed && !q'.pressed && NeverTap(c, q)
    ensures Drain(c, State(NO_RECORD, [Fresh(q), Fresh(q')], log)) ==
            State(NO_RECORD, [], log + PassedOne(q) + PassedOne(q'))
  {
    hide Diff;
    var s := State(NO_RECORD, [Fresh(q), Fresh(q')], log);
    var log1 := log + PassedOne(q);
    assert log + [Lookup(q)] + [Process(Fresh(q), false, false)] == log1;
    assert ProcessTapping(c, s, Fresh(q)) == Outcome(true, State(NO_RECORD, s.buf, log1), Fresh(q));
    DrainUnfold(c, s);
    assert s.buf[1..] == [Fresh(q')];
    IdleDrainsOne(c, log1, q');
  }

  lemma IdleDrainsOne(c: Setup, log: seq<Call>, q': Event)
    requires Real(q') && !q'.pressed
    ensures Drain(c, State(NO_RECORD, [Fresh(q')], log)) == State(NO_RECORD, [], log + PassedOne(q'))
  {
    hide Diff;
    var s := State(NO_RECORD, [Fresh(q')], log);
    assert ProcessTapping(c, s, Fresh(q')) == Outcome(true, State(NO_RECORD, s.buf, log + PassedOne(q')), Fresh(q'));
    DrainUnfold(c, s);
    assert s.buf[1..] == [];
    DrainEmpty(c, State(NO_RECORD, [], log + PassedOne(q')));
  }

  // A release the action layer keeps back, that of a modifier, comes after the
  // undecided key's hold.
  lemma ModifierKept(c: Setup, p: Event, log: seq<Call>, e: Event, late: nat)
    requires Real(p) && p.pressed && Real(e) && !e.pressed && e.key != p.key && Within(c, e, Fresh(p)) && late != 0
    requires (forall l :: c.keepsMods(l, Fresh(e))) && Diff(late, p.time) >= c.term
    ensures Run(c, State(Fresh(p), [], log), [e, Tick(late)]) ==
            State(NO_RECORD, [], log + [Lookup(e), Lookup(e)] + [Tagged(p, 0)] + [Tagged(e, 0)])
  {
    hide Step, Diff;
    var log2 := log + [Lookup(e), Lookup(e)];
    KeptWaits(c, p, log, e);
    KeptComes(c, p, log2, e, late);
    RunTwo(c, State(Fresh(p), [], log), e, Tick(late));
  }

  lemma KeptWaits(c: Setup, p: Event, log: seq<Call>, e: Event)
    requires Real(p) && p.pressed && Real(e) && !e.pressed && e.key != p.key && Within(c, e, Fresh(p))
    requires forall l :: c.keepsMods(l, Fresh(e))
    ensures Step(c, State(Fresh(p), [], log), e) == State(Fresh(p), [Fresh(e)], log + [Lookup(e), Lookup(e)])
  {
    hide Diff, Drain;
    var log1 := log + [Lookup(e)];
    var s, s1 := State(Fresh(p), [], log), State(Fresh(p), [Fresh(e)], log + [Lookup(e), Lookup(e)]);
    var t := State(Fresh(p), [Fresh(e)], log1);
    assert log1 + [Lookup(e)] == s1.log;
    assert ProcessTapping(c, s, Fresh(e)) == Outcome(false, s.(log := log1), Fresh(e));
    assert [] + [Fresh(e)] == [Fresh(e)];
    assert ProcessTapping(c, t, Fresh(e)) == Outcome(false, s1, Fresh(e));
    KeptDrain(c, t, s1);
  }

  lemma KeptComes(c: Setup, p: Event, log: seq<Call>, e: Event, late: nat)
    requires Real(p) && p.pressed && Real(e) && !e.pressed && late != 0 && Diff(late, p.time) >= c.term
    ensures Step(c, State(Fresh(p), [Fresh(e)], log), Tick(late)) ==
            State(NO_RECORD, [], log + [Tagged(p, 0)] + [Tagged(e, 0)])
  {
    hide Diff, Drain;
    var s, s2 := State(Fresh(p), [Fresh(e)], log), State(NO_RECORD, [Fresh(e)], log + [Tagged(p, 0)]);
    assert ProcessTapping(c, s, Fresh(Tick(late))) == Outcome(false, s2, Fresh(Tick(late)));
    IdleDrainsOne(c, s2.log, e);
  }

  lemma KeptDrain(c: Setup, s: State, s': State)
    requires s.buf != [] && ProcessTapping(c, s, s.buf[0]) == Outcome(false, s', s.buf[0]) && s'.buf == s.buf
    ensures Drain(c, s) == s'
  {
    hide ProcessTapping;
    assert s'.buf[0 := s.buf[0]] == s'.buf;
  }

  // ----- A tap that waits already -----

  // Tap keys p and q go down, an ordinary key r, and q comes up in its term.  When
  // p's term ends q is a tap at once, ahead of r.
  lemma WaitingTap(c: Setup, p: Event, log: seq<Call>, q: Event, r: Event, q': Event, late: nat)
    requires Real(p) && Real(q) && Real(r) && Real(q') && p.pressed && q.pressed && r.pressed && !q'.pressed
    requires q'.key == q.key && p.key != q.key && p.key != r.key && q.key != r.key && late != 0
    requires c.term < 500 && (forall l :: c.isTap(l, q)) && NeverTap(c, r)
    requires Within(c, q, Fresh(p)) && Within(c, r, Fresh(p)) && Within(c, q', Fresh(p)) && Within(c, q', Fresh(q))
    requires Diff(late, p.time) >= c.term
    ensures Run(c, State(Fresh(p), [], log), [q, r] + [q', Tick(late)]) ==
            State(Tagged(q', 1).rec, [],
                  log + [Process(Record(p, Tap(true, 0)), false, false), Lookup(q), Tagged(q, 1)]
                  + [Lookup(r), Process(Fresh(r), false, false)] + [Tagged(q', 1)])
  {
    hide Step, Diff;
    var tk := Record(p, Tap(true, 0));
    SecondDown(c, State(Fresh(p), [], log), q);
    assert [] + [Fresh(q)] == [Fresh(q)];
    SecondDown(c, State(tk, [Fresh(q)], log), r);
    assert [Fresh(q)] + [Fresh(r)] == [Fresh(q), Fresh(r)];
    WaitsToo(c, tk, log, q, r, q');
    WaitingDrains(c, tk, log, q, r, q', late);
    RunTwo(c, State(Fresh(p), [], log), q, r);
    RunTwo(c, State(tk, [Fresh(q), Fresh(r)], log), q', Tick(late));
    RunConcat(c, State(Fresh(p), [], log), [q, r], [q', Tick(late)]);
  }

  lemma WaitsToo(c: Setup, tk: Record, log: seq<Call>, q: Event, r: Event, q': Event)
    requires Real(tk.event) && tk.event.pressed && tk.tap == Tap(true, 0) && c.term < 500
    requires q.pressed && !q'.pressed && Real(q') && q.key == q'.key != tk.event.key
    requires Within(c, q, tk) && Within(c, q', tk)
    ensures Step(c, State(tk, [Fresh(q), Fresh(r)], log), q') == State(tk, [Fresh(q), Fresh(r), Fresh(q')], log)
  {
    hide Diff, Drain;
    var s := State(tk, [Fresh(q), Fresh(r)], log);
    var t := State(tk, [Fresh(q), Fresh(r), Fresh(q')], log);
    assert s.buf[0].event.key == q'.key && s.buf[0].event.pressed != q'.pressed;
    assert ProcessTapping(c, s, Fresh(q')) == Outcome(false, s, Fresh(q'));
    assert s.buf + [Fresh(q')] == t.buf;
    assert ProcessTapping(c, t, Fresh(q)) == Outcome(false, t, Fresh(q));
    DrainStops(c, t);
  }

  lemma WaitingDrains(c: Setup, tk: Record, log: seq<Call>, q: Event, r: Event, q': Event, late: nat)
    requires Real(tk.event) && tk.event.pressed && tk.tap == Tap(true, 0) && Diff(late, tk.event.time) >= c.term
    requires Real(q) && Real(r) && Real(q') && q.pressed && r.pressed && !q'.pressed && q'.key == q.key != r.key
    requires (forall l :: c.isTap(l, q)) && NeverTap(c, r) && Within(c, q', Fresh(q))
    ensures Step(c, State(tk, [Fresh(q), Fresh(r), Fresh(q')], log), Tick(late)) ==
            State(Tagged(q', 1).rec, [],
                  log + [Process(tk, false, false), Lookup(q), Tagged(q, 1)]
                  + [Lookup(r), Process(Fresh(r), false, false)] + [Tagged(q', 1)])
  {
    hide Diff, Drain;
    var one := Tap(false, 1);
    var s := State(tk, [Fresh(q), Fresh(r), Fresh(q')], log);
    var log1 := log + [Process(tk, false, false)];
    var log2 := log + [Process(tk, false, false), Lookup(q), Tagged(q, 1)];
    var s1 := State(NO_RECORD, s.buf, log1);
    assert ProcessTapping(c, s, Fresh(Tick(late))) == Outcome(false, s1, Fresh(Tick(late)));
    var buf := [Fresh(q), Fresh(r), Record(q', one)];
    assert ProcessTapping(c, s1, Fresh(q)) == Outcome(true, State(Record(q, one), buf, log2), Fresh(q)) by {
      ScansToThird(c, q, r, q', log1 + [Lookup(q)]);
      assert log1 + [Lookup(q)] + [Tagged(q, 1)] == log2;
    }
    DrainUnfold(c, s1);
    assert buf[1..] == [Fresh(r), Record(q', one)];
    TapDrains(c, q, r, q', log2);
  }

  // So it is when the turn comes after another key's tap, or while that key is
  // still down; the other key is released first if it had been tapped twice.
  lemma WaitingTapNext(c: Setup, p: Record, log: seq<Call>, q: Event, r: Event, q': Event)
    requires Real(p.event) && 1 <= p.tap.count <= MAX_TAPS && (p.event.pressed || Within(c, q, p))
    requires Real(q) && Real(r) && Real(q') && q.pressed && r.pressed && !q'.pressed
    requires q'.key == q.key && p.event.key != q.key && q.key != r.key && Within(c, q', Fresh(q))
    requires (forall l :: c.isTap(l, q)) && NeverTap(c, r)
    ensures Drain(c, State(p, [Fresh(q), Fresh(r), Fresh(q')], log)) ==
            State(Tagged(q', 1).rec, [],
                  log + [Lookup(q)] + (if p.event.pressed && p.tap.count > 1 then [Invented(p, q)] else [])
                  + [Tagged(q, 1)] + [Lookup(r), Process(Fresh(r), false, false)] + [Tagged(q', 1)])
  {
    hide Diff, Drain;
    var one := Tap(false, 1);
    var s := State(p, [Fresh(q), Fresh(r), Fresh(q')], log);
    var log1 := log + [Lookup(q)] + if p.event.pressed && p.tap.count > 1 then [Invented(p, q)] else [];
    var buf := [Fresh(q), Fresh(r), Record(q', one)];
    assert log + [Lookup(q)] + [] == log + [Lookup(q)];
    var s1 := State(Record(q, one), buf, log1 + [Tagged(q, 1)]);
    assert ProcessTapping(c, s, Fresh(q)) == Outcome(true, s1, Fresh(q)) by {
      ScansToThird(c, q, r, q', log1);
    }
    DrainUnfold(c, s);
    assert buf[1..] == [Fresh(r), Record(q', one)];
    TapDrains(c, q, r, q', log1 + [Tagged(q, 1)]);
  }

  lemma ScansToThird(c: Setup, q: Event, r: Event, q': Event, log: seq<Call>)
    requires Real(q) && q.pressed && r.pressed && !q'.pressed && q'.key == q.key && Within(c, q', Fresh(q))
    ensures ScanTap(c, State(Fresh(q), [Fresh(q), Fresh(r), Fresh(q')], log)) ==
            State(Record(q, Tap(false, 1)), [Fresh(q), Fresh(r), Record(q', Tap(false, 1))], log + [Tagged(q, 1)])
  {
    hide Diff;
    var buf := [Fresh(q), Fresh(r), Fresh(q')];
    assert buf[1..] == [Fresh(r), Fresh(q')] && buf[1..][1..] == [Fresh(q')];
    assert FindRelease(c, Fresh(q), [Fresh(q')]) == 0;
    assert FindRelease(c, Fresh(q), buf[1..]) == 1;
    assert FindRelease(c, Fresh(q), buf) == 2;
  }

  lemma TapDrains(c: Setup, q: Event, r: Event, q': Event, log: seq<Call>)
    requires Real(q) && Real(r) && Real(q') && q.pressed && r.pressed && !q'.pressed && q'.key == q.key != r.key
    requires NeverTap(c, r) && Within(c, q', Fresh(q))
    ensures Drain(c, State(Record(q, Tap(false, 1)), [Fresh(r), Record(q', Tap(false, 1))], log)) ==
            State(Tagged(q', 1).rec, [],
                  log + [Lookup(r), Process(Fresh(r), false, false)] + [Tagged(q', 1)])
  {
    hide Diff;
    var one := Tap(false, 1);
    var s := State(Record(q, one), [Fresh(r), Record(q', one)], log);
    var log1 := log + [Lookup(r), Process(Fresh(r), false, false)];
    assert log + [Lookup(r)] + [Process(Fresh(r), false, false)] == log1;
    assert ProcessTapping(c, s, Fresh(r)) == Outcome(true, s.(log := log1), Fresh(r));
    DrainUnfold(c, s);
    assert s.buf[1..] == [Record(q', one)];
    var t := State(Record(q, one), [Record(q', one)], log1);
    var u := State(Record(q', one), t.buf, log1 + [Tagged(q', 1)]);
    assert ProcessTapping(c, t, Record(q', one)) == Outcome(true, u, Record(q', one));
    DrainUnfold(c, t);
    assert t.buf[1..] == [];
    DrainEmpty(c, u.(buf := []));
  }
}
