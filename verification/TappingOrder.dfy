// Order and progress of the tap/hold machine: the queue is first-in first-out,
// what may overtake it, and that late ticks empty it.
module TappingOrder {
  import opened KeyEvents
  import opened Tapping
  import opened TappingLedger

  ghost predicate SuffixOf(a: seq<Event>, b: seq<Event>) {
    |a| <= |b| && a == b[|b| - |a|..]
  }

  lemma {:induction false} DrainIsFifo(c: Setup, s: State)
    requires Inv(s)
    ensures SuffixOf(Events(Drain(c, s).buf), Events(s.buf))
    decreases |s.buf|
  {
    hide ProcessTapping;
    if s.buf != [] {
      var o := ProcessTapping(c, s, s.buf[0]);
      ProcessKeepsInv(c, s, s.buf[0]);
      if o.done {
        var s' := o.s.(buf := o.s.buf[1..]);
        DrainIsFifo(c, s');
        assert Events(s'.buf) == Events(s.buf)[1..];
      } else {
        assert Events(Drain(c, s).buf) == Events(s.buf);
      }
    }
  }

  // Waiting events leave in insertion order: what waits after a step is the
  // tail end of what waited before, the submitted event last if it had to wait.
  lemma WaitingIsFifo(c: Setup, s: State, e: Event)
    requires Inv(s) && Input(e)
    ensures SuffixOf(Events(Step(c, s, e).buf), Events(s.buf))
         || (Real(e) && SuffixOf(Events(Step(c, s, e).buf), Events(s.buf) + [e]))
  {
    hide ProcessTapping, Drain, Pending, Occurs, Settled;
    var o := ProcessTapping(c, s, Fresh(e));
    ProcessKeepsInv(c, s, Fresh(e));
    if o.done || NoEvent(e) {
      DrainIsFifo(c, o.s);
    } else {
      EnqueueAccounts(o.s, o.rec, e);
      DrainIsFifo(c, Enqueue(o.s, o.rec));
      assert |s.buf| < CAPACITY ==> Events(o.s.buf + [o.rec]) == Events(s.buf) + [e];
    }
  }

  // While a tap key is down and undecided, the one record processed ahead of
  // the queue is a release whose key has no opposite event waiting; everything
  // else waits, and only the undecided key itself can be processed.
  lemma OnlyStrayReleasesOvertake(c: Setup, s: State, k: Record)
    requires Inv(s) && CanEnter(k)
    requires TkPressed(s) && s.tk.tap.count == 0 && Within(c, k.event, s.tk)
    ensures var o := ProcessTapping(c, s, k);
      && (o.done ==>
            && Real(k.event) && !k.event.pressed && !Typed(s.buf, k.event)
            && o.s == s.(log := s.log + [Lookup(k.event), Process(k, false, false)]))
      && (!o.done ==>
            && Events(o.s.buf) == Events(s.buf)
            && forall x :: x != s.tk.event ==> Settled(o.s.log, x) == Settled(s.log, x))
  {
    hide Settled, Typed, Diff;
    var o := ProcessTapping(c, s, k);
    assert s.log + [Lookup(k.event)] + [Process(k, false, false)] ==
           s.log + [Lookup(k.event), Process(k, false, false)];
    if !o.done {
      forall x | x != s.tk.event
        ensures Settled(o.s.log, x) == Settled(s.log, x)
      {
        ActSettles(c, s.log, s.tk.(tap := s.tk.tap.(count := 1)), x);
        ActSettles(c, s.log, s.tk, x);
        SettledSnoc(s.log, Lookup(k.event), x);
      }
    }
  }

  // A tick at least the tapping term after the tapping key's event.
  predicate Late(c: Setup, s: State, t: nat) {
    t != 0 && (s.tk == NO_RECORD || Diff(t, s.tk.event.time) >= c.term)
  }

  predicate AllLate(c: Setup, s: State, ts: seq<nat>)
    decreases |ts|
  {
    ts != [] ==> Late(c, s, ts[0]) && AllLate(c, Step(c, s, Tick(ts[0])), ts[1..])
  }

  // No key is waiting for a decision.
  predicate Decided(s: State) {
    s.tk == NO_RECORD || (TkPressed(s) && s.tk.tap.count > 0)
  }

  lemma LateTickDecides(c: Setup, s: State, t: nat)
    requires Inv(s) && Late(c, s, t)
    ensures var o := ProcessTapping(c, s, Fresh(Tick(t))); Decided(o.s) && o.s.buf == s.buf
  {
  }

  lemma DecidedConsumes(c: Setup, s: State, k: Record)
    requires Inv(s) && Decided(s)
    ensures ProcessTapping(c, s, k).done
  {
  }

  lemma DrainShrinks(c: Setup, s: State)
    requires Inv(s)
    ensures |Drain(c, s).buf| <= |s.buf|
  {
    DrainIsFifo(c, s);
  }

  lemma LateTickShrinks(c: Setup, s: State, t: nat)
    requires Inv(s) && Late(c, s, t)
    ensures var s' := Step(c, s, Tick(t));
      Inv(s') && (if s.buf != [] then |s'.buf| < |s.buf| else s'.buf == [] && Pending(s') == [])
  {
    hide ProcessTapping, Drain;
    var k := Fresh(Tick(t));
    var o := ProcessTapping(c, s, k);
    LateTickDecides(c, s, t);
    StepAccounts(c, s, Tick(t), Tick(t));
    ProcessKeepsInv(c, s, k);
    DrainUnfold(c, o.s);
    if s.buf != [] {
      DecidedConsumes(c, o.s, o.s.buf[0]);
      var o' := ProcessTapping(c, o.s, o.s.buf[0]);
      ProcessKeepsInv(c, o.s, o.s.buf[0]);
      DrainShrinks(c, o'.s.(buf := o'.s.buf[1..]));
    }
  }

  lemma DrainUnfold(c: Setup, s: State)
    ensures s.buf == [] ==> Drain(c, s) == s
    ensures s.buf != [] && ProcessTapping(c, s, s.buf[0]).done ==>
              |ProcessTapping(c, s, s.buf[0]).s.buf| == |s.buf|
              && Drain(c, s) == Drain(c, ProcessTapping(c, s, s.buf[0]).s.(
                   buf := ProcessTapping(c, s, s.buf[0]).s.buf[1..]))
  {
    hide ProcessTapping;
    if s.buf != [] {
      KeepsLength(c, s, s.buf[0]);
    }
  }

  // Each late tick takes at least one record off the queue, so as many of them
  // as there are records (never more than seven) empty it, and one more leaves
  // no press undecided.
  lemma {:induction false} LateTicksSettle(c: Setup, s: State, ts: seq<nat>)
    requires Inv(s) && AllLate(c, s, ts)
    ensures |ts| >= |s.buf| ==> Run(c, s, Ticks(ts)).buf == []
    ensures |ts| > |s.buf| ==> Run(c, s, Ticks(ts)).buf == [] && Pending(Run(c, s, Ticks(ts))) == []
    decreases |ts|
  {
    hide Step;
    if ts != [] {
      var s' := Step(c, s, Tick(ts[0]));
      LateTickShrinks(c, s, ts[0]);
      assert Ticks(ts)[0] == Tick(ts[0]) && Ticks(ts)[1..] == Ticks(ts[1..]);
      LateTicksSettle(c, s', ts[1..]);
      if |ts| == 1 {
        assert Run(c, s', Ticks(ts[1..])) == s';
      }
    }
  }

  // The release of a key pressed before the undecided one.
  predicate Stray(c: Setup, s: State, e: Event) {
    !e.pressed && e.key != s.tk.event.key && !Typed(s.buf, e) && !c.keepsMods(s.log, Fresh(e))
  }

  // A new event is taken at once, ahead of waiting ones, if the machine is idle
  // or settled on a key that is down, was released in time, or is undecided
  // within its term and the event is a stray release.
  predicate GoesAhead(c: Setup, s: State, e: Event) {
    || !Real(s.tk.event)
    || (s.tk.event.pressed && s.tk.tap.count > 0)
    || (Within(c, e, s.tk) && (s.tk.event.pressed ==> Stray(c, s, e)))
  }

  lemma GoesAheadIff(c: Setup, s: State, e: Event)
    requires Inv(s) && Real(e)
    ensures ProcessTapping(c, s, Fresh(e)).done <==> GoesAhead(c, s, e)
  {
    hide ScanTap, Diff;
  }
}
