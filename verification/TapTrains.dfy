// What the tap/hold machine delivers for a key tapped repeatedly or held.
module TapTrains {
  import opened KeyEvents
  import opened Tapping

  // One tap: a press, ticks while down, the release, ticks until the next.
  datatype Stroke = Stroke(down: nat, whileDown: seq<nat>, up: nat, after: seq<nat>)

  function Press(key: KeyPos, t: nat): Event { Event(key, true, t) }
  function Release(key: KeyPos, t: nat): Event { Event(key, false, t) }

  function TrainEvents(key: KeyPos, strokes: seq<Stroke>): seq<Event> {
    if strokes == [] then []
    else
      [Press(key, strokes[0].down)] + Ticks(strokes[0].whileDown)
      + [Release(key, strokes[0].up)] + Ticks(strokes[0].after) + TrainEvents(key, strokes[1..])
  }

  predicate RealKey(key: KeyPos) { key != KeyPos(255, 255) }

  // All of ts, and the event at t, come within the tapping term of `since`.
  predicate Timely(c: Setup, since: nat, ts: seq<nat>) {
    forall i :: 0 <= i < |ts| ==> Diff(ts[i], since) < c.term
  }

  predicate TimelyStroke(c: Setup, s: Stroke) {
    s.down != 0 && s.up != 0
    && Timely(c, s.down, s.whileDown + [s.up]) && Timely(c, s.up, s.after)
  }

  // Each release comes within the term of its press, each next press within
  // the term of the last release, and so do the ticks between.
  predicate TimelyTrain(c: Setup, strokes: seq<Stroke>) {
    && (forall i :: 0 <= i < |strokes| ==> TimelyStroke(c, strokes[i]))
    && (forall i :: 0 < i < |strokes| ==> Diff(strokes[i].down, strokes[i - 1].up) < c.term)
  }

  function Tagged(e: Event, n: nat): Call {
    Process(Record(e, Tap(false, if n <= MAX_TAPS then n else MAX_TAPS)), false, false)
  }

  // Press and release of the n-th tap and its successors, tagged with n, n+1, ...
  function Delivered(key: KeyPos, strokes: seq<Stroke>, n: nat): seq<Call> {
    if strokes == [] then []
    else
      [Tagged(Press(key, strokes[0].down), n), Tagged(Release(key, strokes[0].up), n)]
      + Delivered(key, strokes[1..], n + 1)
  }

  lemma {:induction false} RunConcat(c: Setup, s: State, a: seq<Event>, b: seq<Event>)
    ensures Run(c, s, a + b) == Run(c, Run(c, s, a), b)
    decreases |a|
  {
    hide Step;
    if a == [] {
      assert a + b == b;
    } else {
      assert (a + b)[1..] == a[1..] + b;
      RunConcat(c, Step(c, s, a[0]), a[1..], b);
    }
  }

  lemma RunOne(c: Setup, s: State, e: Event)
    ensures Run(c, s, [e]) == Step(c, s, e)
  {
    hide Step;
    assert Run(c, Step(c, s, e), [e][1..]) == Step(c, s, e);
  }

  lemma DrainEmpty(c: Setup, s: State)
    requires s.buf == []
    ensures Drain(c, s) == s
  {
  }

  // A tick within the term leaves an empty-queued machine as it is.
  lemma TimelyTick(c: Setup, s: State, t: nat)
    requires s.buf == [] && (s.tk == NO_RECORD || RealKey(s.tk.event.key))
    requires s.tk == NO_RECORD || Diff(t, s.tk.event.time) < c.term
    ensures Step(c, s, Tick(t)) == s
  {
    hide Diff;
  }

  lemma {:induction false} TimelyTicks(c: Setup, s: State, ts: seq<nat>)
    requires s.buf == [] && (s.tk == NO_RECORD || RealKey(s.tk.event.key))
    requires s.tk == NO_RECORD || Timely(c, s.tk.event.time, ts)
    ensures Run(c, s, Ticks(ts)) == s
    decreases |ts|
  {
    hide Step, Diff;
    if ts != [] {
      TimelyTick(c, s, ts[0]);
      assert Ticks(ts)[1..] == Ticks(ts[1..]);
      TimelyTicks(c, s, ts[1..]);
    }
  }

  // A tap key pressed on an idle machine is looked up and kept pending.
  lemma FirstPress(c: Setup, log: seq<Call>, e: Event)
    requires Real(e) && e.pressed && c.isTap(log, e)
    ensures Step(c, State(NO_RECORD, [], log), e) == State(Fresh(e), [], log + [Lookup(e)])
  {
    DrainEmpty(c, State(Fresh(e), [], log + [Lookup(e)]));
  }

  // Releasing the pending key in time delivers both events tagged 1.
  lemma FirstRelease(c: Setup, log: seq<Call>, p: Event, e: Event)
    requires Real(p) && p.pressed && Real(e) && !e.pressed && e.key == p.key
    requires Diff(e.time, p.time) < c.term
    ensures Step(c, State(Fresh(p), [], log), e) ==
            State(Record(e, Tap(false, 1)), [], log + [Tagged(p, 1), Tagged(e, 1)])
  {
    hide Diff;
    var one := Tap(false, 1);
    var s1 := State(Record(p, one), [], log + [Tagged(p, 1)]);
    assert ProcessTapping(c, State(Fresh(p), [], log), Fresh(e)) == Outcome(false, s1, Record(e, one));
    var s2 := s1.(buf := [Record(e, one)]);
    var s3 := State(Record(e, one), [Record(e, one)], s1.log + [Tagged(e, 1)]);
    assert ProcessTapping(c, s2, s2.buf[0]) == Outcome(true, s3, Record(e, one));
    assert Drain(c, s2) == Drain(c, s3.(buf := s3.buf[1..]));
    assert s3.buf[1..] == [];
    DrainEmpty(c, s3.(buf := []));
    assert [] + [Record(e, one)] == [Record(e, one)];
    assert Step(c, State(Fresh(p), [], log), e) == Drain(c, s2);
    assert s1.log + [Tagged(e, 1)] == log + [Tagged(p, 1), Tagged(e, 1)];
  }

  // Pressing the tapped key again in time counts one up, to 15 at most.
  lemma NextPress(c: Setup, log: seq<Call>, r: Event, n: nat, e: Event)
    requires 1 <= n && Real(r) && !r.pressed && Real(e) && e.pressed && e.key == r.key
    requires Diff(e.time, r.time) < c.term
    ensures Step(c, State(Tagged(r, n).rec, [], log), e) ==
            State(Tagged(e, n + 1).rec, [], log + [Tagged(e, n + 1)])
  {
    hide Diff;
    DrainEmpty(c, State(Tagged(e, n + 1).rec, [], log + [Tagged(e, n + 1)]));
  }

  lemma NextRelease(c: Setup, log: seq<Call>, p: Event, n: nat, e: Event)
    requires 1 <= n && Real(p) && p.pressed && Real(e) && !e.pressed && e.key == p.key
    requires Diff(e.time, p.time) < c.term
    ensures Step(c, State(Tagged(p, n).rec, [], log), e) ==
            State(Tagged(e, n).rec, [], log + [Tagged(e, n)])
  {
    hide Diff;
    DrainEmpty(c, State(Tagged(e, n).rec, [], log + [Tagged(e, n)]));
  }

  lemma TimelyParts(c: Setup, s: Stroke)
    requires TimelyStroke(c, s)
    ensures Timely(c, s.down, s.whileDown) && Diff(s.up, s.down) < c.term
  {
    var all := s.whileDown + [s.up];
    assert all[|s.whileDown|] == s.up;
    assert forall i :: 0 <= i < |s.whileDown| ==> all[i] == s.whileDown[i];
  }

  // The ticks, release and ticks that follow a press leave the key released
  // with the press's tag.
  lemma RestOfStroke(c: Setup, key: KeyPos, s: State, stroke: Stroke, n: nat, log: seq<Call>)
    requires RealKey(key) && TimelyStroke(c, stroke) && s.buf == []
    requires s.tk.event == Press(key, stroke.down)
    requires Step(c, s, Release(key, stroke.up)) == State(Tagged(Release(key, stroke.up), n).rec, [], log)
    ensures Run(c, s, Ticks(stroke.whileDown) + [Release(key, stroke.up)] + Ticks(stroke.after))
         == State(Tagged(Release(key, stroke.up), n).rec, [], log)
  {
    hide Step, Diff, Run;
    var up := Release(key, stroke.up);
    TimelyParts(c, stroke);
    TimelyTicks(c, s, stroke.whileDown);
    RunConcat(c, s, Ticks(stroke.whileDown), [up]);
    RunOne(c, s, up);
    var s' := State(Tagged(up, n).rec, [], log);
    RunConcat(c, s, Ticks(stroke.whileDown) + [up], Ticks(stroke.after));
    TimelyTicks(c, s', stroke.after);
  }

  lemma TrainUnfold(key: KeyPos, strokes: seq<Stroke>)
    requires strokes != []
    ensures TrainEvents(key, strokes) ==
            [Press(key, strokes[0].down)]
            + ((Ticks(strokes[0].whileDown) + [Release(key, strokes[0].up)] + Ticks(strokes[0].after))
               + TrainEvents(key, strokes[1..]))
  {
  }

  lemma RunStroke(c: Setup, s: State, down: Event, rest: seq<Event>, more: seq<Event>)
    ensures Run(c, s, [down] + (rest + more)) == Run(c, Run(c, Step(c, s, down), rest), more)
  {
    hide Run, Step;
    RunConcat(c, s, [down], rest + more);
    RunOne(c, s, down);
    RunConcat(c, Step(c, s, down), rest, more);
  }

  lemma TrainNone(key: KeyPos)
    ensures TrainEvents(key, []) == []
  {
  }

  lemma RunNone(c: Setup, s: State)
    ensures Run(c, s, []) == s
  {
  }

  lemma TrainTail(c: Setup, strokes: seq<Stroke>)
    requires TimelyTrain(c, strokes) && strokes != []
    ensures TimelyTrain(c, strokes[1..])
    ensures |strokes| > 1 ==> Diff(strokes[1].down, strokes[0].up) < c.term
  {
    hide TimelyStroke, Diff;
    var rest := strokes[1..];
    assert forall i :: 0 <= i < |rest| ==> rest[i] == strokes[i + 1];
    assert forall i :: 0 < i < |rest| ==> Diff(strokes[i + 1].down, strokes[i].up) < c.term;
  }

  // Further taps, from a key released with tag n.
  lemma DeliveredUnfold(log: seq<Call>, key: KeyPos, strokes: seq<Stroke>, n: nat)
    requires strokes != []
    ensures log + Delivered(key, strokes, n) ==
            log + [Tagged(Press(key, strokes[0].down), n)] + [Tagged(Release(key, strokes[0].up), n)]
            + Delivered(key, strokes[1..], n + 1)
  {
    hide Tagged;
  }

  lemma {:induction false} MoreTaps(c: Setup, key: KeyPos, up: nat, n: nat, log: seq<Call>, strokes: seq<Stroke>)
    requires RealKey(key) && up != 0 && 1 <= n && TimelyTrain(c, strokes)
    requires strokes != [] ==> Diff(strokes[0].down, up) < c.term
    ensures var s := State(Tagged(Release(key, up), n).rec, [], log);
      var s' := Run(c, s, TrainEvents(key, strokes));
      && s'.log == log + Delivered(key, strokes, n + 1) && s'.buf == []
      && s'.tk == Tagged(Release(key, if strokes == [] then up else strokes[|strokes| - 1].up),
                         n + |strokes|).rec
    decreases |strokes|
  {
    hide Step, Run, Diff, TrainEvents;
    var s := State(Tagged(Release(key, up), n).rec, [], log);
    if strokes == [] {
      TrainNone(key);
      RunNone(c, s);
      assert log + [] == log;
    } else {
      var st := strokes[0];
      var down, rel := Press(key, st.down), Release(key, st.up);
      NextPress(c, log, Release(key, up), n, down);
      var log1 := log + [Tagged(down, n + 1)];
      var s1 := State(Tagged(down, n + 1).rec, [], log1);
      TimelyParts(c, st);
      NextRelease(c, log1, down, n + 1, rel);
      var log2 := log1 + [Tagged(rel, n + 1)];
      RestOfStroke(c, key, s1, st, n + 1, log2);
      TrainUnfold(key, strokes);
      RunStroke(c, s, down, Ticks(st.whileDown) + [rel] + Ticks(st.after), TrainEvents(key, strokes[1..]));
      TrainTail(c, strokes);
      MoreTaps(c, key, st.up, n + 1, log2, strokes[1..]);
      DeliveredUnfold(log, key, strokes, n + 1);
    }
  }

  // n taps of a tap key on an idle machine deliver exactly n press/release
  // pairs, tagged 1, 2, ... and 15 from the fifteenth on.
  lemma {:induction false} TapTrain(c: Setup, key: KeyPos, log: seq<Call>, strokes: seq<Stroke>)
    requires RealKey(key) && strokes != [] && TimelyTrain(c, strokes)
    requires c.isTap(log, Press(key, strokes[0].down))
    ensures var s' := Run(c, State(NO_RECORD, [], log), TrainEvents(key, strokes));
      && s'.log == log + [Lookup(Press(key, strokes[0].down))] + Delivered(key, strokes, 1)
      && s'.buf == []
      && s'.tk == Tagged(Release(key, strokes[|strokes| - 1].up), |strokes|).rec
  {
    hide Step, Run, Diff, TrainEvents;
    var s := State(NO_RECORD, [], log);
    var st := strokes[0];
    var down, rel := Press(key, st.down), Release(key, st.up);
    FirstPress(c, log, down);
    var log1 := log + [Lookup(down)];
    var s1 := State(Fresh(down), [], log1);
    TimelyParts(c, st);
    FirstRelease(c, log1, down, rel);
    var log2 := log1 + [Tagged(down, 1), Tagged(rel, 1)];
    RestOfStroke(c, key, s1, st, 1, log2);
    TrainUnfold(key, strokes);
    RunStroke(c, s, down, Ticks(st.whileDown) + [rel] + Ticks(st.after), TrainEvents(key, strokes[1..]));
    TrainTail(c, strokes);
    MoreTaps(c, key, st.up, 1, log2, strokes[1..]);
    assert log2 + Delivered(key, strokes[1..], 2) == log1 + Delivered(key, strokes, 1);
  }

  // A tick past the term turns the pending key into a hold.
  lemma LateTick(c: Setup, log: seq<Call>, p: Event, t: nat)
    requires Real(p) && p.pressed && Diff(t, p.time) >= c.term
    ensures Step(c, State(Fresh(p), [], log), Tick(t)) == State(NO_RECORD, [], log + [Tagged(p, 0)])
  {
    hide Diff;
    DrainEmpty(c, State(NO_RECORD, [], log + [Tagged(p, 0)]));
  }

  lemma IdleRelease(c: Setup, log: seq<Call>, e: Event)
    requires Real(e) && !e.pressed
    ensures Step(c, State(NO_RECORD, [], log), e) == State(NO_RECORD, [], log + [Tagged(e, 0)])
  {
    DrainEmpty(c, State(NO_RECORD, [], log + [Tagged(e, 0)]));
  }

  lemma OrdinaryDown(c: Setup, log: seq<Call>, e: Event)
    requires Real(e) && e.pressed && !c.isTap(log, e)
    ensures Step(c, State(NO_RECORD, [], log), e) ==
            State(NO_RECORD, [], log + [Lookup(e)] + [Process(Fresh(e), false, false)])
  {
    hide Drain;
    DrainEmpty(c, State(NO_RECORD, [], log + [Lookup(e)] + [Process(Fresh(e), false, false)]));
  }

  // A tap key still down at the first tick past the term, released at any
  // later time, delivers one pair tagged 0.
  lemma {:induction false} Hold(c: Setup, key: KeyPos, log: seq<Call>,
                                down: nat, early: seq<nat>, late: nat, more: seq<nat>, up: nat)
    requires RealKey(key) && down != 0 && up != 0
    requires c.isTap(log, Press(key, down))
    requires Timely(c, down, early) && Diff(late, down) >= c.term
    ensures Run(c, State(NO_RECORD, [], log),
                [Press(key, down)] + (Ticks(early) + ([Tick(late)] + (Ticks(more) + [Release(key, up)]))))
         == State(NO_RECORD, [], log + [Lookup(Press(key, down)), Tagged(Press(key, down), 0),
                                        Tagged(Release(key, up), 0)])
  {
    hide Step, Run, Diff;
    var p, r := Press(key, down), Release(key, up);
    var s := State(NO_RECORD, [], log);
    FirstPress(c, log, p);
    var s1 := State(Fresh(p), [], log + [Lookup(p)]);
    var rest := [Tick(late)] + (Ticks(more) + [r]);
    RunStroke(c, s, p, Ticks(early), rest);
    TimelyTicks(c, s1, early);
    LateTick(c, s1.log, p, late);
    var s2 := State(NO_RECORD, [], s1.log + [Tagged(p, 0)]);
    RunStroke(c, s1, Tick(late), Ticks(more), [r]);
    TimelyTicks(c, s2, more);
    RunOne(c, s2, r);
    IdleRelease(c, s2.log, r);
    assert s2.log + [Tagged(r, 0)] == log + [Lookup(p), Tagged(p, 0), Tagged(r, 0)];
  }
}
