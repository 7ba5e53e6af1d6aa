// What other keys do to a tap sequence: taps of a tap key with ordinary keys
// pressed and released between them.
module TapGaps {
  import opened KeyEvents
  import opened Tapping
  import opened TapTrains

  // A tick, or an event of a key that is not `key` and never a tap key.
  predicate Bystander(key: KeyPos, e: Event) {
    e.time != 0 && e.key != key && (NoEvent(e) ==> !e.pressed)
  }

  ghost predicate NeverTap(c: Setup, e: Event) { forall log :: !c.isTap(log, e) }

  ghost predicate Gap(c: Setup, key: KeyPos, since: nat, es: seq<Event>) {
    forall i :: 0 <= i < |es| ==>
      Bystander(key, es[i]) && NeverTap(c, es[i]) && Diff(es[i].time, since) < c.term
  }

  predicate HasPress(es: seq<Event>) { exists i :: 0 <= i < |es| && es[i].pressed }

  // Each is handed to the action layer as it comes, untagged.
  function Passed(es: seq<Event>): seq<Call> {
    if es == [] then [] else Passed(es[..|es| - 1]) + PassedOne(es[|es| - 1])
  }

  function PassedOne(e: Event): seq<Call> {
    if NoEvent(e) then []
    else if e.pressed then [Lookup(e), Process(Fresh(e), false, false)]
    else [Process(Fresh(e), false, false)]
  }

  // key has been released with tag n, and other keys have been pressed since or
  // not.
  function After(key: KeyPos, up: nat, n: nat, pressed: bool, log: seq<Call>): State {
    State(Record(Release(key, up), Tap(pressed, Tagged(Release(key, up), n).rec.tap.count)), [], log)
  }

  lemma Bystands(c: Setup, key: KeyPos, up: nat, n: nat, pressed: bool, log: seq<Call>, e: Event)
    requires RealKey(key) && up != 0 && n >= 1 && Bystander(key, e) && NeverTap(c, e) && Diff(e.time, up) < c.term
    ensures Step(c, After(key, up, n, pressed, log), e) ==
            After(key, up, n, pressed || e.pressed, log + PassedOne(e))
  {
    hide Diff;
    DrainEmpty(c, After(key, up, n, pressed || e.pressed, log + PassedOne(e)));
    assert log + [Lookup(e)] + [Process(Fresh(e), false, false)] ==
           log + [Lookup(e), Process(Fresh(e), false, false)];
    assert log + [] == log;
  }

  lemma GapFront(c: Setup, key: KeyPos, since: nat, es: seq<Event>)
    requires Gap(c, key, since, es) && es != []
    ensures Gap(c, key, since, es[..|es| - 1])
    ensures HasPress(es) <==> HasPress(es[..|es| - 1]) || es[|es| - 1].pressed
  {
    hide Diff;
    if HasPress(es) {
      var i :| 0 <= i < |es| && es[i].pressed;
      assert i < |es| - 1 ==> es[..|es| - 1][i].pressed;
    }
  }

  lemma {:induction false} GapRuns(c: Setup, key: KeyPos, up: nat, n: nat, log: seq<Call>, es: seq<Event>)
    requires RealKey(key) && up != 0 && n >= 1 && Gap(c, key, up, es)
    ensures Run(c, After(key, up, n, false, log), es) == After(key, up, n, HasPress(es), log + Passed(es))
    decreases |es|
  {
    hide Step, Diff, Gap, HasPress, NeverTap, Bystander, After;
    if es == [] {
      RunNone(c, After(key, up, n, false, log));
      NoPress();
      assert log + [] == log;
    } else {
      var front, e := es[..|es| - 1], es[|es| - 1];
      GapFront(c, key, up, es);
      GapRuns(c, key, up, n, log, front);
      GapLast(c, key, up, es);
      Bystands(c, key, up, n, HasPress(front), log + Passed(front), e);
      assert es == front + [e];
      RunConcat(c, After(key, up, n, false, log), front, [e]);
      RunOne(c, After(key, up, n, HasPress(front), log + Passed(front)), e);
      assert log + Passed(front) + PassedOne(e) == log + Passed(es);
    }
  }

  lemma NoPress()
    ensures !HasPress([])
  {
  }

  lemma GapLast(c: Setup, key: KeyPos, since: nat, es: seq<Event>)
    requires Gap(c, key, since, es) && es != []
    ensures var e := es[|es| - 1]; Bystander(key, e) && NeverTap(c, e) && Diff(e.time, since) < c.term
  {
  }

  // After an uninterrupted n-th tap the next press counts one up; after an
  // interrupted one it is kept back, as the first of a new sequence.
  lemma PressAgain(c: Setup, key: KeyPos, up: nat, n: nat, pressed: bool, log: seq<Call>, t: nat)
    requires RealKey(key) && up != 0 && n >= 1 && t != 0 && Diff(t, up) < c.term
    ensures Step(c, After(key, up, n, pressed, log), Press(key, t)) ==
            if pressed then State(Fresh(Press(key, t)), [], log)
            else State(Tagged(Press(key, t), n + 1).rec, [], log + [Tagged(Press(key, t), n + 1)])
  {
    hide Diff;
    DrainEmpty(c, State(Fresh(Press(key, t)), [], log));
    DrainEmpty(c, State(Tagged(Press(key, t), n + 1).rec, [], log + [Tagged(Press(key, t), n + 1)]));
  }

  // After the n-th timely release of a tap key and any timely events of other,
  // ordinary keys, its next timely press is delivered with the next tag exactly
  // if none of those events is a press; if one is, nothing is delivered for it.
  lemma NextTapIff(c: Setup, key: KeyPos, up: nat, n: nat, log: seq<Call>, gap: seq<Event>, t: nat)
    requires RealKey(key) && up != 0 && n >= 1 && Gap(c, key, up, gap) && t != 0 && Diff(t, up) < c.term
    ensures var s := Run(c, State(Tagged(Release(key, up), n).rec, [], log), gap + [Press(key, t)]);
      && s.log == log + Passed(gap) + (if HasPress(gap) then [] else [Tagged(Press(key, t), n + 1)])
      && s.tk == (if HasPress(gap) then Fresh(Press(key, t)) else Tagged(Press(key, t), n + 1).rec) && s.buf == []
  {
    hide Step, Diff, Gap, HasPress, Passed, Run;
    var s := State(Tagged(Release(key, up), n).rec, [], log);
    GapRuns(c, key, up, n, log, gap);
    RunConcat(c, s, gap, [Press(key, t)]);
    RunOne(c, After(key, up, n, HasPress(gap), log + Passed(gap)), Press(key, t));
    PressAgain(c, key, up, n, HasPress(gap), log + Passed(gap), t);
    assert log + Passed(gap) + [] == log + Passed(gap);
  }

  // A tap and the events of other keys since the last release.
  datatype Beat = Beat(gap: seq<Event>, tap: Stroke)

  // The tag of a tap after one tagged n.
  function Tag(gap: seq<Event>, n: nat): nat { if HasPress(gap) then 1 else n + 1 }

  function BeatEvents(key: KeyPos, b: Beat): seq<Event> {
    b.gap + ([Press(key, b.tap.down)] + (Ticks(b.tap.whileDown) + [Release(key, b.tap.up)] + Ticks(b.tap.after)))
  }

  function BeatCalls(key: KeyPos, b: Beat, n: nat): seq<Call> {
    Passed(b.gap) + [Tagged(Press(key, b.tap.down), Tag(b.gap, n)), Tagged(Release(key, b.tap.up), Tag(b.gap, n))]
  }

  ghost predicate TimelyBeat(c: Setup, key: KeyPos, up: nat, b: Beat) {
    Gap(c, key, up, b.gap) && TimelyStroke(c, b.tap) && Diff(b.tap.down, up) < c.term
  }

  lemma BeatRuns(c: Setup, key: KeyPos, up: nat, n: nat, log: seq<Call>, b: Beat)
    requires RealKey(key) && up != 0 && n >= 1 && TimelyBeat(c, key, up, b)
    ensures Run(c, State(Tagged(Release(key, up), n).rec, [], log), BeatEvents(key, b)) ==
            State(Tagged(Release(key, b.tap.up), Tag(b.gap, n)).rec, [], log + BeatCalls(key, b, n))
  {
    hide Step, Diff, Gap, HasPress, Passed, Run, TimelyStroke;
    var down, rel, m := Press(key, b.tap.down), Release(key, b.tap.up), Tag(b.gap, n);
    var s := State(Tagged(Release(key, up), n).rec, [], log);
    var log1 := log + Passed(b.gap);
    var s1 := After(key, up, n, HasPress(b.gap), log1);
    var s2 := Step(c, s1, down);
    TimelyParts(c, b.tap);
    TimelyTimes(c, b.tap);
    GapRuns(c, key, up, n, log, b.gap);
    PressAgain(c, key, up, n, HasPress(b.gap), log1, b.tap.down);
    var log2 := log1 + [Tagged(down, m), Tagged(rel, m)];
    if HasPress(b.gap) {
      FirstRelease(c, log1, down, rel);
    } else {
      NextRelease(c, log1 + [Tagged(down, m)], down, m, rel);
      assert log1 + [Tagged(down, m)] + [Tagged(rel, m)] == log2;
    }
    RestOfStroke(c, key, s2, b.tap, m, log2);
    var rest := Ticks(b.tap.whileDown) + [rel] + Ticks(b.tap.after);
    RunConcat(c, s, b.gap, [down] + rest);
    RunConcat(c, s1, [down], rest);
    RunOne(c, s1, down);
    assert log2 == log + BeatCalls(key, b, n);
  }

  lemma TimelyTimes(c: Setup, s: Stroke)
    requires TimelyStroke(c, s)
    ensures s.down != 0 && s.up != 0
  {
  }

  ghost predicate TimelyBeats(c: Setup, key: KeyPos, up: nat, bs: seq<Beat>)
    decreases |bs|
  {
    bs == [] || (TimelyBeat(c, key, up, bs[0]) && TimelyBeats(c, key, bs[0].tap.up, bs[1..]))
  }

  function Events(key: KeyPos, bs: seq<Beat>): seq<Event> {
    if bs == [] then [] else BeatEvents(key, bs[0]) + Events(key, bs[1..])
  }

  function Calls(key: KeyPos, bs: seq<Beat>, n: nat): seq<Call>
    decreases |bs|
  {
    if bs == [] then [] else BeatCalls(key, bs[0], n) + Calls(key, bs[1..], Tag(bs[0].gap, n))
  }

  function LastTag(bs: seq<Beat>, n: nat): nat
    decreases |bs|
  {
    if bs == [] then n else LastTag(bs[1..], Tag(bs[0].gap, n))
  }

  // Any sequence of taps with ordinary keys in between: the tags count up and
  // start over at 1 behind every gap in which a key went down.
  lemma {:induction false} MixedTaps(c: Setup, key: KeyPos, up: nat, n: nat, log: seq<Call>, bs: seq<Beat>)
    requires RealKey(key) && up != 0 && n >= 1 && TimelyBeats(c, key, up, bs)
    ensures var s := Run(c, State(Tagged(Release(key, up), n).rec, [], log), Events(key, bs));
      && s.log == log + Calls(key, bs, n) && s.buf == []
      && s.tk == Tagged(Release(key, if bs == [] then up else bs[|bs| - 1].tap.up), LastTag(bs, n)).rec
    decreases |bs|
  {
    hide Step, Run, TimelyBeat, BeatEvents, BeatCalls;
    var s := State(Tagged(Release(key, up), n).rec, [], log);
    if bs == [] {
      RunNone(c, s);
      assert log + [] == log;
    } else {
      var b, m := bs[0], Tag(bs[0].gap, n);
      BeatRuns(c, key, up, n, log, b);
      BeatTimes(c, key, up, b);
      RunConcat(c, s, BeatEvents(key, b), Events(key, bs[1..]));
      MixedTaps(c, key, b.tap.up, m, log + BeatCalls(key, b, n), bs[1..]);
      assert log + BeatCalls(key, b, n) + Calls(key, bs[1..], m) == log + Calls(key, bs, n);
    }
  }

  lemma BeatTimes(c: Setup, key: KeyPos, up: nat, b: Beat)
    requires TimelyBeat(c, key, up, b)
    ensures b.tap.up != 0
  {
  }

  // The same from an idle machine, beginning with a first tap.
  lemma TapsAmongKeys(c: Setup, key: KeyPos, log: seq<Call>, first: Stroke, bs: seq<Beat>)
    requires RealKey(key) && TimelyStroke(c, first) && c.isTap(log, Press(key, first.down))
    requires TimelyBeats(c, key, first.up, bs)
    ensures var s := Run(c, State(NO_RECORD, [], log), TrainEvents(key, [first]) + Events(key, bs));
      && s.log == log + [Lookup(Press(key, first.down))] + Delivered(key, [first], 1) + Calls(key, bs, 1)
      && s.buf == []
      && s.tk == Tagged(Release(key, if bs == [] then first.up else bs[|bs| - 1].tap.up), LastTag(bs, 1)).rec
  {
    hide Step, Run, TimelyBeats, TrainEvents, Delivered, TimelyStroke, Diff;
    TapTrain(c, key, log, [first]);
    TimelyTimes(c, first);
    RunConcat(c, State(NO_RECORD, [], log), TrainEvents(key, [first]), Events(key, bs));
    MixedTaps(c, key, first.up, 1, log + [Lookup(Press(key, first.down))] + Delivered(key, [first], 1), bs);
  }

  // A press after an interrupted tap that is held past its term is a hold.
  lemma HoldAfterGap(c: Setup, key: KeyPos, up: nat, n: nat, log: seq<Call>, gap: seq<Event>, t: nat,
                     early: seq<nat>, late: nat)
    requires RealKey(key) && up != 0 && n >= 1 && Gap(c, key, up, gap) && t != 0 && Diff(t, up) < c.term
    requires HasPress(gap) && Timely(c, t, early) && Diff(late, t) >= c.term
    ensures Run(c, State(Tagged(Release(key, up), n).rec, [], log), gap + [Press(key, t)] + Ticks(early) + [Tick(late)])
         == State(NO_RECORD, [], log + Passed(gap) + [Tagged(Press(key, t), 0)])
  {
    hide Step, Diff, Gap, HasPress, Passed, Run, Timely;
    var s := State(Tagged(Release(key, up), n).rec, [], log);
    var s1 := State(Fresh(Press(key, t)), [], log + Passed(gap));
    NextTapIff(c, key, up, n, log, gap, t);
    assert log + Passed(gap) + [] == log + Passed(gap);
    TimelyTicks(c, s1, early);
    LateTick(c, s1.log, Press(key, t), late);
    RunConcat(c, s, gap + [Press(key, t)], Ticks(early));
    RunConcat(c, s, gap + [Press(key, t)] + Ticks(early), [Tick(late)]);
    RunOne(c, s1, Tick(late));
  }
}
