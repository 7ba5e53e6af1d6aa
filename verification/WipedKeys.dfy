// Keys that stick by the count: an input of alternating, fully released keys,
// smooth, after which the key list is empty and a slot of the report is not.
module WipedKeys {
  import opened KeyEvents
  import opened KeyList
  import KeyboardState
  import opened KeyReport
  import opened ModBits
  import opened ActionCode
  import opened Actions
  import opened ActionEngine
  import opened StuckKeys
  import opened Tapping
  import opened TappingLedger
  import opened TappingOrder
  import opened TappingMachine
  import opened TapTrains
  import opened KeyOrder
  import opened KeyPairs
  import opened PairedRuns
  import opened Wired
  import opened HostReports
  import opened Overtaking
  import opened EndToEnd
  import opened StuckRelease
  import opened EngineRuns

  // ----- The input -----

  // The n-th of the events of b, a press first, one a scan from t on.
  function TypedEvent(b: KeyPos, t: nat, n: nat): Event { Event(b, n % 2 == 0, t + 1 + n) }

  // n events of b, each with the tick of its scan.
  function Typing(b: KeyPos, t: nat, n: nat): seq<Event> {
    if n == 0 then [] else Typing(b, t, n - 1) + [TypedEvent(b, t, n - 1), Tick(t + n)]
  }

  function Waiting(b: KeyPos, t: nat, n: nat): (q: seq<Record>)
    ensures |q| == n && forall i :: 0 <= i < n ==> q[i] == Fresh(TypedEvent(b, t, i))
  {
    seq(n, i requires 0 <= i < n => Fresh(TypedEvent(b, t, i)))
  }

  // a and the tap key p go down, b is typed four times within the term of p, and
  // a and p come up.
  function Round(a: KeyPos, p: KeyPos, b: KeyPos, t: nat): seq<Event> {
    [Press(a, t), Tick(t), Press(p, t), Tick(t)] + Typing(b, t, 8)
    + [Release(a, t + 9), Tick(t + 9), Release(p, t + 9), Tick(t + 9)]
  }

  function Rounds(a: KeyPos, p: KeyPos, b: KeyPos, ts: seq<nat>): seq<Event> {
    if ts == [] then [] else Rounds(a, p, b, ts[..|ts| - 1]) + Round(a, p, b, ts[|ts| - 1])
  }

  // After the rounds a goes down and up once more.
  function WipingInput(a: KeyPos, p: KeyPos, b: KeyPos, ts: seq<nat>, t: nat): seq<Event> {
    Rounds(a, p, b, ts) + [Press(a, t), Tick(t), Release(a, t + 1), Tick(t + 1)]
  }

  predicate ThreeKeys(a: KeyPos, p: KeyPos, b: KeyPos) {
    RealKey(a) && RealKey(p) && RealKey(b) && a != p && a != b && p != b
  }

  // ----- The machine -----

  // A smooth run from s to s'.
  predicate Leads(c: Setup, s: State, es: seq<Event>, s': State) {
    Smooth(c, s, es) && Run(c, s, es) == s'
  }

  lemma {:induction false} LeadsOn(c: Setup, s: State, a: seq<Event>, s1: State, b: seq<Event>, s2: State)
    requires Leads(c, s, a, s1) && Leads(c, s1, b, s2)
    ensures Leads(c, s, a + b, s2)
    decreases |a|
  {
    hide Step, Clashes, ClockOk;
    if a == [] {
      assert a + b == b;
    } else {
      assert (a + b)[0] == a[0] && (a + b)[1..] == a[1..] + b;
      LeadsOn(c, Step(c, s, a[0]), a[1..], s1, b, s2);
    }
  }

  lemma LeadsOne(c: Setup, s: State, e: Event)
    requires !Clashes(c, s, e) && (Real(e) ==> ClockOk(Events(s.buf) + [e]))
    ensures Leads(c, s, [e], Step(c, s, e))
  {
    hide Step, Clashes, ClockOk;
    RunOne(c, s, e);
    assert Smooth(c, Step(c, s, e), [e][1..]);
  }

  lemma LeadsTwo(c: Setup, s: State, e: Event, f: Event, s1: State)
    requires Leads(c, s, [e], s1) && !Clashes(c, s1, f) && (Real(f) ==> ClockOk(Events(s1.buf) + [f]))
    ensures Leads(c, s, [e, f], Step(c, s1, f))
  {
    hide Leads, Step, Clashes, ClockOk;
    LeadsOne(c, s1, f);
    LeadsOn(c, s, [e], s1, [f], Step(c, s1, f));
    assert [e] + [f] == [e, f];
  }

  // With nothing waiting no event clashes.
  lemma EmptyQueue(c: Setup, s: State, e: Event)
    requires s.buf == []
    ensures !Clashes(c, s, e) && ClockOk(Events(s.buf) + [e])
  {
    hide GoesAhead, FirstTap, Cancels;
  }

  lemma TicksNeverClash(c: Setup, s: State, t: nat)
    ensures !Clashes(c, s, Tick(t)) && !Real(Tick(t))
  {
  }

  lemma RisingClock(es: seq<Event>)
    requires forall i, j :: 0 <= i < j < |es| ==> es[i].time <= es[j].time < es[i].time + 0x1_0000
    ensures ClockOk(es)
  {
  }

  // p is undecided and n events of b wait.
  function TypingState(p: Event, b: KeyPos, n: nat, log: seq<Call>): State {
    State(if n == 0 then Fresh(p) else Record(p, Tap(true, 0)), Waiting(b, p.time, n), log)
  }

  lemma WaitingClock(b: KeyPos, t: nat, n: nat)
    requires n <= 8
    ensures ClockOk(Events(Waiting(b, t, n)))
    ensures Events(Waiting(b, t, n)) + [TypedEvent(b, t, n)] == Events(Waiting(b, t, n + 1))
  {
    hide ClockOk;
    RisingClock(Events(Waiting(b, t, n)));
  }

  lemma TypedNoClash(c: Setup, p: Event, b: KeyPos, n: nat, log: seq<Call>)
    requires c.term == 200 && Real(p) && p.pressed && b != p.key && n <= 7
    ensures !Clashes(c, TypingState(p, b, n, log), TypedEvent(b, p.time, n))
  {
    var s, e := TypingState(p, b, n, log), TypedEvent(b, p.time, n);
    if n == 0 {
      EmptyQueue(c, s, e);
    } else if !e.pressed {
      assert s.buf[0].event == TypedEvent(b, p.time, 0);
    }
  }

  // The next event of b waits too; the eighth overflows the queue.
  lemma TypedStep(c: Setup, p: Event, b: KeyPos, n: nat, log: seq<Call>)
    requires c.term == 200 && Real(p) && p.pressed && b != p.key && RealKey(b) && n <= 7
    ensures Step(c, TypingState(p, b, n, log), TypedEvent(b, p.time, n)) ==
            if n < 7 then TypingState(p, b, n + 1, log)
            else State(NO_RECORD, [], log + [Overflow([p] + Events(Waiting(b, p.time, 8)))])
  {
    hide Drain, Diff;
    var s, e := TypingState(p, b, n, log), TypedEvent(b, p.time, n);
    var t := State(Record(p, Tap(true, 0)), s.buf, log);
    NearTimes(p.time, 1 + n);
    NearTimes(p.time, 1);
    if n > 0 { assert s.buf[0].event == TypedEvent(b, p.time, 0); }
    assert Typed(s.buf, e) || e.pressed;
    assert ProcessTapping(c, s, Fresh(e)) == Outcome(false, t, Fresh(e));
    WaitingClock(b, p.time, n);
    if n < 7 {
      var u := TypingState(p, b, n + 1, log);
      assert s.buf + [Fresh(e)] == u.buf;
      assert ProcessTapping(c, u, u.buf[0]) == Outcome(false, u, u.buf[0]);
      DrainStays(c, u);
    } else {
      assert Pending(t) == [p];
      assert [p] + Events(s.buf) + [e] == [p] + (Events(s.buf) + [e]);
      DrainEmpty(c, State(NO_RECORD, [], log + [Overflow([p] + Events(Waiting(b, p.time, 8)))]));
    }
  }

  lemma NearTimes(t: nat, d: nat)
    requires d < 200
    ensures Diff(t + d, t) == d
  {
  }

  lemma DrainStays(c: Setup, s: State)
    requires s.buf != [] && ProcessTapping(c, s, s.buf[0]) == Outcome(false, s, s.buf[0])
    ensures Drain(c, s) == s
  {
    hide ProcessTapping;
    assert s.buf[0 := s.buf[0]] == s.buf;
  }

  // One scan of the typing.
  lemma TypedScan(c: Setup, p: Event, b: KeyPos, n: nat, log: seq<Call>)
    requires c.term == 200 && Real(p) && p.pressed && b != p.key && RealKey(b) && n <= 6
    ensures Leads(c, TypingState(p, b, n, log), [TypedEvent(b, p.time, n), Tick(p.time + n + 1)],
                  TypingState(p, b, n + 1, log))
  {
    hide Step, Clashes, ClockOk, Leads, Diff;
    var s, e, s' := TypingState(p, b, n, log), TypedEvent(b, p.time, n), TypingState(p, b, n + 1, log);
    TypedNoClash(c, p, b, n, log);
    WaitingClock(b, p.time, n);
    WaitingClock(b, p.time, n + 1);
    TypedStep(c, p, b, n, log);
    LeadsOne(c, s, e);
    NearTimes(p.time, n + 1);
    NearTimes(p.time, 1);
    QuietTick(c, s', p.time + n + 1);
    TicksNeverClash(c, s', p.time + n + 1);
    LeadsTwo(c, s, e, Tick(p.time + n + 1), s');
  }

  lemma {:induction false} TypingWaits(c: Setup, p: Event, b: KeyPos, n: nat, log: seq<Call>)
    requires c.term == 200 && Real(p) && p.pressed && b != p.key && RealKey(b) && n <= 7
    ensures Leads(c, TypingState(p, b, 0, log), Typing(b, p.time, n), TypingState(p, b, n, log))
    decreases n
  {
    hide Leads, TypingState, TypedEvent;
    var s0 := TypingState(p, b, 0, log);
    if n == 0 {
      LeadsNowhere(c, s0);
    } else {
      TypingWaits(c, p, b, n - 1, log);
      TypedScan(c, p, b, n - 1, log);
      LeadsOn(c, s0, Typing(b, p.time, n - 1), TypingState(p, b, n - 1, log),
              [TypedEvent(b, p.time, n - 1), Tick(p.time + n)], TypingState(p, b, n, log));
    }
  }

  lemma LeadsNowhere(c: Setup, s: State)
    ensures Leads(c, s, [], s)
  {
  }

  // An event and a tick with nothing waiting before or after.
  lemma EmptyScan(c: Setup, s: State, e: Event, s': State, t: nat)
    requires s.buf == [] && s'.buf == [] && Step(c, s, e) == s'
    requires s'.tk == NO_RECORD || (RealKey(s'.tk.event.key) && Diff(t, s'.tk.event.time) < c.term)
    ensures Leads(c, s, [e, Tick(t)], s')
  {
    hide Leads, Step, Clashes, ClockOk, Diff;
    EmptyQueue(c, s, e);
    LeadsOne(c, s, e);
    TimelyTick(c, s', t);
    TicksNeverClash(c, s', t);
    LeadsTwo(c, s, e, Tick(t), s');
  }

  lemma OverflowScan(c: Setup, p: Event, b: KeyPos, log: seq<Call>)
    requires c.term == 200 && Real(p) && p.pressed && b != p.key && RealKey(b)
    ensures Leads(c, TypingState(p, b, 7, log), [TypedEvent(b, p.time, 7), Tick(p.time + 8)],
                  State(NO_RECORD, [], log + [Overflow([p] + Events(Waiting(b, p.time, 8)))]))
  {
    hide Step, Clashes, ClockOk, Leads, Diff;
    var s, e := TypingState(p, b, 7, log), TypedEvent(b, p.time, 7);
    var s' := State(NO_RECORD, [], log + [Overflow([p] + Events(Waiting(b, p.time, 8)))]);
    TypedNoClash(c, p, b, 7, log);
    WaitingClock(b, p.time, 7);
    WaitingClock(b, p.time, 8);
    TypedStep(c, p, b, 7, log);
    LeadsOne(c, s, e);
    TimelyTick(c, s', p.time + 8);
    TicksNeverClash(c, s', p.time + 8);
    LeadsTwo(c, s, e, Tick(p.time + 8), s');
  }

  function PressCalls(a: Event): seq<Call> { [Lookup(a), Process(Fresh(a), false, false)] }

  // a is processed, p and the events of b are dropped, a and p come up.
  function RoundCalls(a: KeyPos, p: KeyPos, b: KeyPos, t: nat): seq<Call> {
    PressCalls(Press(a, t)) + [Lookup(Press(p, t)), Overflow([Press(p, t)] + Events(Waiting(b, t, 8))),
                               Tagged(Release(a, t + 9), 0), Tagged(Release(p, t + 9), 0)]
  }

  predicate TapsOnly(taps: KeyPos -> bool, a: KeyPos, p: KeyPos) { !taps(a) && taps(p) }

  lemma PressScan(c: Setup, taps: KeyPos -> bool, log: seq<Call>, a: KeyPos, t: nat)
    requires TapKeys(c, taps) && !taps(a) && RealKey(a) && t > 0
    ensures Leads(c, State(NO_RECORD, [], log), [Press(a, t), Tick(t)],
                  State(NO_RECORD, [], log + PressCalls(Press(a, t))))
  {
    hide Leads, Step;
    var e := Press(a, t);
    OrdinaryDown(c, log, e);
    assert log + [Lookup(e)] + [Process(Fresh(e), false, false)] == log + PressCalls(e);
    EmptyScan(c, State(NO_RECORD, [], log), e, State(NO_RECORD, [], log + PressCalls(e)), t);
  }

  lemma ReleaseScan(c: Setup, log: seq<Call>, a: KeyPos, t: nat)
    requires RealKey(a) && t > 0
    ensures Leads(c, State(NO_RECORD, [], log), [Release(a, t), Tick(t)],
                  State(NO_RECORD, [], log + [Tagged(Release(a, t), 0)]))
  {
    hide Leads, Step;
    IdleRelease(c, log, Release(a, t));
    EmptyScan(c, State(NO_RECORD, [], log), Release(a, t), State(NO_RECORD, [], log + [Tagged(Release(a, t), 0)]), t);
  }

  lemma TapScan(c: Setup, taps: KeyPos -> bool, log: seq<Call>, p: KeyPos, b: KeyPos, t: nat)
    requires TapKeys(c, taps) && taps(p) && RealKey(p) && t > 0 && c.term == 200
    ensures Leads(c, State(NO_RECORD, [], log), [Press(p, t), Tick(t)],
                  TypingState(Press(p, t), b, 0, log + [Lookup(Press(p, t))]))
  {
    hide Leads, Step;
    var e := Press(p, t);
    var s' := State(Fresh(e), [], log + [Lookup(e)]);
    FirstPress(c, log, e);
    EmptyScan(c, State(NO_RECORD, [], log), e, s', t);
    assert s' == TypingState(e, b, 0, log + [Lookup(e)]);
  }

  // A whole round.
  lemma RoundRuns(c: Setup, taps: KeyPos -> bool, log: seq<Call>, a: KeyPos, p: KeyPos, b: KeyPos, t: nat)
    requires TapKeys(c, taps) && TapsOnly(taps, a, p) && ThreeKeys(a, p, b) && t > 0 && c.term == 200
    ensures Leads(c, State(NO_RECORD, [], log), Round(a, p, b, t),
                  State(NO_RECORD, [], log + RoundCalls(a, p, b, t)))
  {
    hide Leads, TypingState, Waiting, TapKeys;
    var P := Press(p, t);
    var log1 := log + PressCalls(Press(a, t));
    var log2 := log1 + [Lookup(P)];
    var log3 := log2 + [Overflow([P] + Events(Waiting(b, t, 8)))];
    var log4 := log3 + [Tagged(Release(a, t + 9), 0)];
    var log5 := log4 + [Tagged(Release(p, t + 9), 0)];
    assert log5 == log + RoundCalls(a, p, b, t);
    var s0, s1, s3 := State(NO_RECORD, [], log), State(NO_RECORD, [], log1), State(NO_RECORD, [], log3);
    var first, tap := [Press(a, t), Tick(t)], [P, Tick(t)];
    PressScan(c, taps, log, a, t);
    TapScan(c, taps, log1, p, b, t);
    LeadsOn(c, s0, first, s1, tap, TypingState(P, b, 0, log2));
    TypingWaits(c, P, b, 7, log2);
    LeadsOn(c, s0, first + tap, TypingState(P, b, 0, log2), Typing(b, t, 7), TypingState(P, b, 7, log2));
    OverflowScan(c, P, b, log2);
    var last := [TypedEvent(b, t, 7), Tick(t + 8)];
    LeadsOn(c, s0, first + tap + Typing(b, t, 7), TypingState(P, b, 7, log2), last, s3);
    ReleaseScan(c, log3, a, t + 9);
    ReleaseScan(c, log4, p, t + 9);
    var up, down := [Release(a, t + 9), Tick(t + 9)], [Release(p, t + 9), Tick(t + 9)];
    LeadsOn(c, s3, up, State(NO_RECORD, [], log4), down, State(NO_RECORD, [], log5));
    LeadsOn(c, s0, first + tap + Typing(b, t, 7) + last, s3, up + down, State(NO_RECORD, [], log5));
    assert Typing(b, t, 8) == Typing(b, t, 7) + last;
    assert first + tap + Typing(b, t, 7) + last + (up + down) == Round(a, p, b, t);
  }

  // ----- The action layer -----

  // Nothing is down and n keys have been wiped.
  ghost predicate RoundsDone(km: Keymap, w: World, log: seq<Call>, n: nat) {
    && RestsEmpty(Replay(km, w, log).kb) && Replay(km, w, log).kb.cap == w.kb.cap
    && HeldBy(km, w, log) == map[] && Accounts(km, w, log, n)
  }

  ghost predicate Accounts(km: Keymap, w: World, log: seq<Call>, n: nat) {
    Debt(km, w, 0, log) == n && LogCounted(km, w, 0, log) && AllHandedOver(km, w, log)
  }

  // a is an ordinary key, p a tap key that only switches a layer, and there is
  // no other tap key.
  ghost predicate OneTapKey(km: Keymap, a: KeyPos, p: KeyPos, act: Action) {
    && PlainKey(act) && (forall l: nat :: km(l, a) == act)
    && (forall l: nat :: HoldsLayer(km(l, p)))
    && (forall l: nat, key: KeyPos :: IsTapAction(km(l, key)) <==> key == p)
  }

  lemma HeldSnoc(km: Keymap, w: World, log: seq<Call>, call: Call)
    ensures AllHandedOver(km, w, log + [call]) <==>
            AllHandedOver(km, w, log)
            && (call.Process? ==> HandsOver(km, Replay(km, w, log), HeldBy(km, w, log), call.rec))
    ensures HeldBy(km, w, log + [call]) ==
            match call
            case Process(r, _, _) => HeldAfter(km, Replay(km, w, log), HeldBy(km, w, log), Key(r))
            case Lookup(_) => HeldBy(km, w, log)
            case Overflow(_) => map[]
  {
    hide HandsOver, HeldAfter, Replay;
    assert (log + [call])[..|log|] == log;
  }

  // A call that is no overflow, made while its key is not down and the count is
  // right.
  lemma CallAccounts(km: Keymap, w: World, log: seq<Call>, call: Call, n: nat)
    requires Accounts(km, w, log, n) && !call.Overflow? && CountFits(Replay(km, w, log), n, call)
    requires call.Process? && call.rec.event.pressed ==> call.rec.event.key !in HeldBy(km, w, log)
    ensures Accounts(km, w, log + [call], n)
  {
    hide Debt, LogCounted, AllHandedOver, Replay, HeldBy, CountFits;
    DebtSnoc(km, w, 0, log, call);
    HeldSnoc(km, w, log, call);
  }

  // a has gone down: its key and modifiers are all there is.
  ghost predicate OneDown(km: Keymap, w: World, log: seq<Call>, a: KeyPos, act: Action, n: nat) {
    && SameHeld(Replay(km, w, log).kb, OneKey(w.kb.cap, act))
    && HeldBy(km, w, log).Keys <= {a} && Accounts(km, w, log, n)
  }

  function OneKey(cap: nat, act: Action): KeyboardState.Kbd {
    KeyboardState.Kbd(cap, [KeyCode(act)], 0, Mods(act), 0, [])
  }

  lemma PressEffect(kb: KeyboardState.Kbd, act: Action)
    requires RestsEmpty(kb) && kb.cap > 0 && PlainKey(act)
    ensures Pressed(kb, Share(KeyCode(act), Mods(act), 0)).keys == [KeyCode(act)]
    ensures SameHeld(Pressed(kb, Share(KeyCode(act), Mods(act), 0)), OneKey(kb.cap, act))
  {
    hide KeyCode, Mods, IsKeyKind;
    JoinNothing(0);
    FromNothing(Mods(act));
  }

  lemma FromNothing(m: bv8)
    ensures Join(0, m) == m && Without(m, m) == 0 && Without(0, m) == 0 && Without(m, 0) == m
  {
  }

  lemma ReleaseEffect(kb: KeyboardState.Kbd, act: Action)
    requires PlainKey(act) && (SameHeld(kb, OneKey(kb.cap, act)) || RestsEmpty(kb))
    ensures RestsEmpty(Released(kb, Share(KeyCode(act), Mods(act), 0)))
  {
    hide KeyCode, Mods, Without, Join, PlainKey;
    PlainIsKey(act);
    DelOne(KeyCode(act));
    FromNothing(Mods(act));
    FromNothing(0);
  }

  lemma PressReplays(km: Keymap, w: World, log: seq<Call>, a: KeyPos, p: KeyPos, act: Action, t: nat, n: nat)
    requires OneTapKey(km, a, p, act) && RealKey(a) && t > 0 && w.kb.cap > 0 && RoundsDone(km, w, log, n)
    ensures OneDown(km, w, log + PressCalls(Press(a, t)), a, act, n)
  {
    hide Accounts, Replay, HeldBy, Resolve, Perform, PlainKey, HoldsLayer, IsTapAction, Pressed, RestsEmpty, OneKey;
    var e := Press(a, t);
    var log1 := log + [Lookup(e)];
    var kb := Replay(km, w, log).kb;
    QuietCall(km, w, log, Lookup(e), kb);
    HeldSnoc(km, w, log, Lookup(e));
    CallAccounts(km, w, log, Lookup(e), n);
    PlainCall(km, w, log1, Fresh(e), kb, act);
    HeldSnoc(km, w, log1, Process(Fresh(e), false, false));
    NoKeysFit(km, w, log1, kb, n, Process(Fresh(e), false, false));
    CallAccounts(km, w, log1, Process(Fresh(e), false, false), n);
    PressEffect(kb, act);
    assert log + PressCalls(e) == log1 + [Process(Fresh(e), false, false)];
  }

  lemma NoKeysFit(km: Keymap, w: World, log: seq<Call>, kb: KeyboardState.Kbd, n: nat, call: Call)
    requires SameHeld(Replay(km, w, log).kb, kb) && RestsEmpty(kb)
    ensures CountFits(Replay(km, w, log), n, call)
  {
    hide Replay;
  }

  lemma OverflowReplays(km: Keymap, w: World, log: seq<Call>, a: KeyPos, act: Action, n: nat, dropped: seq<Event>)
    requires OneDown(km, w, log, a, act, n) && n < 255
    ensures RoundsDone(km, w, log + [Overflow(dropped)], n + 1)
  {
    hide Replay, HeldBy, KeyCode, Mods, Debt, LogCounted, AllHandedOver;
    var call := Overflow(dropped);
    ReplaySnoc(km, w, log, call);
    HeldSnoc(km, w, log, call);
    DebtSnoc(km, w, 0, log, call);
  }

  // The release of a key that is up.
  lemma SpareReplays(km: Keymap, w: World, log: seq<Call>, a: KeyPos, p: KeyPos, act: Action, e: Event, n: nat)
    requires OneTapKey(km, a, p, act) && Real(e) && !e.pressed && (e.key == a || e.key == p)
    requires w.kb.cap > 0 && RoundsDone(km, w, log, n)
    ensures RoundsDone(km, w, log + [Tagged(e, 0)], n)
  {
    hide Accounts, Replay, HeldBy, Resolve, Perform, PlainKey, HoldsLayer, IsTapAction, Released, KeyCode, Mods;
    var kb := Replay(km, w, log).kb;
    var call := Tagged(e, 0);
    HeldSnoc(km, w, log, call);
    assert HeldBy(km, w, log) - {e.key} == map[];
    NoKeysFit(km, w, log, kb, n, call);
    CallAccounts(km, w, log, call, n);
    if e.key == a {
      PlainCall(km, w, log, Fresh(e), kb, act);
      ReleaseEffect(kb, act);
      CapStays(kb, Share(KeyCode(act), Mods(act), 0));
    } else {
      QuietCall(km, w, log, call, kb);
    }
  }

  lemma RoundReplays(km: Keymap, w: World, log: seq<Call>, a: KeyPos, p: KeyPos, b: KeyPos, act: Action, t: nat, n: nat)
    requires OneTapKey(km, a, p, act) && ThreeKeys(a, p, b) && t > 0 && w.kb.cap > 0 && n < 255
    requires RoundsDone(km, w, log, n)
    ensures RoundsDone(km, w, log + RoundCalls(a, p, b, t), n + 1)
  {
    hide OneTapKey, RoundsDone, Waiting, OneDown;
    var P := Press(p, t);
    var log1 := log + PressCalls(Press(a, t));
    var log2 := log1 + [Lookup(P)];
    var dropped := [P] + Events(Waiting(b, t, 8));
    var log3 := log2 + [Overflow(dropped)];
    var log4 := log3 + [Tagged(Release(a, t + 9), 0)];
    PressReplays(km, w, log, a, p, act, t, n);
    LookupReplays(km, w, log1, a, act, P, n);
    OverflowReplays(km, w, log2, a, act, n, dropped);
    SpareReplays(km, w, log3, a, p, act, Release(a, t + 9), n + 1);
    SpareReplays(km, w, log4, a, p, act, Release(p, t + 9), n + 1);
    assert log4 + [Tagged(Release(p, t + 9), 0)] == log + RoundCalls(a, p, b, t);
  }

  lemma LookupReplays(km: Keymap, w: World, log: seq<Call>, a: KeyPos, act: Action, e: Event, n: nat)
    requires OneDown(km, w, log, a, act, n)
    ensures OneDown(km, w, log + [Lookup(e)], a, act, n)
  {
    hide Accounts, Replay, HeldBy, OneKey, CurrentLayer;
    ReplaySnoc(km, w, log, Lookup(e));
    HeldSnoc(km, w, log, Lookup(e));
    CallAccounts(km, w, log, Lookup(e), n);
  }

  // ----- 255 rounds -----

  function RoundsCalls(a: KeyPos, p: KeyPos, b: KeyPos, ts: seq<nat>): seq<Call> {
    if ts == [] then [] else RoundsCalls(a, p, b, ts[..|ts| - 1]) + RoundCalls(a, p, b, ts[|ts| - 1])
  }

  predicate Started(ts: seq<nat>) { forall i :: 0 <= i < |ts| ==> ts[i] > 0 }

  ghost predicate Arranged(km: Keymap, w: World, a: KeyPos, p: KeyPos, b: KeyPos, act: Action) {
    OneTapKey(km, a, p, act) && ThreeKeys(a, p, b) && w.kb.cap > 0 && RestsEmpty(w.kb)
  }

  lemma OneTaps(km: Keymap, w: World, a: KeyPos, p: KeyPos, act: Action) returns (taps: KeyPos -> bool)
    requires OneTapKey(km, a, p, act) && a != p
    ensures TapKeys(Wire(km, w, 200), taps) && TapsOnly(taps, a, p) && Wire(km, w, 200).term == 200
  {
    hide IsTapAction, PlainKey, HoldsLayer;
    taps := key => key == p;
    WireTapKeys(km, w, 200, taps);
  }

  lemma {:induction false} RoundsRun(km: Keymap, w: World, a: KeyPos, p: KeyPos, b: KeyPos, act: Action, ts: seq<nat>)
    requires Arranged(km, w, a, p, b, act) && Started(ts) && |ts| <= 255
    ensures Leads(Wire(km, w, 200), IDLE, Rounds(a, p, b, ts), State(NO_RECORD, [], RoundsCalls(a, p, b, ts)))
    ensures RoundsDone(km, w, RoundsCalls(a, p, b, ts), |ts|)
    decreases |ts|
  {
    hide Leads, Round, RoundCalls, RoundsDone, OneTapKey, Wire, TapKeys, RestsEmpty;
    var c := Wire(km, w, 200);
    if ts == [] {
      LeadsNowhere(c, IDLE);
      NoRounds(km, w);
    } else {
      var front, t := ts[..|ts| - 1], ts[|ts| - 1];
      var log := RoundsCalls(a, p, b, front);
      RoundsRun(km, w, a, p, b, act, front);
      var taps := OneTaps(km, w, a, p, act);
      RoundRuns(c, taps, log, a, p, b, t);
      LeadsOn(c, IDLE, Rounds(a, p, b, front), State(NO_RECORD, [], log), Round(a, p, b, t),
              State(NO_RECORD, [], log + RoundCalls(a, p, b, t)));
      RoundReplays(km, w, log, a, p, b, act, t, |front|);
    }
  }

  lemma NoRounds(km: Keymap, w: World)
    requires RestsEmpty(w.kb)
    ensures RoundsDone(km, w, [], 0)
  {
  }

  // The calls up to the last press, and with the last release.
  function CallsDown(a: KeyPos, p: KeyPos, b: KeyPos, ts: seq<nat>, t: nat): seq<Call> {
    RoundsCalls(a, p, b, ts) + PressCalls(Press(a, t))
  }

  function CallsUp(a: KeyPos, p: KeyPos, b: KeyPos, ts: seq<nat>, t: nat): seq<Call> {
    CallsDown(a, p, b, ts, t) + [Tagged(Release(a, t + 1), 0)]
  }

  // The machine goes smoothly through the input and is idle after it; in the
  // model of the list all keys are out again, but the count was not right for
  // the last release.
  lemma WipingRun(km: Keymap, w: World, a: KeyPos, p: KeyPos, b: KeyPos, act: Action, ts: seq<nat>, t: nat)
    requires Arranged(km, w, a, p, b, act) && Started(ts) && |ts| == 255 && t > 0
    ensures var c, end := Wire(km, w, 200), State(NO_RECORD, [], CallsUp(a, p, b, ts, t));
      && Leads(c, IDLE, WipingInput(a, p, b, ts, t), end)
      && Leads(c, IDLE, Rounds(a, p, b, ts) + [Press(a, t), Tick(t)],
               State(NO_RECORD, [], CallsDown(a, p, b, ts, t)))
      && Leads(c, State(NO_RECORD, [], CallsDown(a, p, b, ts, t)), [Release(a, t + 1), Tick(t + 1)], end)
    ensures OneDown(km, w, CallsDown(a, p, b, ts, t), a, act, 255)
    ensures RestsEmpty(Replay(km, w, CallsUp(a, p, b, ts, t)).kb) && AllHandedOver(km, w, CallsUp(a, p, b, ts, t))
    ensures !LogCounted(km, w, 0, CallsUp(a, p, b, ts, t))
  {
    hide Leads, RoundsDone, OneTapKey, Wire, TapKeys, RestsEmpty, Rounds, RoundsCalls, PressCalls, OneDown, Replay,
      LogCounted, AllHandedOver;
    var c := Wire(km, w, 200);
    var log, down, up := RoundsCalls(a, p, b, ts), CallsDown(a, p, b, ts, t), CallsUp(a, p, b, ts, t);
    var es, d, u := Rounds(a, p, b, ts), [Press(a, t), Tick(t)], [Release(a, t + 1), Tick(t + 1)];
    RoundsRun(km, w, a, p, b, act, ts);
    var taps := OneTaps(km, w, a, p, act);
    PressScan(c, taps, log, a, t);
    LeadsOn(c, IDLE, es, State(NO_RECORD, [], log), d, State(NO_RECORD, [], down));
    ReleaseScan(c, down, a, t + 1);
    LeadsOn(c, IDLE, es + d, State(NO_RECORD, [], down), u, State(NO_RECORD, [], up));
    assert es + d + u == WipingInput(a, p, b, ts, t);
    PressReplays(km, w, log, a, p, act, t, 255);
    LastRelease(km, w, down, a, p, act, Release(a, t + 1));
  }

  lemma LastRelease(km: Keymap, w: World, log: seq<Call>, a: KeyPos, p: KeyPos, act: Action, e: Event)
    requires OneTapKey(km, a, p, act) && Real(e) && !e.pressed && e.key == a && w.kb.cap > 0
    requires OneDown(km, w, log, a, act, 255)
    ensures RestsEmpty(Replay(km, w, log + [Tagged(e, 0)]).kb) && AllHandedOver(km, w, log + [Tagged(e, 0)])
    ensures !LogCounted(km, w, 0, log + [Tagged(e, 0)])
  {
    hide Replay, HeldBy, PlainKey, HoldsLayer, IsTapAction, Released, LogCounted, AllHandedOver, Debt, KeyCode, Mods;
    var call, kb := Tagged(e, 0), OneKey(w.kb.cap, act);
    PlainCall(km, w, log, Fresh(e), kb, act);
    ReleaseEffect(kb, act);
    HeldSnoc(km, w, log, call);
    DebtSnoc(km, w, 0, log, call);
  }

  // ----- The input is balanced -----

  // Every key alternates and is released.
  ghost predicate Balanced(es: seq<Event>) {
    forall key :: key != KeyPos(255, 255) ==> Even(Of(es, key))
  }

  predicate Even(es: seq<Event>) { Alternates(es) && |es| % 2 == 0 }

  lemma EvenConcat(x: seq<Event>, y: seq<Event>)
    requires Even(x) && Even(y)
    ensures Even(x + y)
  {
  }

  lemma BalancedConcat(x: seq<Event>, y: seq<Event>)
    requires Balanced(x) && Balanced(y)
    ensures Balanced(x + y)
  {
    hide Of, Even;
    forall key | key != KeyPos(255, 255)
      ensures Even(Of(x + y, key))
    {
      OfConcat(x, y, key);
      EvenConcat(Of(x, key), Of(y, key));
    }
  }

  lemma OfTwo(x: Event, i: Event, key: KeyPos)
    requires i.key == KeyPos(255, 255) && key != KeyPos(255, 255)
    ensures Of([x, i], key) == One(x, key)
  {
    hide Of;
    assert [x, i] == [x] + [i];
    OfConcat([x], [i], key);
    OfOne(x, key);
    OfOne(i, key);
  }

  lemma OfFour(x: Event, i: Event, y: Event, j: Event, key: KeyPos)
    requires i.key == j.key == KeyPos(255, 255) && key != KeyPos(255, 255)
    ensures Of([x, i, y, j], key) == One(x, key) + One(y, key)
  {
    hide Of, One;
    assert [x, i, y, j] == [x, i] + [y, j];
    OfConcat([x, i], [y, j], key);
    OfTwo(x, i, key);
    OfTwo(y, j, key);
  }

  lemma {:induction false} TypingOf(b: KeyPos, t: nat, n: nat, key: KeyPos)
    requires key != KeyPos(255, 255)
    ensures var x := Of(Typing(b, t, n), key); Alternates(x) && |x| == if key == b then n else 0
    decreases n
  {
    hide Of, Alternates;
    if n == 0 {
      NoneOf(key);
      NoneAlternate();
    } else {
      var e, tick := TypedEvent(b, t, n - 1), Tick(t + n);
      TypingOf(b, t, n - 1, key);
      OfConcat(Typing(b, t, n - 1), [e, tick], key);
      OfTwo(e, tick, key);
      OneMore(Of(Typing(b, t, n - 1), key), e, key);
    }
  }

  lemma OneMore(x: seq<Event>, e: Event, key: KeyPos)
    requires Alternates(x) && (e.key == key ==> e.pressed == (|x| % 2 == 0))
    ensures Alternates(x + One(e, key))
  {
  }

  lemma RoundBalanced(a: KeyPos, p: KeyPos, b: KeyPos, t: nat)
    requires ThreeKeys(a, p, b)
    ensures Balanced(Round(a, p, b, t))
  {
    hide Of, Typing, Even, One;
    var x, y := [Press(a, t), Tick(t), Press(p, t), Tick(t)],
      [Release(a, t + 9), Tick(t + 9), Release(p, t + 9), Tick(t + 9)];
    forall key | key != KeyPos(255, 255)
      ensures Even(Of(Round(a, p, b, t), key))
    {
      OfConcat(x + Typing(b, t, 8), y, key);
      OfConcat(x, Typing(b, t, 8), key);
      OfFour(x[0], x[1], x[2], x[3], key);
      OfFour(y[0], y[1], y[2], y[3], key);
      TypingOf(b, t, 8, key);
      RoundEven(a, p, b, t, Of(Typing(b, t, 8), key), key);
    }
  }

  lemma RoundEven(a: KeyPos, p: KeyPos, b: KeyPos, t: nat, x: seq<Event>, key: KeyPos)
    requires ThreeKeys(a, p, b) && Alternates(x) && |x| == if key == b then 8 else 0
    ensures Even((One(Press(a, t), key) + One(Press(p, t), key)) + x
                 + (One(Release(a, t + 9), key) + One(Release(p, t + 9), key)))
  {
  }

  lemma {:induction false} RoundsBalanced(a: KeyPos, p: KeyPos, b: KeyPos, ts: seq<nat>)
    requires ThreeKeys(a, p, b)
    ensures Balanced(Rounds(a, p, b, ts))
    decreases |ts|
  {
    hide Balanced, Round;
    if ts == [] {
      NoneBalanced();
    } else {
      RoundsBalanced(a, p, b, ts[..|ts| - 1]);
      RoundBalanced(a, p, b, ts[|ts| - 1]);
      BalancedConcat(Rounds(a, p, b, ts[..|ts| - 1]), Round(a, p, b, ts[|ts| - 1]));
    }
  }

  lemma NoneBalanced()
    ensures Balanced([])
  {
  }

  lemma StrokeBalanced(a: KeyPos, t: nat)
    ensures Balanced([Press(a, t), Tick(t), Release(a, t + 1), Tick(t + 1)])
  {
    hide Of;
    var es := [Press(a, t), Tick(t), Release(a, t + 1), Tick(t + 1)];
    forall key | key != KeyPos(255, 255)
      ensures Even(Of(es, key))
    {
      OfFour(Press(a, t), Tick(t), Release(a, t + 1), Tick(t + 1), key);
    }
  }

  lemma WipingInputBalanced(a: KeyPos, p: KeyPos, b: KeyPos, ts: seq<nat>, t: nat)
    requires ThreeKeys(a, p, b)
    ensures KeysAlternate(WipingInput(a, p, b, ts, t)) && AllReleased(WipingInput(a, p, b, ts, t))
  {
    hide Of, Rounds, Alternates;
    RoundsBalanced(a, p, b, ts);
    StrokeBalanced(a, t);
    BalancedConcat(Rounds(a, p, b, ts), [Press(a, t), Tick(t), Release(a, t + 1), Tick(t + 1)]);
  }

  // Every event of the input is a tick or of one of the three keys, at a time
  // other than 0.
  predicate Plainly(keys: set<KeyPos>, es: seq<Event>) {
    forall i :: 0 <= i < |es| ==> KeyEvents.Input(es[i]) && EventIn(keys, es[i])
  }

  lemma {:induction false} TypingPlainly(keys: set<KeyPos>, b: KeyPos, t: nat, n: nat)
    requires b in keys && RealKey(b)
    ensures Plainly(keys, Typing(b, t, n))
    decreases n
  {
    if n > 0 {
      TypingPlainly(keys, b, t, n - 1);
    }
  }

  lemma {:induction false} RoundsPlainly(keys: set<KeyPos>, a: KeyPos, p: KeyPos, b: KeyPos, ts: seq<nat>)
    requires {a, p, b} <= keys && ThreeKeys(a, p, b) && Started(ts)
    ensures Plainly(keys, Rounds(a, p, b, ts))
    decreases |ts|
  {
    hide Typing;
    if ts != [] {
      RoundsPlainly(keys, a, p, b, ts[..|ts| - 1]);
      TypingPlainly(keys, b, ts[|ts| - 1], 8);
    }
  }

  // ----- The firmware -----

  lemma TickGives(c: Setup, log: seq<Call>, e: Event, s: State)
    requires Real(e) && !e.pressed && Leads(c, State(NO_RECORD, [], log), [e, Tick(e.time)], s)
    ensures Step(c, State(NO_RECORD, [], log), e) == State(NO_RECORD, [], log + [Tagged(e, 0)])
    ensures Step(c, State(NO_RECORD, [], log + [Tagged(e, 0)]), Tick(e.time)) ==
            State(NO_RECORD, [], log + [Tagged(e, 0)])
  {
    hide Step, Diff;
    IdleRelease(c, log, e);
    TimelyTick(c, State(NO_RECORD, [], log + [Tagged(e, 0)]), e.time);
  }

  lemma DownPlainly(keys: set<KeyPos>, a: KeyPos, p: KeyPos, b: KeyPos, ts: seq<nat>, t: nat)
    requires {a, p, b} <= keys && ThreeKeys(a, p, b) && Started(ts) && t > 0
    ensures Plainly(keys, Rounds(a, p, b, ts) + [Press(a, t), Tick(t)]) && Plainly(keys, WipingInput(a, p, b, ts, t))
  {
    hide Rounds;
    RoundsPlainly(keys, a, p, b, ts);
  }

  // Nothing is missing for NoKeyStaysDown but a count that is right.
  lemma WipingInputIsSmooth(km: Keymap, w: World, a: KeyPos, p: KeyPos, b: KeyPos, act: Action, ts: seq<nat>, t: nat)
    requires Arranged(km, w, a, p, b, act) && Started(ts) && |ts| == 255 && t > 0
    ensures var c, es := Wire(km, w, 200), WipingInput(a, p, b, ts, t); var log := Run(c, IDLE, es).log;
      && Inputs(es) && KeysAlternate(es) && AllReleased(es) && Smooth(c, IDLE, es) && AllHandedOver(km, w, log)
      && !LogCounted(km, w, 0, log)
  {
    hide KeysAlternate, AllReleased, Smooth, AllHandedOver, LogCounted, Run, Wire, WipingInput, CallsUp, CallsDown,
      OneTapKey;
    WipingRun(km, w, a, p, b, act, ts, t);
    WipingInputBalanced(a, p, b, ts, t);
    DownPlainly({a, p, b}, a, p, b, ts, t);
  }

  // The firmware up to the last press: its key is down and the count reads 0.
  method UntilPress(km: Keymap, slots: nat, rows: nat, cols: nat, a: KeyPos, p: KeyPos, b: KeyPos, act: Action,
                    ts: seq<nat>, t: nat)
    returns (machine: Machine, engine: Engine)
    requires 2 <= slots <= 127 && {a, p, b} <= Where(rows, cols) && Started(ts) && |ts| == 255 && t > 0
    requires OneTapKey(km, a, p, act) && ThreeKeys(a, p, b)
    ensures fresh(machine) && fresh(machine.waiting)
    ensures fresh(engine) && fresh(engine.kb) && fresh(engine.kb.keys) && fresh(engine.layerPressed)
    ensures var w := PowerOn(slots, rows, cols);
      && Together(w, 0, machine, engine) && machine.c == Wire(km, w, 200) && Grid(engine) == Where(rows, cols)
      && machine.Value() == State(NO_RECORD, [], CallsDown(a, p, b, ts, t))
    ensures engine.kb.State().keys == [KeyCode(act)] && engine.kb.stale == 255 && Shown(engine.kb.State())
  {
    hide KeyboardReport.Valid, Step, Run, Replay, Debt, LogCounted, Wire, EventIn, Grid, Machine.Queue,
      StateIn, Where, OneTapKey, Rounds, CallsDown, CallsUp, AllHandedOver, HeldBy, Mods, KeyCode, Smooth, WipingInput,
      Shown;
    ghost var w := PowerOn(slots, rows, cols);
    FirstShown(w.kb);
    machine, engine := PowerUp(km, slots, rows, cols, 200);
    WipingRun(km, w, a, p, b, act, ts, t);
    DownPlainly(Where(rows, cols), a, p, b, ts, t);
    ReplayShown(km, w, CallsDown(a, p, b, ts, t));
    FeedAll(machine, engine, w, 0, Rounds(a, p, b, ts) + [Press(a, t), Tick(t)]);
  }

  // With one key down and 255 owed the count reads 0: a release does nothing.
  method LoseRelease(engine: Engine, code: Code, e: Event)
    requires engine.Valid() && EventIn(Grid(engine), e) && Real(e) && !e.pressed
    requires engine.kb.State().keys == [code] && engine.kb.stale == 255 && Shown(engine.kb.State())
    modifies engine`layerState, engine`defaultLayerState, engine.kb, engine.kb.keys, engine.layerPressed
    ensures engine.Valid() && engine.kb.State().keys == [code] && engine.kb.count == 0
    ensures engine.kb.State().LastReport().keys == [code]
  {
    hide KeyboardReport.Valid, KeyboardReport.Live, Resolve, Actions.ProcessAction, KeyOf, Grid, EventIn,
      KeyboardState.Tells;
    ghost var was := engine.kb.State();
    engine.kb.EmptyCount();
    InGrid(engine, e);
    var _ := engine.ProcessAction(Fresh(e));
    engine.kb.EmptyCount();
    ShownOn(was, engine.kb.State());
  }

  lemma ReleaseIn(keys: set<KeyPos>, a: KeyPos, t: nat)
    requires a in keys
    ensures EventIn(keys, Release(a, t))
  {
  }

  // Machine and engine on the whole input: every key is released and the machine
  // idle, no key is in the list the calls replay to, and a is in the last report.
  method KeySticksByCount(km: Keymap, slots: nat, rows: nat, cols: nat, a: KeyPos, p: KeyPos, b: KeyPos, act: Action,
                          ts: seq<nat>, t: nat)
    returns (machine: Machine, engine: Engine)
    requires 2 <= slots <= 127 && {a, p, b} <= Where(rows, cols) && Started(ts) && |ts| == 255 && t > 0
    requires OneTapKey(km, a, p, act) && ThreeKeys(a, p, b)
    ensures machine.Valid() && engine.Valid()
    ensures var w := PowerOn(slots, rows, cols);
      && machine.Value() == Run(Wire(km, w, 200), IDLE, WipingInput(a, p, b, ts, t))
      && machine.Value() == State(NO_RECORD, [], CallsUp(a, p, b, ts, t))
      && Replay(km, w, machine.log).kb.keys == []
    ensures engine.kb.State().keys == [KeyCode(act)] && engine.kb.count == 0
    ensures engine.kb.State().LastReport().keys == [KeyCode(act)]
  {
    hide KeyboardReport.Valid, KeyboardReport.Live, Step, Run, Replay, Debt, LogCounted, Wire, EventIn, Grid,
      Machine.Queue, StateIn, OneTapKey, Rounds, CallsDown, AllHandedOver, HeldBy, Mods, KeyCode, Smooth, WipingInput,
      OneDown, Where;
    ghost var w := PowerOn(slots, rows, cols);
    var e := Release(a, t + 1);
    machine, engine := UntilPress(km, slots, rows, cols, a, p, b, act, ts, t);
    WipingRun(km, w, a, p, b, act, ts, t);
    TickGives(machine.c, CallsDown(a, p, b, ts, t), e, State(NO_RECORD, [], CallsUp(a, p, b, ts, t)));
    machine.ActionTappingProcess(e);
    ReleaseIn(Where(rows, cols), a, t + 1);
    LoseRelease(engine, KeyCode(act), e);
    machine.ActionTappingProcess(Tick(t + 1));
  }
}
