// A modifier that sticks: a cancelled tap is processed a second time, and if the
// layer has changed in between as another action.
module CancelledHold {
  import opened KeyEvents
  import opened KeyList
  import KeyboardState
  import opened ModBits
  import opened ActionCode
  import opened Actions
  import opened StuckKeys
  import opened Tapping
  import opened TappingLedger
  import opened TappingOrder
  import opened TapTrains
  import opened Wired
  import opened Overtaking
  import opened StuckRelease

  // A layer key z is held, a tap key x goes down, an ordinary key y interrupts
  // it, x and z come up, x's term ends, y comes up.
  predicate Roll(z: Event, x: Event, y: Event, x': Event, z': Event, y': Event) {
    && Real(z) && Real(x) && Real(y) && Real(x') && Real(z') && Real(y')
    && z.pressed && x.pressed && y.pressed && !x'.pressed && !z'.pressed && !y'.pressed
    && z.key == z'.key && x.key == x'.key && y.key == y'.key
    && z.key != x.key && z.key != y.key && x.key != y.key
    && x.time == 11 && y.time == 21 && x'.time == 31 && z'.time == 41
  }

  function Log1(z: Event): seq<Call> { [Lookup(z)] + [Process(Fresh(z), false, false)] }

  function Log2(z: Event, x: Event): seq<Call> { Log1(z) + [Lookup(x)] }

  // x is a tap, cancelled by y.
  function Log3(z: Event, x: Event): seq<Call> { Log2(z, x) + [Process(Record(x, Tap(true, 1)), false, true)] }

  function Log4(z: Event, x: Event, z': Event): seq<Call> {
    Log3(z, x) + [Lookup(z')] + [Process(Fresh(z'), false, false)]
  }

  // x is processed again, as a hold.
  function Log5(z: Event, x: Event, z': Event): seq<Call> {
    Log4(z, x, z') + [Process(Record(x, Tap(true, 0)), false, false)]
  }

  function Log6(z: Event, x: Event, y: Event, x': Event, z': Event): seq<Call> {
    Log5(z, x, z') + [Lookup(y)] + [Process(Fresh(y), false, false)] + [Process(Record(x', Tap(true, 0)), false, false)]
  }

  function RollInput(z: Event, x: Event, y: Event, x': Event, z': Event, y': Event): seq<Event> {
    [z, x] + [y, x'] + [z', Tick(211)] + [y']
  }

  // What the machine asks on the way.
  ghost predicate Answers(c: Setup, z: Event, x: Event, y: Event, x': Event, z': Event) {
    && c.term == 200 && !c.isTap([], z) && c.isTap(Log1(z), x)
    && c.cancels(Log2(z, x), Record(x, Tap(true, 1)))
    && !c.keepsMods(Log3(z, x), Fresh(z')) && !c.isTap(Log5(z, x, z'), y)
  }

  lemma RollRuns(c: Setup, z: Event, x: Event, y: Event, x': Event, z': Event, y': Event)
    requires Roll(z, x, y, x', z', y') && Answers(c, z, x, y, x', z')
    ensures Run(c, IDLE, RollInput(z, x, y, x', z', y')) ==
            State(NO_RECORD, [], Log6(z, x, y, x', z') + [Process(Fresh(y'), false, false)])
  {
    hide Step, Drain, ProcessTapping;
    var s1 := State(NO_RECORD, [], Log1(z));
    var s2 := State(Fresh(x), [], Log2(z, x));
    var tk := Record(x, Tap(true, 0));
    var s3 := State(tk, [Fresh(y)], Log2(z, x));
    var w := [Fresh(y), Record(x', Tap(true, 0))];
    var s4 := State(tk, w, Log3(z, x));
    var s5 := State(tk, w, Log4(z, x, z'));
    var s6 := State(NO_RECORD, [], Log6(z, x, y, x', z'));
    OrdinaryDown(c, [], z);
    assert [] + [Lookup(z)] + [Process(Fresh(z), false, false)] == Log1(z);
    FirstPress(c, Log1(z), x);
    SecondDown(c, s2, y);
    assert s2.buf + [Fresh(y)] == s3.buf;
    CancelledUp(c, z, x, y, x');
    StrayUp(c, z, x, y, x', z');
    HoldEnds(c, z, x, y, x', z');
    IdleRelease(c, s6.log, y');
    RunTwo(c, IDLE, z, x);
    RunTwo(c, s2, y, x');
    RunTwo(c, s4, z', Tick(211));
    RunOne(c, s6, y');
    RunParts(c, IDLE, [z, x], [y, x'], [z', Tick(211)]);
    RunConcat(c, IDLE, [z, x] + [y, x'] + [z', Tick(211)], [y']);
  }

  // A press at the front of the queue waits for the interrupted key.
  lemma FrontWaits(c: Setup, s: State, y: Event)
    requires TkPressed(s) && s.tk.tap == Tap(true, 0) && s.buf != [] && s.buf[0] == Fresh(y) && y.pressed
    requires Within(c, y, s.tk)
    ensures Drain(c, s) == s
  {
    hide Diff, Typed;
    assert ProcessTapping(c, s, Fresh(y)) == Outcome(false, s, Fresh(y));
    assert s.buf[0 := Fresh(y)] == s.buf;
  }

  lemma CancelledUp(c: Setup, z: Event, x: Event, y: Event, x': Event)
    requires c.term == 200 && Real(x) && Real(x') && x.pressed && !x'.pressed && y.pressed && x.key == x'.key
    requires x.time == 11 && y.time == 21 && x'.time == 31 && c.cancels(Log2(z, x), Record(x, Tap(true, 1)))
    ensures Step(c, State(Record(x, Tap(true, 0)), [Fresh(y)], Log2(z, x)), x') ==
            State(Record(x, Tap(true, 0)), [Fresh(y), Record(x', Tap(true, 0))], Log3(z, x))
  {
    hide Drain;
    var tk := Record(x, Tap(true, 0));
    var s := State(tk, [Fresh(y)], Log2(z, x));
    var t := State(tk, [Fresh(y), Record(x', Tap(true, 0))], Log3(z, x));
    assert ProcessTapping(c, s, Fresh(x')) == Outcome(false, t.(buf := s.buf), Record(x', Tap(true, 0)));
    assert s.buf + [Record(x', Tap(true, 0))] == t.buf;
    FrontWaits(c, t, y);
  }

  lemma StrayUp(c: Setup, z: Event, x: Event, y: Event, x': Event, z': Event)
    requires c.term == 200 && Real(x) && Real(z') && x.pressed && !z'.pressed && y.pressed
    requires z'.key != x.key && z'.key != y.key && x.key == x'.key && x.time == 11 && y.time == 21 && z'.time == 41
    requires !c.keepsMods(Log3(z, x), Fresh(z'))
    ensures var w := [Fresh(y), Record(x', Tap(true, 0))];
      Step(c, State(Record(x, Tap(true, 0)), w, Log3(z, x)), z') == State(Record(x, Tap(true, 0)), w, Log4(z, x, z'))
  {
    hide Drain;
    var w := [Fresh(y), Record(x', Tap(true, 0))];
    var s := State(Record(x, Tap(true, 0)), w, Log3(z, x));
    var t := s.(log := Log4(z, x, z'));
    assert !Typed(w, z');
    assert ProcessTapping(c, s, Fresh(z')) == Outcome(true, t, Fresh(z'));
    FrontWaits(c, t, y);
  }

  lemma HoldEnds(c: Setup, z: Event, x: Event, y: Event, x': Event, z': Event)
    requires c.term == 200 && Real(x) && Real(y) && Real(x') && x.pressed && y.pressed && !x'.pressed && x.time == 11
    requires !c.isTap(Log5(z, x, z'), y)
    ensures var w := [Fresh(y), Record(x', Tap(true, 0))];
      Step(c, State(Record(x, Tap(true, 0)), w, Log4(z, x, z')), Tick(211)) ==
      State(NO_RECORD, [], Log6(z, x, y, x', z'))
  {
    hide Drain, Typed;
    var k := Record(x', Tap(true, 0));
    var w := [Fresh(y), k];
    var s := State(Record(x, Tap(true, 0)), w, Log4(z, x, z'));
    var t := State(NO_RECORD, w, Log5(z, x, z'));
    assert ProcessTapping(c, s, Fresh(Tick(211))) == Outcome(false, t, Fresh(Tick(211)));
    var log := Log5(z, x, z') + [Lookup(y)] + [Process(Fresh(y), false, false)];
    assert ProcessTapping(c, t, Fresh(y)) == Outcome(true, t.(log := log), Fresh(y));
    DrainUnfold(c, t);
    assert w[1..] == [k];
    var u := State(NO_RECORD, [k], log);
    assert ProcessTapping(c, u, k) == Outcome(true, u.(log := log + [Process(k, false, false)]), k);
    DrainUnfold(c, u);
    assert u.buf[1..] == [];
    DrainEmpty(c, State(NO_RECORD, [], Log6(z, x, y, x', z')));
  }

  // ----- With the action layer -----

  // Momentary switch to layer 1.
  const MOMENTARY: Action := 0xA1F1

  // z switches to layer 1, where x is a modifier tap and below it an ordinary
  // key; y is an ordinary key.
  ghost predicate Layout(km: Keymap, z: KeyPos, x: KeyPos, y: KeyPos, tap: Action, low: Action, plain: Action) {
    && (forall l: nat :: km(l, z) == MOMENTARY) && (forall l: nat :: km(l, y) == plain) && PlainKey(plain)
    && km(0, x) == low && PlainKey(low) && (forall l: nat :: l > 0 ==> km(l, x) == tap)
    && IsModsTapKind(tap) && Releases(tap) && tap != ACTION_TRANSPARENT
  }

  predicate At(v: World, layers: bv32, mods: bv8) {
    v.layers == layers && v.defaults == 0 && v.kb.realMods == mods
  }

  lemma MomentaryFields()
    ensures Kind(MOMENTARY) == ACT_LAYER_TAP && TapCode(MOMENTARY) == OP_ON_OFF && TapLayer(MOMENTARY) == 1
    ensures BitOf(1) == 2
  {
  }

  lemma MomentaryKind()
    ensures !IsTapAction(MOMENTARY) && !IsKeyKind(MOMENTARY) && !IsModsTapKind(MOMENTARY)
  {
    hide Kind, TapCode, KeyMods;
    MomentaryFields();
  }

  lemma MomentaryMeans(w: World, r: Record)
    ensures Perform(w, MOMENTARY, r) ==
            w.(layers := if r.event.pressed then w.layers | 2 else w.layers & !2)
  {
    hide Kind, TapCode, TapLayer, BitOf, KeyMods;
    MomentaryFields();
  }

  lemma LayerOneOff()
    ensures (0 as bv32) | 2 == 2 && (2 as bv32) & !2 == 0
  {
  }

  lemma LayerFound(km: Keymap, x: KeyPos, tap: Action)
    requires (forall l: nat :: l > 0 ==> km(l, x) == tap) && tap != ACTION_TRANSPARENT
    ensures CurrentLayer(km, Active(2, 0), x) > 0 && CurrentLayer(km, Active(0, 0), x) == 0
  {
    assert Visible(km, Active(2, 0), x, 1);
    var l := CurrentLayer(km, Active(0, 0), x);
    assert forall i: nat :: i <= TOP_LAYER ==> !HasLayer(0, i);
  }

  lemma PlainKeeps(km: Keymap, v: World, r: Record, a: Action, layers: bv32, mods: bv8)
    requires Real(r.event) && r.tap.count == 0 && Resolve(km, v, r.event).1 == a && PlainKey(a) && At(v, layers, mods)
    ensures At(ProcessAction(km, v, r).0, layers, mods)
    ensures ProcessAction(km, v, r).0.pressedOn == Resolve(km, v, r.event).0.pressedOn
  {
    hide CurrentLayer, Active, KeyCode, Mods, Pressed, Released, ShareOf;
    var v' := Resolve(km, v, r.event).0;
    PlainShare(a);
    PerformEffect(v', a, r, Held(a, false));
    NoMods(v'.kb, KeyCode(a), Mods(a));
    PlainPerform(v', a, r);
  }

  lemma PlainPerform(w: World, a: Action, r: Record)
    requires PlainKey(a)
    ensures Perform(w, a, r) == w.(kb := Perform(w, a, r).kb)
  {
    hide KeyAction, KeyCode;
  }

  lemma NoMods(kb: KeyboardState.Kbd, code: Code, m: bv8)
    ensures Pressed(kb, Share(code, m, 0)).realMods == kb.realMods == Released(kb, Share(code, m, 0)).realMods
  {
  }

  lemma ModsTapPress(km: Keymap, v: World, r: Record, tap: Action)
    requires Real(r.event) && r.event.pressed && r.tap == Tap(true, 1) && At(v, 2, 0)
    requires Resolve(km, v, r.event).1 == tap && IsModsTapKind(tap) && Releases(tap)
    ensures At(ProcessAction(km, v, r).0, 2, Mods(tap)) && ProcessAction(km, v, r).1 != r
  {
    hide CurrentLayer, Active, Mods, KeyCode, Kind;
    JoinNothing(0);
    assert RegisterMods(v.kb, Mods(tap)).realMods == Mods(tap) by { FromNone(v.kb, Mods(tap)); }
  }

  lemma FromNone(kb: KeyboardState.Kbd, m: bv8)
    requires kb.realMods == 0
    ensures RegisterMods(kb, m).realMods == m
  {
  }

  // The worlds the machine meets on the way.
  lemma RollWorlds(km: Keymap, w: World, z: Event, x: Event, y: Event, x': Event, z': Event,
                   tap: Action, low: Action, plain: Action)
    requires Layout(km, z.key, x.key, y.key, tap, low, plain) && w.layers == 0 && w.defaults == 0 && w.kb.realMods == 0
    requires Real(z) && Real(x) && Real(z') && z.pressed && x.pressed && !z'.pressed && z.key == z'.key
    ensures At(Replay(km, w, Log1(z)), 2, 0) && At(Replay(km, w, Log2(z, x)), 2, 0)
    ensures At(Replay(km, w, Log3(z, x)), 2, Mods(tap)) && At(Replay(km, w, Log4(z, x, z')), 0, Mods(tap))
    ensures At(Replay(km, w, Log5(z, x, z')), 0, Mods(tap)) && PressedOn(Replay(km, w, Log5(z, x, z')), x.key) == 0
    ensures Resolve(km, Replay(km, w, Log1(z)), x).1 == tap
    ensures ProcessAction(km, Replay(km, w, Log2(z, x)), Record(x, Tap(true, 1))).1 != Record(x, Tap(true, 1))
  {
    hide Replay, Perform, CurrentLayer, Mods, PlainKey, IsModsTapKind, Releases;
    LayerFound(km, x.key, tap);
    assert Replay(km, w, []) == w by { NoReplay(km, w); }
    ReplaySnoc(km, w, [], Lookup(z));
    assert [] + [Lookup(z)] == [Lookup(z)];
    ReplaySnoc(km, w, [Lookup(z)], Process(Fresh(z), false, false));
    MomentaryMeans(Resolve(km, Replay(km, w, [Lookup(z)]), z).0, Fresh(z));
    ReplaySnoc(km, w, Log1(z), Lookup(x));
    var r := Record(x, Tap(true, 1));
    ModsTapPress(km, Replay(km, w, Log2(z, x)), r, tap);
    ReplaySnoc(km, w, Log2(z, x), Process(r, false, true));
    ReplaySnoc(km, w, Log3(z, x), Lookup(z'));
    ReplaySnoc(km, w, Log3(z, x) + [Lookup(z')], Process(Fresh(z'), false, false));
    MomentaryMeans(Replay(km, w, Log3(z, x) + [Lookup(z')]), Fresh(z'));
    LayerOneOff();
    var r0 := Record(x, Tap(true, 0));
    PlainKeeps(km, Replay(km, w, Log4(z, x, z')), r0, low, 0, Mods(tap));
    ReplaySnoc(km, w, Log4(z, x, z'), Process(r0, false, false));
  }

  lemma RollAnswers(km: Keymap, w: World, z: Event, x: Event, y: Event, x': Event, z': Event, y': Event,
                    tap: Action, low: Action, plain: Action)
    requires Layout(km, z.key, x.key, y.key, tap, low, plain) && w.layers == 0 && w.defaults == 0 && w.kb.realMods == 0
    requires Roll(z, x, y, x', z', y')
    ensures Answers(Wire(km, w, 200), z, x, y, x', z')
  {
    hide Replay, Perform, CurrentLayer, Mods, Log1, Log2, Log3, Log4, Log5;
    RollWorlds(km, w, z, x, y, x', z', tap, low, plain);
    MomentaryKind();
    PlainNoTap(plain);
  }

  lemma PlainNoTap(a: Action)
    requires PlainKey(a)
    ensures !IsTapAction(a)
  {
  }

  // Every key is released and the machine idle, and the modifiers of x's
  // cancelled tap are still in the report.
  lemma CancelledTapSticks(km: Keymap, w: World, z: Event, x: Event, y: Event, x': Event, z': Event, y': Event,
                           tap: Action, low: Action, plain: Action)
    requires Layout(km, z.key, x.key, y.key, tap, low, plain) && w.layers == 0 && w.defaults == 0 && w.kb.realMods == 0
    requires Roll(z, x, y, x', z', y')
    ensures var s := Run(Wire(km, w, 200), IDLE, RollInput(z, x, y, x', z', y'));
      s.tk == NO_RECORD && s.buf == [] && Replay(km, w, s.log).kb.realMods == Mods(tap)
  {
    hide Replay, Perform, CurrentLayer, Mods, Log1, Log2, Log3, Log4, Log5, Run, Wire, PlainKey, Answers, ProcessAction;
    RollAnswers(km, w, z, x, y, x', z', y', tap, low, plain);
    RollRuns(Wire(km, w, 200), z, x, y, x', z', y');
    RollWorlds(km, w, z, x, y, x', z', tap, low, plain);
    var log5, m := Log5(z, x, z'), Mods(tap);
    ReplaySnoc(km, w, log5, Lookup(y));
    var v := Replay(km, w, log5 + [Lookup(y)]);
    ReplaySnoc(km, w, log5 + [Lookup(y)], Process(Fresh(y), false, false));
    PlainKeeps(km, v, Fresh(y), plain, 0, m);
    var log := log5 + [Lookup(y)] + [Process(Fresh(y), false, false)];
    var k := Record(x', Tap(true, 0));
    PlainKeeps(km, Replay(km, w, log), k, low, 0, m);
    ReplaySnoc(km, w, log, Process(k, false, false));
    PlainKeeps(km, Replay(km, w, log + [Process(k, false, false)]), Fresh(y'), plain, 0, m);
    ReplaySnoc(km, w, log + [Process(k, false, false)], Process(Fresh(y'), false, false));
  }
}
