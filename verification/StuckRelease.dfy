// A key that sticks: an input of alternating, fully released keys after which
// the report still holds one of them, because its release overtook its press.
module StuckRelease {
  import opened KeyEvents
  import opened KeyList
  import KeyboardState
  import opened ModBits
  import opened ActionCode
  import opened Actions
  import opened StuckKeys
  import opened Tapping
  import opened TapTrains
  import opened KeyOrder
  import opened KeyPairs
  import opened Wired
  import opened Overtaking
  import opened EndToEnd

  // A tap key that only switches a layer while it is held.
  predicate HoldsLayer(a: Action) { IsLayerTapKind(a) && IsTapAction(a) }

  lemma QuietCall(km: Keymap, w: World, log: seq<Call>, call: Call, kb: KeyboardState.Kbd)
    requires SameHeld(Replay(km, w, log).kb, kb)
    requires call.Process? ==> call.rec.tap.count == 0 && Real(call.rec.event)
                               && forall l: nat :: HoldsLayer(km(l, call.rec.event.key))
    requires !call.Overflow?
    ensures SameHeld(Replay(km, w, log + [call]).kb, kb)
  {
    hide Perform, Replay, HoldsLayer, CurrentLayer, Pressed, Released, IsTapAction, IsLayerTapKind;
    ReplaySnoc(km, w, log, call);
    var v := Replay(km, w, log);
    if call.Process? {
      var r := call.rec;
      var l := ResolvesOn(km, v, r.event);
      var (v', a) := Resolve(km, v, r.event);
      assert HoldsLayer(km(l, r.event.key));
      HoldShare(a);
      PerformEffect(v', a, r, Held(a, false));
      NothingEffect(v'.kb);
    }
  }

  lemma HoldShare(a: Action)
    requires HoldsLayer(a)
    ensures Releases(a) && ShareOf(Held(a, false)) == NOTHING
    ensures forall r: Record :: r.tap.count == 0 ==> !CountsAsTap(a, r)
  {
  }

  // An ordinary key of one action on all layers.
  predicate PlainKey(a: Action) { IsKeyKind(a) && IsKey(KeyCode(a)) }

  lemma PlainCall(km: Keymap, w: World, log: seq<Call>, r: Record, kb: KeyboardState.Kbd, a: Action)
    requires SameHeld(Replay(km, w, log).kb, kb) && kb.cap > 0 && Real(r.event) && r.tap == NO_TAP
    requires PlainKey(a) && forall l: nat :: km(l, r.event.key) == a
    ensures var s := Share(KeyCode(a), Mods(a), 0);
      SameHeld(Replay(km, w, log + [Process(r, false, false)]).kb,
               if r.event.pressed then Pressed(kb, s) else Released(kb, s))
  {
    hide Perform, Replay, CurrentLayer, Mods, KeyCode;
    ReplaySnoc(km, w, log, Process(r, false, false));
    var v := Replay(km, w, log);
    var l := ResolvesOn(km, v, r.event);
    PlainShare(a);
    PerformEffect(Resolve(km, v, r.event).0, a, r, Held(a, false));
  }

  lemma PlainShare(a: Action)
    requires PlainKey(a)
    ensures Releases(a) && ShareOf(Held(a, false)) == Share(KeyCode(a), Mods(a), 0)
  {
    hide KeyCode, Mods;
  }

  // Three layer-tap keys and one ordinary key, nothing else that taps.
  ghost predicate FourKeys(km: Keymap, p: KeyPos, q: KeyPos, r: KeyPos, b: KeyPos, a: Action) {
    && p != q && p != r && p != b && q != r && q != b && r != b
    && PlainKey(a) && (forall l: nat :: km(l, b) == a)
    && (forall l: nat, key: KeyPos :: key in {p, q, r} ==> HoldsLayer(km(l, key)))
    && (forall l: nat, key: KeyPos :: IsTapAction(km(l, key)) <==> key in {p, q, r})
  }

  // The tap keys and b come up again.
  function WholeInput(p: Event, q: Event, r: Event, ts: seq<nat>, b: Event, up: Event): seq<Event> {
    [p, q, r] + Ticks(ts) + [b, Tick(201)] + [up] +
    [Release(p.key, 221), Release(q.key, 221), Release(r.key, 221)]
  }

  // b goes down and up, its release is processed first, and it stays in the
  // report with every key released and the machine idle.
  lemma OvertakenKeySticks(km: Keymap, w: World, p: Event, q: Event, r: Event, ts: seq<nat>, b: Event, up: Event,
                           a: Action)
    requires FourKeys(km, p.key, q.key, r.key, b.key, a) && w.kb.cap > 0 && RestsEmpty(w.kb)
    requires ThreeHeld(Wire(km, w, 200), (key: KeyPos) => key in {p.key, q.key, r.key}, p, q, r, ts, b, up)
    ensures var s := Run(Wire(km, w, 200), IDLE, WholeInput(p, q, r, ts, b, up));
      && s.tk == NO_RECORD && s.buf == []
      && Replay(km, w, s.log).kb.keys == [KeyCode(a)] && Replay(km, w, s.log).kb.weakMods == Mods(a)
  {
    hide Wire, Run, Replay, Perform, HoldsLayer, IsTapAction, PlainKey, Ticks, KeyCode, Mods, Pressed, Released,
      Join, Without;
    var c := Wire(km, w, 200);
    var taps := (key: KeyPos) => key in {p.key, q.key, r.key};
    WireTapKeys(km, w, 200, taps);
    ReleaseFirst(c, taps, p, q, r, ts, b, up);
    var log1 := Held3(p, q, r);
    var log2 := log1 + [Process(Fresh(up), false, false)];
    var log3 := log2 + [Lookup(b)] + [Process(Fresh(b), false, false)];
    assert log3 == log1 + [Process(Fresh(up), false, false), Lookup(b), Process(Fresh(b), false, false)];
    var s3 := State(NO_RECORD, [], log3);
    ThreeUp(c, s3, p.key, q.key, r.key);
    RunConcat(c, IDLE, [p, q, r] + Ticks(ts) + [b, Tick(201)] + [up],
              [Release(p.key, 221), Release(q.key, 221), Release(r.key, 221)]);
    QuietStart(km, w, p, q, r);
    PlainCall(km, w, log1, Fresh(up), w.kb, a);
    var share := Share(KeyCode(a), Mods(a), 0);
    QuietCall(km, w, log2, Lookup(b), Released(w.kb, share));
    CapStays(w.kb, share);
    PlainCall(km, w, log2 + [Lookup(b)], Fresh(b), Released(w.kb, share), a);
    QuietEnd(km, w, log3, p.key, q.key, r.key, Pressed(Released(w.kb, share), share));
    PlainIsKey(a);
    EmptyThenOne(w.kb, KeyCode(a), Mods(a));
  }

  lemma PlainIsKey(a: Action)
    requires PlainKey(a)
    ensures KeyCode(a) != NO_KEY
  {
  }

  lemma CapStays(kb: KeyboardState.Kbd, s: Share)
    ensures Released(kb, s).cap == kb.cap
  {
  }

  lemma EmptyThenOne(kb: KeyboardState.Kbd, code: Code, m: bv8)
    requires RestsEmpty(kb) && kb.cap > 0 && code != NO_KEY
    ensures var k := Pressed(Released(kb, Share(code, m, 0)), Share(code, m, 0)); k.keys == [code] && k.weakMods == m
  {
  }

  lemma ThreeUp(c: Setup, s: State, p: KeyPos, q: KeyPos, r: KeyPos)
    requires s.tk == NO_RECORD && s.buf == [] && RealKey(p) && RealKey(q) && RealKey(r)
    ensures Run(c, s, [Release(p, 221), Release(q, 221), Release(r, 221)]) ==
            s.(log := s.log + [Tagged(Release(p, 221), 0)] + [Tagged(Release(q, 221), 0)]
                      + [Tagged(Release(r, 221), 0)])
  {
    hide Step, Run, Tagged;
    var es := [Release(p, 221), Release(q, 221), Release(r, 221)];
    var log1 := s.log + [Tagged(Release(p, 221), 0)];
    IdleRelease(c, s.log, es[0]);
    IdleRelease(c, log1, es[1]);
    IdleRelease(c, log1 + [Tagged(Release(q, 221), 0)], es[2]);
    assert es == [es[0], es[1]] + [es[2]];
    RunTwo(c, s, es[0], es[1]);
    RunConcat(c, s, [es[0], es[1]], [es[2]]);
    RunOne(c, Run(c, s, [es[0], es[1]]), es[2]);
  }

  lemma QuietStart(km: Keymap, w: World, p: Event, q: Event, r: Event)
    requires Real(p) && Real(q) && Real(r)
    requires forall l: nat, key: KeyPos :: key in {p.key, q.key, r.key} ==> HoldsLayer(km(l, key))
    ensures SameHeld(Replay(km, w, Held3(p, q, r)).kb, w.kb)
  {
    hide Replay, HoldsLayer;
    var calls := Held3(p, q, r);
    assert SameHeld(Replay(km, w, []).kb, w.kb) by { NoReplay(km, w); }
    QuietCall(km, w, [], calls[0], w.kb);
    QuietCall(km, w, [] + [calls[0]], calls[1], w.kb);
    QuietCall(km, w, [] + [calls[0]] + [calls[1]], calls[2], w.kb);
    QuietCall(km, w, [] + [calls[0]] + [calls[1]] + [calls[2]], calls[3], w.kb);
    QuietCall(km, w, [] + [calls[0]] + [calls[1]] + [calls[2]] + [calls[3]], calls[4], w.kb);
    QuietCall(km, w, [] + [calls[0]] + [calls[1]] + [calls[2]] + [calls[3]] + [calls[4]], calls[5], w.kb);
    assert [] + [calls[0]] + [calls[1]] + [calls[2]] + [calls[3]] + [calls[4]] + [calls[5]] == calls;
  }

  lemma NoReplay(km: Keymap, w: World)
    ensures Replay(km, w, []) == w
  {
  }

  lemma QuietEnd(km: Keymap, w: World, log: seq<Call>, p: KeyPos, q: KeyPos, r: KeyPos, kb: KeyboardState.Kbd)
    requires SameHeld(Replay(km, w, log).kb, kb) && RealKey(p) && RealKey(q) && RealKey(r)
    requires forall l: nat, key: KeyPos :: key in {p, q, r} ==> HoldsLayer(km(l, key))
    ensures SameHeld(Replay(km, w, log + [Tagged(Release(p, 221), 0)] + [Tagged(Release(q, 221), 0)]
                                   + [Tagged(Release(r, 221), 0)]).kb, kb)
  {
    hide Replay, HoldsLayer;
    QuietCall(km, w, log, Tagged(Release(p, 221), 0), kb);
    QuietCall(km, w, log + [Tagged(Release(p, 221), 0)], Tagged(Release(q, 221), 0), kb);
    QuietCall(km, w, log + [Tagged(Release(p, 221), 0)] + [Tagged(Release(q, 221), 0)], Tagged(Release(r, 221), 0), kb);
  }

  lemma {:induction false} OfTicks(ts: seq<nat>, key: KeyPos)
    requires key != KeyPos(255, 255)
    ensures Of(Ticks(ts), key) == []
    decreases |ts|
  {
    hide Of;
    if ts == [] {
      NoneOf(key);
    } else {
      OfRest(Ticks(ts), key);
      assert Ticks(ts)[1..] == Ticks(ts[1..]);
      OfTicks(ts[1..], key);
    }
  }

  // The same input is one of alternating, fully released keys: what it lacks is
  // smoothness.
  lemma InputIsBalanced(p: Event, q: Event, r: Event, ts: seq<nat>, b: Event, up: Event)
    requires p.key != q.key && p.key != r.key && p.key != b.key && q.key != r.key && q.key != b.key && r.key != b.key
    requires p.pressed && q.pressed && r.pressed && b.pressed && !up.pressed && up.key == b.key
    ensures KeysAlternate(WholeInput(p, q, r, ts, b, up)) && AllReleased(WholeInput(p, q, r, ts, b, up))
  {
    hide Of, Alternates, WholeInput;
    forall key | key != KeyPos(255, 255)
      ensures Alternates(Of(WholeInput(p, q, r, ts, b, up), key)) && |Of(WholeInput(p, q, r, ts, b, up), key)| % 2 == 0
    {
      KeyIsBalanced(p, q, r, ts, b, up, key);
    }
  }

  lemma KeyIsBalanced(p: Event, q: Event, r: Event, ts: seq<nat>, b: Event, up: Event, key: KeyPos)
    requires p.key != q.key && p.key != r.key && p.key != b.key && q.key != r.key && q.key != b.key && r.key != b.key
    requires p.pressed && q.pressed && r.pressed && b.pressed && !up.pressed && up.key == b.key
    requires key != KeyPos(255, 255)
    ensures var x := Of(WholeInput(p, q, r, ts, b, up), key); Alternates(x) && |x| % 2 == 0
  {
    hide Of, Alternates, WholeInput;
    WholeOf(p, q, r, ts, b, up, key);
    if key != p.key && key != q.key && key != r.key && key != b.key {
      NoneAlternate();
    } else {
      var e := if key == p.key then p else if key == q.key then q else if key == r.key then r else b;
      var u := if key == b.key then up else Release(key, 221);
      assert Of(WholeInput(p, q, r, ts, b, up), key) == [e] + [u];
      PairAlternates(e, u);
    }
  }

  lemma NoneAlternate()
    ensures Alternates([])
  {
  }

  lemma PairAlternates(e: Event, u: Event)
    requires e.pressed && !u.pressed
    ensures Alternates([e] + [u])
  {
  }

  lemma WholeOf(p: Event, q: Event, r: Event, ts: seq<nat>, b: Event, up: Event, key: KeyPos)
    requires key != KeyPos(255, 255)
    ensures Of(WholeInput(p, q, r, ts, b, up), key) ==
            One(p, key) + One(q, key) + One(r, key) + One(b, key) + One(up, key) +
            One(Release(p.key, 221), key) + One(Release(q.key, 221), key) + One(Release(r.key, 221), key)
  {
    hide Of, Ticks, One;
    var es := WholeInput(p, q, r, ts, b, up);
    var last := [Release(p.key, 221), Release(q.key, 221), Release(r.key, 221)];
    assert es == [p, q, r] + Ticks(ts) + [b, Tick(201), up] + last;
    OfConcat([p, q, r] + Ticks(ts) + [b, Tick(201), up], last, key);
    OfConcat([p, q, r] + Ticks(ts), [b, Tick(201), up], key);
    OfConcat([p, q, r], Ticks(ts), key);
    OfTicks(ts, key);
    OfThree(p, q, r, key);
    OfThree(b, Tick(201), up, key);
    OfThree(last[0], last[1], last[2], key);
    assert One(Tick(201), key) == [] by { OneOther(Tick(201), key); }
  }

  lemma OneOther(e: Event, key: KeyPos)
    requires e.key != key
    ensures One(e, key) == []
  {
  }

  lemma OfThree(x: Event, y: Event, z: Event, key: KeyPos)
    ensures Of([x, y, z], key) == One(x, key) + One(y, key) + One(z, key)
  {
    hide Of;
    assert [x, y, z] == [x, y] + [z] && [x, y] == [x] + [y];
    OfConcat([x, y], [z], key);
    OfConcat([x], [y], key);
    OfOne(x, key);
    OfOne(y, key);
    OfOne(z, key);
  }
}
