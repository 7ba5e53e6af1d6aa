// The tap/hold machine driving the action layer: a run of taps on a layer
// toggle key, from key events to layer bits.
module TapToggle {
  import opened KeyEvents
  import opened ActionCode
  import opened Actions
  import opened Tapping
  import opened TapTrains
  import opened Wired

  // ACTION_LAYER_TAP_TOGGLE of some layer.
  predicate IsToggle(a: Action) { IsLayerTapKind(a) && TapCode(a) == OP_TAP_TOGGLE }

  // A press of key resolves to a while the layers are `layers`.
  predicate PressFinds(km: Keymap, layers: bv32, defaults: bv32, key: KeyPos, a: Action) {
    km(CurrentLayer(km, Active(layers, defaults), key), key) == a
  }

  function Flip(state: bv32, a: Action): bv32 { Invert(state, TapLayer(a)) }

  lemma FlipTwice(state: bv32, a: Action)
    ensures Flip(Flip(state, a), a) == state
  {
  }

  // Equal up to the layer noted for key.
  predicate SameBut(w: World, v: World, key: KeyPos) {
    w.kb == v.kb && w.layers == v.layers && w.defaults == v.defaults
    && w.pressedOn - {key} == v.pressedOn - {key}
  }

  lemma TogglePerform(w: World, a: Action, r: Record)
    requires IsToggle(a)
    ensures Perform(w, a, r) ==
            w.(layers := if (if r.event.pressed then r.tap.count < TAPPING_TOGGLE else r.tap.count <= TAPPING_TOGGLE)
                         then Flip(w.layers, a) else w.layers)
  {
  }

  lemma ToggleLookup(km: Keymap, w: World, a: Action, e: Event)
    requires Real(e) && e.pressed && PressFinds(km, w.layers, w.defaults, e.key, a)
    ensures SameBut(Resolve(km, w, e).0, w, e.key) && Resolve(km, w, e).1 == a
    ensures km(PressedOn(Resolve(km, w, e).0, e.key), e.key) == a
  {
    hide CurrentLayer, Active, IsToggle;
  }

  lemma TogglePress(km: Keymap, w: World, a: Action, r: Record)
    requires IsToggle(a) && Real(r.event) && r.event.pressed
    requires PressFinds(km, w.layers, w.defaults, r.event.key, a)
    ensures var w' := ProcessAction(km, w, r).0;
      && SameBut(w', w.(layers := if r.tap.count < TAPPING_TOGGLE then Flip(w.layers, a) else w.layers), r.event.key)
      && km(PressedOn(w', r.event.key), r.event.key) == a
  {
    hide Resolve, CurrentLayer, Perform, IsToggle, Flip, PressFinds;
    ToggleLookup(km, w, a, r.event);
    TogglePerform(Resolve(km, w, r.event).0, a, r);
  }

  lemma ToggleRelease(km: Keymap, w: World, a: Action, r: Record)
    requires IsToggle(a) && Real(r.event) && !r.event.pressed
    requires km(PressedOn(w, r.event.key), r.event.key) == a
    ensures ProcessAction(km, w, r).0 ==
            w.(layers := if r.tap.count <= TAPPING_TOGGLE then Flip(w.layers, a) else w.layers)
  {
    hide Perform, IsToggle, Flip;
    TogglePerform(w, a, r);
  }

  // The layers before the n-th tap, when they were `layers` before the first.
  function Before(layers: bv32, a: Action, n: nat): bv32 {
    if n <= TAPPING_TOGGLE then layers else Flip(layers, a)
  }

  // Every press of the train finds the toggle action.
  predicate Stays(km: Keymap, layers: bv32, defaults: bv32, key: KeyPos, a: Action, last: nat) {
    && PressFinds(km, layers, defaults, key, a)
    && (last > TAPPING_TOGGLE ==> PressFinds(km, Flip(layers, a), defaults, key, a))
  }

  // One tap: the n-th press/release pair.
  lemma ToggleTap(km: Keymap, w: World, log: seq<Call>, layers: bv32, a: Action, key: KeyPos,
                  down: nat, up: nat, n: nat)
    requires IsToggle(a) && RealKey(key) && down != 0 && up != 0 && n >= 1
    requires var v := Replay(km, w, log);
      v.layers == Before(layers, a, n) && PressFinds(km, v.layers, v.defaults, key, a)
    ensures var v, v' := Replay(km, w, log),
                         Replay(km, w, log + [Tagged(Press(key, down), n), Tagged(Release(key, up), n)]);
      SameBut(v', v.(layers := Before(layers, a, n + 1)), key)
  {
    hide Flip, ProcessAction, Replay, PressFinds, IsToggle;
    var p, r := Tagged(Press(key, down), n), Tagged(Release(key, up), n);
    assert log + [p, r] == log + [p] + [r];
    ReplaySnoc(km, w, log, p);
    ReplaySnoc(km, w, log + [p], r);
    var v := Replay(km, w, log);
    TogglePress(km, v, a, p.rec);
    ToggleRelease(km, ProcessAction(km, v, p.rec).0, a, r.rec);
    FlipTwice(layers, a);
  }

  lemma {:induction false} ToggleTaps(km: Keymap, w: World, log: seq<Call>, layers: bv32, a: Action, key: KeyPos,
                                      strokes: seq<Stroke>, n: nat)
    requires IsToggle(a) && RealKey(key) && n >= 1
    requires forall i :: 0 <= i < |strokes| ==> strokes[i].down != 0 && strokes[i].up != 0
    requires var v := Replay(km, w, log);
      v.layers == Before(layers, a, n) && Stays(km, layers, v.defaults, key, a, n + |strokes| - 1)
    ensures var v, v' := Replay(km, w, log), Replay(km, w, log + Delivered(key, strokes, n));
      SameBut(v', v.(layers := Before(layers, a, n + |strokes|)), key)
    decreases |strokes|
  {
    hide Flip, Replay, PressFinds, IsToggle, Tagged;
    if strokes == [] {
      assert log + Delivered(key, strokes, n) == log;
    } else {
      var st := strokes[0];
      var pair := [Tagged(Press(key, st.down), n), Tagged(Release(key, st.up), n)];
      ToggleTap(km, w, log, layers, a, key, st.down, st.up, n);
      var v, v1 := Replay(km, w, log), Replay(km, w, log + pair);
      ToggleTaps(km, w, log + pair, layers, a, key, strokes[1..], n + 1);
      assert log + Delivered(key, strokes, n) == log + pair + Delivered(key, strokes[1..], n + 1);
    }
  }

  // From key events to layers: n taps of a layer toggle key on an idle machine
  // flip its layer bit if there are at least TAPPING_TOGGLE of them, and
  // change nothing else of the report and the layers.
  lemma {:induction false} TapTrainToggles(km: Keymap, w: World, term: nat, log: seq<Call>, a: Action, key: KeyPos,
                                           strokes: seq<Stroke>)
    requires RealKey(key) && strokes != [] && TimelyTrain(Wire(km, w, term), strokes) && IsToggle(a)
    requires var v := Replay(km, w, log); Stays(km, v.layers, v.defaults, key, a, |strokes|)
    ensures var v := Replay(km, w, log);
      var v' := Replay(km, w, Run(Wire(km, w, term), State(NO_RECORD, [], log), TrainEvents(key, strokes)).log);
      SameBut(v', v.(layers := if |strokes| >= TAPPING_TOGGLE then Flip(v.layers, a) else v.layers), key)
  {
    hide Flip, Replay, IsToggle, Run, TrainEvents, Tagged, Perform;
    var c, v := Wire(km, w, term), Replay(km, w, log);
    var e := Press(key, strokes[0].down);
    ToggleLookup(km, v, a, e);
    ToggleIsTap(a);
    TapTrain(c, key, log, strokes);
    ReplaySnoc(km, w, log, Lookup(e));
    ToggleTaps(km, w, log + [Lookup(e)], v.layers, a, key, strokes, 1);
  }

  lemma ToggleIsTap(a: Action)
    requires IsToggle(a)
    ensures IsTapAction(a)
  {
  }

  // Holding the key past the tapping term and letting go leaves every layer
  // bit as it was.
  lemma {:induction false} HoldRestores(km: Keymap, w: World, term: nat, log: seq<Call>, a: Action, key: KeyPos,
                                        down: nat, early: seq<nat>, late: nat, more: seq<nat>, up: nat)
    requires RealKey(key) && down != 0 && up != 0 && IsToggle(a)
    requires Timely(Wire(km, w, term), down, early) && Diff(late, down) >= term
    requires var v := Replay(km, w, log); PressFinds(km, v.layers, v.defaults, key, a)
    ensures var v := Replay(km, w, log);
      var es := [Press(key, down)] + (Ticks(early) + ([Tick(late)] + (Ticks(more) + [Release(key, up)])));
      SameBut(Replay(km, w, Run(Wire(km, w, term), State(NO_RECORD, [], log), es).log), v, key)
  {
    hide Flip, Replay, IsToggle, Run, Perform, PressFinds;
    var c, v := Wire(km, w, term), Replay(km, w, log);
    var p, r := Press(key, down), Release(key, up);
    ToggleLookup(km, v, a, p);
    ToggleIsTap(a);
    Hold(c, key, log, down, early, late, more, up);
    ReplaySnoc(km, w, log, Lookup(p));
    var log1 := log + [Lookup(p)];
    var v1 := Replay(km, w, log1);
    TogglePress(km, v1, a, Tagged(p, 0).rec);
    ReplaySnoc(km, w, log1, Tagged(p, 0));
    var log2 := log1 + [Tagged(p, 0)];
    ToggleRelease(km, Replay(km, w, log2), a, Tagged(r, 0).rec);
    ReplaySnoc(km, w, log2, Tagged(r, 0));
    FlipTwice(v.layers, a);
    assert log2 + [Tagged(r, 0)] == log + [Lookup(p), Tagged(p, 0), Tagged(r, 0)];
  }
}
