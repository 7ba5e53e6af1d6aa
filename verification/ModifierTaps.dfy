// Modifier keys that outlive their taps, from key events to reports: toggling
// modifiers and one-shot modifiers.
module ModifierTaps {
  import opened KeyEvents
  import opened KeyList
  import opened KeyboardState
  import opened ModBits
  import opened ActionCode
  import opened Actions
  import opened ActionMeanings
  import opened Tapping
  import opened TapTrains
  import opened TapToggle
  import opened Wired

  // ----- Toggling modifiers -----

  function ToggleKey(mods: bv16): Action { ModsTapKey(mods, MODS_TAP_TOGGLE) }

  // The real modifiers after n taps, when they were x before: off before the
  // TAPPING_TOGGLE-th tap, on from it.  If one tap is enough it flips them.
  function AfterTaps(x: bv8, m: bv8, n: nat): bv8 {
    if n == 0 then x
    else if n < TAPPING_TOGGLE then Without(x, m)
    else if TAPPING_TOGGLE > 1 then Join(Without(x, m), m)
    else if Apart(m, x) then Join(x, m)
    else Without(x, m)
  }

  lemma Twice(x: bv8, m: bv8)
    ensures Without(Without(x, m), m) == Without(x, m) == Without(Join(x, m), m)
    ensures Apart(m, Without(x, m))
  {
  }

  lemma RealAfter(kb: Kbd, m: bv8)
    requires m != 0
    ensures var k := RegisterMods(kb, m);
      k.realMods == Join(kb.realMods, m) && k.keys == kb.keys && k.weakMods == kb.weakMods
    ensures var k := UnregisterMods(kb, m);
      k.realMods == Without(kb.realMods, m) && k.keys == kb.keys && k.weakMods == kb.weakMods
  {
    hide Join, Without, Kbd.Mods;
  }

  // The n-th tap on the real modifiers.
  lemma TogglePair(kb: Kbd, x: bv8, m: bv8, n: nat)
    requires n >= 1 && m != 0 && kb.realMods == AfterTaps(x, m, n - 1)
    ensures var k := TapToggleAction(TapToggleAction(kb, m, true, n), m, false, n);
      k.realMods == AfterTaps(x, m, n) && k.keys == kb.keys && k.weakMods == kb.weakMods
  {
    hide Join, Without, Apart, RegisterMods, UnregisterMods;
    Twice(x, m);
    Twice(Without(x, m), m);
    var k1 := TapToggleAction(kb, m, true, n);
    RealAfter(kb, m);
    RealAfter(k1, m);
  }

  lemma TogglePerforms(w: World, mods: bv16, r: Record)
    requires HidBit(mods) != 0
    ensures Perform(w, ToggleKey(mods), r) ==
            w.(kb := TapToggleAction(w.kb, HidBit(mods), r.event.pressed, r.tap.count))
  {
    hide HidBit, ModsTapKey, Mods, KeyCode, Kind, TapToggleAction, Apart;
    Fields(mods, MODS_TAP_TOGGLE);
    OneBitEach(mods, MODS_TAP_TOGGLE);
  }

  // Equal but for the report's modifiers and the layer noted for key.
  predicate SameButMods(w: World, v: World, key: KeyPos) {
    && w.layers == v.layers && w.defaults == v.defaults && w.pressedOn - {key} == v.pressedOn - {key}
    && w.kb.keys == v.kb.keys && w.kb.weakMods == v.kb.weakMods
  }

  lemma ToggledPress(km: Keymap, v: World, mods: bv16, r: Record)
    requires HidBit(mods) != 0 && Real(r.event) && r.event.pressed
    requires PressFinds(km, v.layers, v.defaults, r.event.key, ToggleKey(mods))
    ensures var v', key := ProcessAction(km, v, r).0, r.event.key;
      && v'.kb == TapToggleAction(v.kb, HidBit(mods), true, r.tap.count) && v'.layers == v.layers
      && v'.defaults == v.defaults && v'.pressedOn - {key} == v.pressedOn - {key}
      && km(PressedOn(v', key), key) == ToggleKey(mods)
  {
    hide Perform, PressFinds, HidBit, ToggleKey, TapToggleAction, Resolve, CancelsTap;
    ToggleLookup(km, v, ToggleKey(mods), r.event);
    TogglePerforms(Resolve(km, v, r.event).0, mods, r);
  }

  lemma ToggledRelease(km: Keymap, v: World, mods: bv16, r: Record)
    requires HidBit(mods) != 0 && Real(r.event) && !r.event.pressed
    requires km(PressedOn(v, r.event.key), r.event.key) == ToggleKey(mods)
    ensures ProcessAction(km, v, r).0 == v.(kb := TapToggleAction(v.kb, HidBit(mods), false, r.tap.count))
  {
    hide Perform, HidBit, ToggleKey, TapToggleAction;
    TogglePerforms(v, mods, r);
  }

  // The press of the n-th tap after a history.
  lemma PressAfter(km: Keymap, w: World, log: seq<Call>, mods: bv16, key: KeyPos, down: nat, n: nat)
    requires HidBit(mods) != 0 && RealKey(key) && down != 0 && n >= 1
    requires var v := Replay(km, w, log); PressFinds(km, v.layers, v.defaults, key, ToggleKey(mods))
    ensures var v, v' := Replay(km, w, log), Replay(km, w, log + [Tagged(Press(key, down), n)]);
      && v'.kb == TapToggleAction(v.kb, HidBit(mods), true, Tag15(n)) && v'.layers == v.layers
      && v'.defaults == v.defaults && v'.pressedOn - {key} == v.pressedOn - {key}
      && km(PressedOn(v', key), key) == ToggleKey(mods)
  {
    hide Replay, ProcessAction, PressFinds, HidBit, ToggleKey, TapToggleAction, PressedOn;
    ReplaySnoc(km, w, log, Tagged(Press(key, down), n));
    ToggledPress(km, Replay(km, w, log), mods, Tagged(Press(key, down), n).rec);
  }

  // And its release.
  lemma ReleaseAfter(km: Keymap, w: World, log: seq<Call>, mods: bv16, key: KeyPos, up: nat, n: nat)
    requires HidBit(mods) != 0 && RealKey(key) && up != 0 && n >= 1
    requires km(PressedOn(Replay(km, w, log), key), key) == ToggleKey(mods)
    ensures var v := Replay(km, w, log);
      Replay(km, w, log + [Tagged(Release(key, up), n)]) ==
      v.(kb := TapToggleAction(v.kb, HidBit(mods), false, Tag15(n)))
  {
    hide Replay, ProcessAction, HidBit, ToggleKey, TapToggleAction, PressedOn;
    ReplaySnoc(km, w, log, Tagged(Release(key, up), n));
    ToggledRelease(km, Replay(km, w, log), mods, Tagged(Release(key, up), n).rec);
  }

  lemma ToggledOnce(km: Keymap, w: World, log: seq<Call>, mods: bv16, key: KeyPos, x: bv8, down: nat, up: nat, n: nat)
    requires HidBit(mods) != 0 && RealKey(key) && down != 0 && up != 0 && n >= 1
    requires var v := Replay(km, w, log);
      && PressFinds(km, v.layers, v.defaults, key, ToggleKey(mods))
      && v.kb.realMods == AfterTaps(x, HidBit(mods), Tag15(n) - 1)
    ensures var v := Replay(km, w, log);
      var v' := Replay(km, w, log + [Tagged(Press(key, down), n)] + [Tagged(Release(key, up), n)]);
      SameButMods(v', v, key) && v'.kb.realMods == AfterTaps(x, HidBit(mods), Tag15(n))
  {
    hide *;
    var p := Tagged(Press(key, down), n);
    PressAfter(km, w, log, mods, key, down, n);
    ReleaseAfter(km, w, log + [p], mods, key, up, n);
    var v := Replay(km, w, log);
    var v1 := Replay(km, w, log + [p]);
    OneToggle(v, v1, v1.(kb := TapToggleAction(v1.kb, HidBit(mods), false, Tag15(n))), HidBit(mods), key, x, Tag15(n));
  }

  lemma OneToggle(v: World, v1: World, v2: World, m: bv8, key: KeyPos, x: bv8, n: nat)
    requires n >= 1 && m != 0 && v.kb.realMods == AfterTaps(x, m, n - 1)
    requires v1.kb == TapToggleAction(v.kb, m, true, n) && v1.layers == v.layers
    requires v1.defaults == v.defaults && v1.pressedOn - {key} == v.pressedOn - {key}
    requires v2 == v1.(kb := TapToggleAction(v1.kb, m, false, n))
    ensures SameButMods(v2, v, key) && v2.kb.realMods == AfterTaps(x, m, n)
  {
    hide AfterTaps, TapToggleAction;
    TogglePair(v.kb, x, m, n);
  }

  function Tag15(n: nat): (t: nat)
    ensures n >= 1 ==> t >= 1
  {
    if n <= MAX_TAPS then n else MAX_TAPS
  }

  // Past the fifteenth tap nothing changes any more.
  lemma Saturated(x: bv8, m: bv8, n: nat)
    requires n > MAX_TAPS
    ensures AfterTaps(x, m, MAX_TAPS - 1) == AfterTaps(x, m, MAX_TAPS) == AfterTaps(x, m, n)
  {
  }

  lemma {:induction false} ToggledTaps(km: Keymap, w: World, log: seq<Call>, mods: bv16, key: KeyPos, x: bv8,
                                       strokes: seq<Stroke>, n: nat)
    requires HidBit(mods) != 0 && RealKey(key) && n >= 1
    requires forall i :: 0 <= i < |strokes| ==> strokes[i].down != 0 && strokes[i].up != 0
    requires var v := Replay(km, w, log);
      PressFinds(km, v.layers, v.defaults, key, ToggleKey(mods)) && v.kb.realMods == AfterTaps(x, HidBit(mods), n - 1)
    ensures var v, v' := Replay(km, w, log), Replay(km, w, log + Delivered(key, strokes, n));
      SameButMods(v', v, key) && v'.kb.realMods == AfterTaps(x, HidBit(mods), n - 1 + |strokes|)
    decreases |strokes|
  {
    hide Replay, PressFinds, HidBit, ToggleKey, AfterTaps, Tagged;
    if strokes == [] {
      assert log + Delivered(key, strokes, n) == log;
    } else {
      var st := strokes[0];
      var log' := log + [Tagged(Press(key, st.down), n)] + [Tagged(Release(key, st.up), n)];
      if n > MAX_TAPS {
        Saturated(x, HidBit(mods), n);
        SaturatedBefore(x, HidBit(mods), n);
      }
      ToggledOnce(km, w, log, mods, key, x, st.down, st.up, n);
      ToggledTaps(km, w, log', mods, key, x, strokes[1..], n + 1);
      assert log + Delivered(key, strokes, n) == log' + Delivered(key, strokes[1..], n + 1);
    }
  }

  lemma SaturatedBefore(x: bv8, m: bv8, n: nat)
    requires n > MAX_TAPS
    ensures AfterTaps(x, m, n - 1) == AfterTaps(x, m, MAX_TAPS - 1)
  {
  }

  // From key events to modifiers: n taps of a toggling modifier key on an idle
  // machine leave its modifiers on exactly if there are at least TAPPING_TOGGLE,
  // and touch no other modifier, key or layer.
  lemma {:induction false} TapsToggleMods(km: Keymap, w: World, term: nat, log: seq<Call>, mods: bv16, key: KeyPos,
                                          strokes: seq<Stroke>)
    requires RealKey(key) && strokes != [] && TimelyTrain(Wire(km, w, term), strokes) && HidBit(mods) != 0
    requires var v := Replay(km, w, log); PressFinds(km, v.layers, v.defaults, key, ToggleKey(mods))
    ensures var v := Replay(km, w, log);
      var v' := Replay(km, w, Tapping.Run(Wire(km, w, term), State(NO_RECORD, [], log), TrainEvents(key, strokes)).log);
      SameButMods(v', v, key) && v'.kb.realMods == AfterTaps(v.kb.realMods, HidBit(mods), |strokes|)
  {
    hide Replay, HidBit, Tapping.Run, TrainEvents, Tagged, Perform, ToggleKey, Diff, CurrentLayer, Timely, IsTapAction;
    var c, v := Wire(km, w, term), Replay(km, w, log);
    var e := Press(key, strokes[0].down);
    ToggleLookup(km, v, ToggleKey(mods), e);
    ToggleKeyTaps(mods);
    TapTrain(c, key, log, strokes);
    ReplaySnoc(km, w, log, Lookup(e));
    ToggledTaps(km, w, log + [Lookup(e)], mods, key, v.kb.realMods, strokes, 1);
  }

  lemma ToggleKeyTaps(mods: bv16)
    ensures IsTapAction(ToggleKey(mods))
  {
    hide IsTapAction, ModsTapKey;
    TapKeysAre(mods, MODS_TAP_TOGGLE, 0, NO_KEY);
  }

  // ----- One-shot modifiers -----

  function OneShotKey(mods: bv16): Action { ModsTapKey(mods, MODS_ONESHOT) }

  lemma OneShotPerforms(w: World, mods: bv16, r: Record)
    requires HidBit(mods) != 0
    ensures Perform(w, OneShotKey(mods), r) ==
            w.(kb := OneshotAction(w.kb, HidBit(mods), r.event.pressed, r.tap.count))
  {
    hide HidBit, ModsTapKey, Mods, KeyCode, Kind, OneshotAction;
    Fields(mods, MODS_ONESHOT);
    OneBitEach(mods, MODS_ONESHOT);
  }

  // Tapped once, press and release send nothing and leave the modifiers pending.
  lemma OneShotTapped(w: World, mods: bv16, p: Record, u: Record)
    requires HidBit(mods) != 0 && p.event.pressed && !u.event.pressed && p.tap.count == u.tap.count == 1
    ensures Perform(Perform(w, OneShotKey(mods), p), OneShotKey(mods), u) ==
            w.(kb := w.kb.(oneshotMods := HidBit(mods)))
  {
    hide HidBit, OneShotKey, Perform, RegisterMods, UnregisterMods;
    OneShotPerforms(w, mods, p);
    OneShotPerforms(Perform(w, OneShotKey(mods), p), mods, u);
  }

  // Held, or tapped again, they are ordinary modifiers while the key is down; a
  // pending one-shot modifier is given up with its release.
  lemma OneShotHeld(w: World, mods: bv16, p: Record, u: Record)
    requires HidBit(mods) != 0 && p.event.pressed && !u.event.pressed && p.tap.count == u.tap.count != 1
    ensures var m := HidBit(mods);
      var k1 := Perform(w, OneShotKey(mods), p).kb;
      var k2 := Perform(Perform(w, OneShotKey(mods), p), OneShotKey(mods), u).kb;
      && k1.realMods == Join(w.kb.realMods, m) && Told(k1, w.kb.oneshotMods)
      && k2.realMods == Without(Join(w.kb.realMods, m), m) && k2.oneshotMods == 0 && Told(k2, 0)
      && k1.keys == k2.keys == w.kb.keys && k1.weakMods == k2.weakMods == w.kb.weakMods
  {
    hide HidBit, OneShotKey, Perform, Join, Without, Kbd.Mods, Told;
    var m := HidBit(mods);
    OneShotPerforms(w, mods, p);
    var w1 := Perform(w, OneShotKey(mods), p);
    OneShotPerforms(w1, mods, u);
    SendTells(w.kb.AddMods(m));
    SendTells(w1.kb.(oneshotMods := 0).DelMods(m));
  }

  // A pending one-shot modifier is in the report that brings the next key and
  // not in the one that takes it out.
  lemma NextKeyHasIt(w: World, key: Code, m: bv8, p: Record, u: Record)
    requires IsKey(key) && w.kb.oneshotMods == m && w.kb.cap > 0 && key !in w.kb.keys
    requires p.event.pressed && !u.event.pressed
    ensures var b := ModsKey(0, key);
      var k1 := Perform(w, b, p).kb;
      var k2 := Perform(Perform(w, b, p), b, u).kb;
      && key in k1.keys && k1.LastReport() == Report(Join(Join(w.kb.realMods, w.kb.weakMods), m), k1.keys)
      && k1.oneshotMods == 0
      && key !in k2.keys && k2.oneshotMods == 0
      && k2.LastReport() == Report(Join(w.kb.realMods, w.kb.weakMods), k2.keys)
  {
    hide Join, Kbd.Mods, Kbd.Send, RegisterCode, UnregisterCode, ModsKey, Mods, KeyCode, Kind, IsKey;
    Fields(0, key);
    NoMods(key);
    PlainPresses(w.kb, key);
    PlainReleases(RegisterCode(w.kb, key), key);
    JoinNothing(Join(w.kb.realMods, w.kb.weakMods));
  }

  lemma PlainPresses(kb: Kbd, key: Code)
    requires IsKey(key) && kb.cap > 0
    ensures var k := RegisterCode(kb, key);
      && key in k.keys && k.oneshotMods == 0 && k.realMods == kb.realMods && k.weakMods == kb.weakMods
      && k.LastReport() == Report(Join(Join(kb.realMods, kb.weakMods), kb.oneshotMods), k.keys)
  {
    hide Join;
    SendTells(kb.AddKey(key));
  }

  lemma PlainReleases(kb: Kbd, key: Code)
    requires IsKey(key)
    ensures var k := UnregisterCode(kb, key);
      && key !in k.keys && (kb.oneshotMods == 0 ==> k.oneshotMods == 0)
      && k.LastReport() == Report(Join(Join(kb.realMods, kb.weakMods), kb.oneshotMods), k.keys)
  {
    hide Join;
    SendTells(kb.DelKey(key));
  }
}
