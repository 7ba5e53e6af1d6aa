// One-shot modifiers from key events to reports: tapped, the modifier is in the
// report that brings the next key and in no later one.
module OneShotKeys {
  import opened KeyEvents
  import opened KeyList
  import opened KeyboardState
  import opened ModBits
  import opened ActionCode
  import opened Actions
  import opened ActionMeanings
  import opened ModifierTaps
  import opened Tapping
  import opened TapTrains
  import opened TapGaps
  import opened TapToggle
  import opened Wired

  // A press whose key resolves to a, after a history.
  lemma PressReplays(km: Keymap, w: World, log: seq<Call>, e: Event, n: nat, a: Action)
    requires var v := Replay(km, w, log); Real(e) && e.pressed && PressFinds(km, v.layers, v.defaults, e.key, a)
    ensures var v1 := Resolve(km, Replay(km, w, log), e).0;
      && Replay(km, w, log + [Tagged(e, n)]) == Perform(v1, a, Tagged(e, n).rec)
      && SameBut(v1, Replay(km, w, log), e.key) && km(PressedOn(v1, e.key), e.key) == a
  {
    hide Replay, PressFinds, Perform, Resolve, CancelsTap;
    ReplaySnoc(km, w, log, Tagged(e, n));
    ToggleLookup(km, Replay(km, w, log), a, e);
  }

  lemma ReleaseReplays(km: Keymap, w: World, log: seq<Call>, e: Event, n: nat, a: Action)
    requires Real(e) && !e.pressed && km(PressedOn(Replay(km, w, log), e.key), e.key) == a
    ensures Replay(km, w, log + [Tagged(e, n)]) == Perform(Replay(km, w, log), a, Tagged(e, n).rec)
  {
    hide Replay, Perform, PressedOn, CancelsTap;
    ReplaySnoc(km, w, log, Tagged(e, n));
  }

  lemma LookupReplays(km: Keymap, w: World, log: seq<Call>, e: Event, a: Action)
    requires var v := Replay(km, w, log); Real(e) && e.pressed && PressFinds(km, v.layers, v.defaults, e.key, a)
    ensures SameBut(Replay(km, w, log + [Lookup(e)]), Replay(km, w, log), e.key)
  {
    hide Replay, PressFinds, Resolve;
    ReplaySnoc(km, w, log, Lookup(e));
    ToggleLookup(km, Replay(km, w, log), a, e);
  }

  // The calls of one tap of a one-shot key leave its modifiers pending.
  lemma TapReplays(km: Keymap, w: World, log: seq<Call>, mods: bv16, p: Event, u: Event)
    requires HidBit(mods) != 0 && Real(p) && p.pressed && Real(u) && !u.pressed && p.key == u.key
    requires var v := Replay(km, w, log); PressFinds(km, v.layers, v.defaults, p.key, OneShotKey(mods))
    ensures Replay(km, w, log + [Lookup(p)] + [Tagged(p, 1)] + [Tagged(u, 1)]).kb ==
            Replay(km, w, log).kb.(oneshotMods := HidBit(mods))
  {
    hide Replay, PressFinds, Resolve, Perform, HidBit, OneShotKey;
    var a := OneShotKey(mods);
    var log1 := log + [Lookup(p)];
    LookupReplays(km, w, log, p, a);
    PressReplays(km, w, log1, p, 1, a);
    var v1 := Resolve(km, Replay(km, w, log1), p).0;
    TapPerforms(v1, mods, Tagged(p, 1).rec, Tagged(u, 1).rec);
    ReleaseReplays(km, w, log1 + [Tagged(p, 1)], u, 1, a);
  }

  lemma TapPerforms(w: World, mods: bv16, p: Record, u: Record)
    requires HidBit(mods) != 0 && p.event.pressed && !u.event.pressed && p.tap.count == u.tap.count == 1
    ensures Perform(Perform(w, OneShotKey(mods), p), OneShotKey(mods), u) ==
            w.(kb := w.kb.(oneshotMods := HidBit(mods)))
    ensures Perform(w, OneShotKey(mods), p).pressedOn == w.pressedOn
  {
    hide Perform, HidBit, OneShotKey, OneshotAction;
    OneShotPerforms(w, mods, p);
    OneShotTapped(w, mods, p, u);
  }

  // A key that is the plain key k on every layer.
  ghost predicate Plain(km: Keymap, y: KeyPos, k: Code) { forall l: nat :: km(l, y) == ModsKey(0, k) }

  lemma PlainNeverTaps(km: Keymap, w: World, term: nat, y: KeyPos, k: Code, e: Event)
    requires Plain(km, y, k) && e.key == y && Real(e)
    ensures NeverTap(Wire(km, w, term), e)
  {
    hide IsTapAction, Replay, CurrentLayer, PressedOn, ModsKey, Active;
    TapKeysAre(0, k, 0, NO_KEY);
  }

  lemma PlainResolves(km: Keymap, w: World, y: KeyPos, k: Code, e: Event)
    requires Plain(km, y, k) && e.key == y && Real(e)
    ensures PressFinds(km, w.layers, w.defaults, y, ModsKey(0, k)) && km(PressedOn(w, y), y) == ModsKey(0, k)
  {
    hide CurrentLayer, ModsKey, Active;
  }

  // The next key typed.
  lemma KeyReplays(km: Keymap, w: World, log: seq<Call>, y: KeyPos, k: Code, p: Event, u: Event)
    requires Plain(km, y, k) && p.key == u.key == y && Real(p) && Real(u) && p.pressed && !u.pressed
    ensures var v := Replay(km, w, log); var b := ModsKey(0, k);
      var v1 := Resolve(km, Replay(km, w, log + [Lookup(p)]), p).0;
      && v1.kb == v.kb
      && Replay(km, w, log + [Lookup(p)] + [Tagged(p, 0)]) == Perform(v1, b, Fresh(p))
      && Replay(km, w, log + [Lookup(p)] + [Tagged(p, 0)] + [Tagged(u, 0)]) ==
         Perform(Perform(v1, b, Fresh(p)), b, Fresh(u))
  {
    hide Replay, PressFinds, Resolve, Perform, PressedOn, ModsKey, Plain;
    var b := ModsKey(0, k);
    var log1 := log + [Lookup(p)];
    PlainResolves(km, Replay(km, w, log), y, k, p);
    LookupReplays(km, w, log, p, b);
    PlainResolves(km, Replay(km, w, log1), y, k, p);
    PressReplays(km, w, log1, p, 0, b);
    PlainResolves(km, Replay(km, w, log1 + [Tagged(p, 0)]), y, k, u);
    ReleaseReplays(km, w, log1 + [Tagged(p, 0)], u, 0, b);
  }

  // The events of the tap and of the next key, as calls.
  lemma CallsAre(c: Setup, key: KeyPos, log: seq<Call>, st: Stroke, p: Event, u: Event)
    requires RealKey(key) && TimelyStroke(c, st) && c.isTap(log, Press(key, st.down))
    requires p.key == u.key != key && Real(p) && Real(u) && p.pressed && !u.pressed && NeverTap(c, p) && NeverTap(c, u)
    requires Diff(p.time, st.up) < c.term && Diff(u.time, st.up) < c.term
    ensures var es := TrainEvents(key, [st]); var s := State(NO_RECORD, [], log);
      var log1 := log + [Lookup(Press(key, st.down))] + [Tagged(Press(key, st.down), 1)]
                  + [Tagged(Release(key, st.up), 1)];
      && Tapping.Run(c, s, es + [p]).log == log1 + [Lookup(p)] + [Tagged(p, 0)]
      && Tapping.Run(c, s, es + [p, u]).log == log1 + [Lookup(p)] + [Tagged(p, 0)] + [Tagged(u, 0)]
  {
    hide Tapping.Run, TrainEvents, Diff, NeverTap, Bystander, TimelyStroke;
    var s := State(NO_RECORD, [], log);
    var es := TrainEvents(key, [st]);
    var log1 := log + [Lookup(Press(key, st.down))] + [Tagged(Press(key, st.down), 1)]
                + [Tagged(Release(key, st.up), 1)];
    TapTrain(c, key, log, [st]);
    TimelyTimes(c, st);
    OneDelivered(log + [Lookup(Press(key, st.down))], key, st);
    GapOfTwo(c, key, st.up, p, u);
    GapRuns(c, key, st.up, 1, log1, [p]);
    GapRuns(c, key, st.up, 1, log1, [p, u]);
    RunConcat(c, s, es, [p]);
    RunConcat(c, s, es, [p, u]);
    PassedTwo(log1, p, u);
  }

  lemma OneDelivered(log: seq<Call>, key: KeyPos, st: Stroke)
    ensures log + Delivered(key, [st], 1) == log + [Tagged(Press(key, st.down), 1)] + [Tagged(Release(key, st.up), 1)]
  {
    hide Tagged;
    assert [st][1..] == [];
  }

  lemma GapOfTwo(c: Setup, key: KeyPos, since: nat, p: Event, u: Event)
    requires p.key == u.key != key && Real(p) && Real(u) && NeverTap(c, p) && NeverTap(c, u)
    requires Diff(p.time, since) < c.term && Diff(u.time, since) < c.term
    ensures Gap(c, key, since, [p]) && Gap(c, key, since, [p, u])
  {
    hide Diff, NeverTap;
  }

  lemma PassedTwo(log: seq<Call>, p: Event, u: Event)
    requires Real(p) && Real(u) && p.pressed && !u.pressed
    ensures log + Passed([p]) == log + [Lookup(p)] + [Tagged(p, 0)]
    ensures log + Passed([p, u]) == log + [Lookup(p)] + [Tagged(p, 0)] + [Tagged(u, 0)]
  {
    assert [p, u][..1] == [p] && [p][..0] == [];
    assert Passed([]) == [];
    assert Passed([p]) == Passed([p][..0]) + PassedOne(p);
    assert Passed([p, u]) == Passed([p, u][..1]) + PassedOne(u);
  }

  // From key events to reports: after one tap of a one-shot key the next plain
  // key typed comes with the modifier and goes without it, and nothing of it is
  // left.
  lemma OneShotTypesOnce(km: Keymap, w: World, term: nat, log: seq<Call>, mods: bv16, key: KeyPos, st: Stroke,
                         y: KeyPos, k: Code, down: nat, up: nat)
    requires RealKey(key) && RealKey(y) && y != key && HidBit(mods) != 0 && IsKey(k) && Plain(km, y, k)
    requires TimelyStroke(Wire(km, w, term), st) && down != 0 && up != 0
    requires Diff(down, st.up) < term && Diff(up, st.up) < term
    requires var v := Replay(km, w, log);
      PressFinds(km, v.layers, v.defaults, key, OneShotKey(mods)) && v.kb.cap > 0 && k !in v.kb.keys
    ensures var kb, s, tap := Replay(km, w, log).kb, State(NO_RECORD, [], log), TrainEvents(key, [st]);
      var k1 := Replay(km, w, Tapping.Run(Wire(km, w, term), s, tap + [Press(y, down)]).log).kb;
      var k2 := Replay(km, w, Tapping.Run(Wire(km, w, term), s, tap + [Press(y, down), Release(y, up)]).log).kb;
      && k in k1.keys
      && k1.LastReport() == Report(Join(Join(kb.realMods, kb.weakMods), HidBit(mods)), k1.keys)
      && k !in k2.keys && k2.oneshotMods == 0
      && k2.LastReport() == Report(Join(kb.realMods, kb.weakMods), k2.keys)
  {
    hide Replay, PressFinds, HidBit, OneShotKey, Tapping.Run, TrainEvents, Tagged, Perform, Resolve, Diff, TimelyStroke,
      Plain, IsTapAction, NeverTap, Join, Kbd.LastReport, IsKey;
    var c, v, a := Wire(km, w, term), Replay(km, w, log), OneShotKey(mods);
    var p, u := Press(y, down), Release(y, up);
    var xp, xu := Press(key, st.down), Release(key, st.up);
    var log1 := log + [Lookup(xp)] + [Tagged(xp, 1)] + [Tagged(xu, 1)];
    TimelyTimes(c, st);
    ToggleLookup(km, v, a, xp);
    OneShotKeyTaps(mods);
    PlainNeverTaps(km, w, term, y, k, p);
    PlainNeverTaps(km, w, term, y, k, u);
    CallsAre(c, key, log, st, p, u);
    TapReplays(km, w, log, mods, xp, xu);
    KeyReplays(km, w, log1, y, k, p, u);
    NextKeyHasIt(Resolve(km, Replay(km, w, log1 + [Lookup(p)]), p).0, k, HidBit(mods), Fresh(p), Fresh(u));
  }

  lemma OneShotKeyTaps(mods: bv16)
    ensures IsTapAction(OneShotKey(mods))
  {
    hide IsTapAction, ModsTapKey;
    TapKeysAre(mods, MODS_ONESHOT, 0, NO_KEY);
  }
}
