// What the host sees: after every action, clear and run the last report sent
// shows exactly the keys and modifiers there are, but for a one-shot modifier.
module HostReports {
  import opened KeyEvents
  import opened KeyList
  import opened KeyboardState
  import opened ModBits
  import opened ActionCode
  import opened Actions
  import opened Tapping
  import opened Wired

  lemma RegisterTells(kb: Kbd, code: Code)
    ensures Tells(kb, RegisterCode(kb, code)) && OneshotKept(kb, RegisterCode(kb, code))
    ensures IsKey(code) || IsMod(code) ==> Told(RegisterCode(kb, code), kb.oneshotMods)
  {
    hide Join, Add, Kbd.LastReport, ModBit, Kbd.Send, Told;
    SendTells(kb.AddKey(code));
    SendTells(kb.AddMods(ModBit(code)));
  }

  lemma UnregisterTells(kb: Kbd, code: Code)
    ensures Tells(kb, UnregisterCode(kb, code)) && OneshotKept(kb, UnregisterCode(kb, code))
    ensures IsKey(code) || IsMod(code) ==> Told(UnregisterCode(kb, code), kb.oneshotMods)
  {
    hide Without, Del, Kbd.LastReport, ModBit, Kbd.Send, Told;
    SendTells(kb.DelKey(code));
    SendTells(kb.DelMods(ModBit(code)));
  }

  lemma ModsTell(kb: Kbd, m: bv8)
    ensures Tells(kb, RegisterMods(kb, m)) && OneshotKept(kb, RegisterMods(kb, m))
    ensures Tells(kb, UnregisterMods(kb, m)) && OneshotKept(kb, UnregisterMods(kb, m))
  {
    hide Join, Without, Kbd.LastReport, Kbd.Send, Told;
    SendTells(kb.AddMods(m));
    SendTells(kb.DelMods(m));
  }

  lemma WeakModsTell(kb: Kbd, m: bv8)
    ensures Tells(kb, kb.AddWeakMods(m).Send()) && OneshotKept(kb, kb.AddWeakMods(m).Send())
    ensures Tells(kb, kb.DelWeakMods(m).Send()) && OneshotKept(kb, kb.DelWeakMods(m).Send())
  {
    hide Join, Without, Kbd.LastReport, Kbd.Send, Told;
    SendTells(kb.AddWeakMods(m));
    SendTells(kb.DelWeakMods(m));
  }

  lemma KeyActionTells(kb: Kbd, a: Action, pressed: bool)
    ensures Tells(kb, KeyAction(kb, a, pressed)) && OneshotKept(kb, KeyAction(kb, a, pressed))
  {
    hide RegisterCode, UnregisterCode, Tells, OneshotKept, Mods, KeyCode, Kbd.Send, Join, Without;
    var m, code := Mods(a), KeyCode(a);
    if pressed {
      if m != 0 {
        WeakModsTell(kb, m);
        RegisterTells(kb.AddWeakMods(m).Send(), code);
        TellsOn(kb, kb.AddWeakMods(m).Send(), RegisterCode(kb.AddWeakMods(m).Send(), code));
      } else {
        RegisterTells(kb, code);
      }
    } else {
      var kb' := UnregisterCode(kb, code);
      UnregisterTells(kb, code);
      if m != 0 {
        WeakModsTell(kb', m);
        TellsOn(kb, kb', kb'.DelWeakMods(m).Send());
      }
    }
  }

  // A one-shot action tapped once: its modifiers become the pending ones.
  predicate SetsOneshot(a: Action, r: Record) {
    IsModsTapKind(a) && KeyCode(a) == MODS_ONESHOT && r.event.pressed && r.tap.count == 1
  }

  lemma OneshotTells(kb: Kbd, m: bv8, pressed: bool, count: nat)
    ensures Tells(kb, OneshotAction(kb, m, pressed, count))
    ensures !(pressed && count == 1) ==> OneshotKept(kb, OneshotAction(kb, m, pressed, count))
    ensures pressed && count == 1 ==> OneshotAction(kb, m, pressed, count).oneshotMods == m
  {
    hide RegisterMods, UnregisterMods, Told;
    ModsTell(kb, m);
    var none := kb.(oneshotMods := 0);
    ModsTell(none, m);
    assert Tells(kb, none) && OneshotKept(kb, none);
    TellsOn(kb, none, UnregisterMods(none, m));
  }

  lemma ModsTapTells(kb: Kbd, a: Action, r: Record)
    requires IsModsTapKind(a)
    ensures Tells(kb, ModsTapAction(kb, a, r))
    ensures if SetsOneshot(a, r) then ModsTapAction(kb, a, r).oneshotMods == Mods(a)
            else OneshotKept(kb, ModsTapAction(kb, a, r))
  {
    hide RegisterCode, UnregisterCode, RegisterMods, UnregisterMods, OneshotAction, Told, Mods, KeyCode, Apart;
    OneshotTells(kb, Mods(a), r.event.pressed, r.tap.count);
    ModsTell(kb, Mods(a));
    RegisterTells(kb, KeyCode(a));
    UnregisterTells(kb, KeyCode(a));
  }

  lemma LayerTapTells(w: World, a: Action, pressed: bool, count: nat)
    ensures var kb' := LayerTapAction(w, a, pressed, count).kb; Tells(w.kb, kb') && OneshotKept(w.kb, kb')
  {
    hide RegisterCode, UnregisterCode, RegisterMods, UnregisterMods, Told, LayerMods, TapCode, TapLayer, BitOf, TurnOn,
      TurnOff, Invert;
    ModsTell(w.kb, LayerMods(TapCode(a)));
    RegisterTells(w.kb, TapCode(a));
    UnregisterTells(w.kb, TapCode(a));
  }

  // Every action: the host has been told what it has changed.
  lemma PerformTells(w: World, a: Action, r: Record)
    ensures Tells(w.kb, Perform(w, a, r).kb)
    ensures if SetsOneshot(a, r) then Perform(w, a, r).kb.oneshotMods == Mods(a)
            else OneshotKept(w.kb, Perform(w, a, r).kb)
  {
    hide KeyAction, ModsTapAction, LayerTapAction, Told, Kind, KeyCode, TapCode, Bitop, On, Mods;
    KeyActionTells(w.kb, a, r.event.pressed);
    LayerTapTells(w, a, r.event.pressed, r.tap.count);
    KindsApart(a);
    if IsModsTapKind(a) {
      ModsTapTells(w.kb, a, r);
    }
  }

  lemma KindsApart(a: Action)
    ensures IsModsTapKind(a) ==> !IsKeyKind(a) && !IsLayerTapKind(a)
  {
  }

  // The host knows the keys and modifiers, with one of the one-shot modifiers os
  // or none.
  ghost predicate Informed(kb: Kbd, os: set<bv8>) {
    kb.oneshotMods in os + {0} && exists o :: o in os + {0} && Told(kb, o)
  }

  lemma InformedOn(kb: Kbd, kb': Kbd, os: set<bv8>)
    requires Informed(kb, os) && Tells(kb, kb') && kb'.oneshotMods in os + {0, kb.oneshotMods}
    ensures Informed(kb', os)
  {
    hide Join;
    var o :| o in os + {0} && Told(kb, o);
    assert Told(kb', o) || Told(kb', kb.oneshotMods) || Told(kb', 0);
  }

  // The modifiers of every one-shot key.
  ghost predicate OneShots(km: Keymap, os: set<bv8>) {
    forall l: nat, key: KeyPos ::
      IsModsTapKind(km(l, key)) && KeyCode(km(l, key)) == MODS_ONESHOT ==> Mods(km(l, key)) in os
  }

  lemma ProcessInforms(km: Keymap, w: World, r: Record, os: set<bv8>)
    requires OneShots(km, os) && Informed(w.kb, os)
    ensures Informed(ProcessAction(km, w, r).0.kb, os)
  {
    hide Perform, Informed, CurrentLayer, Active, Mods, KeyCode, IsModsTapKind;
    if Real(r.event) {
      var (w', a) := Resolve(km, w, r.event);
      PerformTells(w', a, r);
      ResolvesSomewhere(km, w, r.event);
      var l: nat :| a == km(l, r.event.key);
      assert SetsOneshot(a, r) ==> Mods(km(l, r.event.key)) in os;
      InformedOn(w.kb, Perform(w', a, r).kb, os);
    }
  }

  lemma ResolvesSomewhere(km: Keymap, w: World, e: Event)
    requires Real(e)
    ensures exists l: nat :: Resolve(km, w, e).1 == km(l, e.key)
    ensures Resolve(km, w, e).0.kb == w.kb
  {
    hide CurrentLayer, Active;
    var l: nat := if e.pressed then CurrentLayer(km, Active(w.layers, w.defaults), e.key) else PressedOn(w, e.key);
    assert Resolve(km, w, e).1 == km(l, e.key);
  }

  lemma ClearInforms(kb: Kbd, os: set<bv8>)
    requires Informed(kb, os)
    ensures Informed(ClearKeyboard(kb), os)
  {
    hide Told, Kbd.Send, Join;
    ClearTells(kb);
    SendTells(kb.(realMods := 0, weakMods := 0, keys := []));
  }

  // So it is after every history of calls.
  lemma {:induction false} ReplayInforms(km: Keymap, w: World, log: seq<Call>, os: set<bv8>)
    requires OneShots(km, os) && Informed(w.kb, os)
    ensures Informed(Replay(km, w, log).kb, os)
    decreases |log|
  {
    hide OneShots, Informed, ProcessAction, Resolve, ClearKeyboard;
    if log != [] {
      var front, call := log[..|log| - 1], log[|log| - 1];
      ReplayInforms(km, w, front, os);
      var v := Replay(km, w, front);
      match call {
        case Process(r, _, _) => ProcessInforms(km, v, r, os);
        case Lookup(e) => LookupKeeps(km, v, e);
        case Overflow(_) => ClearInforms(v.kb, os);
      }
    }
  }

  lemma LookupKeeps(km: Keymap, w: World, e: Event)
    ensures Resolve(km, w, e).0.kb == w.kb
  {
    hide CurrentLayer, Active;
  }

  // Without one-shot keys the last report is exactly the keys and modifiers.
  lemma InformedExactly(kb: Kbd)
    requires Informed(kb, {})
    ensures kb.LastReport() == Report(Join(kb.realMods, kb.weakMods), kb.keys) && kb.oneshotMods == 0
  {
    hide Join;
    assert Told(kb, 0);
    JoinNothing(Join(kb.realMods, kb.weakMods));
  }

  lemma FirstInformed(kb: Kbd)
    requires kb.keys == [] && kb.realMods == 0 && kb.weakMods == 0 && kb.oneshotMods == 0 && kb.sent == []
    ensures Informed(kb, {})
  {
    assert Told(kb, 0);
  }

  // In any keymap: the last report has the keys, and all modifiers at least.
  predicate Shown(kb: Kbd) {
    kb.LastReport().keys == kb.keys && Inside(Join(kb.realMods, kb.weakMods), kb.LastReport().mods)
  }

  lemma ToldShows(kb: Kbd, o: bv8)
    requires Told(kb, o)
    ensures Shown(kb)
  {
    hide Kbd.LastReport;
    InsideJoin(Join(kb.realMods, kb.weakMods), o);
  }

  lemma InsideJoin(x: bv8, o: bv8)
    ensures Inside(x, Join(x, o))
  {
  }

  lemma ShownOn(kb: Kbd, kb': Kbd)
    requires Shown(kb) && Tells(kb, kb')
    ensures Shown(kb')
  {
    hide Join, Inside, Told;
    if Told(kb', kb.oneshotMods) {
      ToldShows(kb', kb.oneshotMods);
    } else if Told(kb', 0) {
      ToldShows(kb', 0);
    }
  }

  lemma {:induction false} ReplayShown(km: Keymap, w: World, log: seq<Call>)
    requires Shown(w.kb)
    ensures Shown(Replay(km, w, log).kb)
    decreases |log|
  {
    hide Shown, Perform, Resolve, ClearKeyboard, Tells;
    if log != [] {
      var front, call := log[..|log| - 1], log[|log| - 1];
      ReplayShown(km, w, front);
      var v := Replay(km, w, front);
      match call {
        case Process(r, _, _) =>
          LookupKeeps(km, v, r.event);
          PerformTells(Resolve(km, v, r.event).0, Resolve(km, v, r.event).1, r);
          if Real(r.event) {
            ShownOn(v.kb, Perform(Resolve(km, v, r.event).0, Resolve(km, v, r.event).1, r).kb);
          }
        case Lookup(e) => LookupKeeps(km, v, e);
        case Overflow(_) =>
          ClearTells(v.kb);
          ToldShows(ClearKeyboard(v.kb), v.kb.oneshotMods);
      }
    }
  }

  lemma ClearTells(kb: Kbd)
    ensures Told(ClearKeyboard(kb), kb.oneshotMods)
  {
    hide Told, Kbd.Send;
    SendTells(kb.(realMods := 0, weakMods := 0, keys := []));
  }

  lemma FirstShown(kb: Kbd)
    requires kb.keys == [] && kb.realMods == 0 && kb.weakMods == 0 && kb.sent == []
    ensures Shown(kb)
  {
  }
}
