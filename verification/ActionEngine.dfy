// action.c and action_layer.c as written: process_action updating the keyboard
// report, the layer words and the layer_pressed array in place.
module ActionEngine {
  import opened KeyEvents
  import opened KeyList
  import opened KeyboardState
  import opened ModBits
  import opened KeyReport
  import opened ActionCode
  import Actions
  import opened HostReports
  import LayerSearch

  function Where(rows: nat, cols: nat): set<KeyPos> {
    set r, c | 0 <= r < rows && 0 <= c < cols :: KeyPos(r, c)
  }

  function PowerOn(slots: nat, rows: nat, cols: nat): Actions.World {
    Actions.World(Kbd(slots, [], 0, 0, 0, []), 0, 0, map p | p in Where(rows, cols) :: 0)
  }

  class Engine {
    const km: Actions.Keymap
    const kb: KeyboardReport
    const layerPressed: array2<nat>
    var layerState: bv32
    var defaultLayerState: bv32

    ghost predicate Valid()
      reads kb, kb.keys
    {
      kb.Valid()
    }

    predicate OnMatrix(e: Event) {
      e.key.row < layerPressed.Length0 && e.key.col < layerPressed.Length1
    }

    ghost function PressedOn(): map<KeyPos, nat>
      reads layerPressed
    {
      map p | p in Where(layerPressed.Length0, layerPressed.Length1) :: layerPressed[p.row, p.col]
    }

    ghost function World(): Actions.World
      requires kb.head < kb.keys.Length
      reads this, kb, kb.keys, layerPressed
    {
      Actions.World(kb.State(), layerState, defaultLayerState, PressedOn())
    }

    constructor (km: Actions.Keymap, slots: nat, rows: nat, cols: nat)
      requires 2 <= slots <= 127
      ensures Valid() && this.km == km && fresh(kb) && fresh(kb.keys) && fresh(layerPressed)
      ensures layerPressed.Length0 == rows && layerPressed.Length1 == cols
      ensures World() == PowerOn(slots, rows, cols) && kb.stale == 0
    {
      hide KeyboardReport.Valid, KeyboardReport.State;
      this.km := km;
      kb := new KeyboardReport(slots);
      layerPressed := new nat[rows, cols]((_, _) => 0);
      layerState, defaultLayerState := 0, 0;
      new;
      assert PressedOn() == PowerOn(slots, rows, cols).pressedOn;
    }

    // current_layer_for_key: the highest layer that is on and not transparent.
    method CurrentLayerForKey(key: KeyPos) returns (l: nat)
      ensures LayerSearch.Finds(km, layerState, defaultLayerState, key, l)
      ensures l == Actions.CurrentLayer(km, Actions.Active(layerState, defaultLayerState), key)
    {
      LayerSearch.SearchFinds(km, layerState, defaultLayerState, key,
                              Actions.CurrentLayer(km, Actions.Active(layerState, defaultLayerState), key));
      hide LayerSearch.Finds, Actions.Visible, Actions.Active, Actions.HasLayer, Actions.CurrentLayer;
      var layers := Actions.Active(layerState, defaultLayerState);
      var i := Actions.TOP_LAYER;
      while i >= 0
        invariant -1 <= i <= Actions.TOP_LAYER
        invariant forall j :: i < j <= Actions.TOP_LAYER ==> !Actions.Visible(km, layers, key, j)
      {
        VisibleMeans(layers, key, i);
        if Actions.HasLayer(layers, i) {
          var action := km(i, key);
          if action != ACTION_TRANSPARENT {
            HighestIsCurrent(layers, key, i);
            return i;
          }
        }
        i := i - 1;
      }
      HighestIsCurrent(layers, key, 0);
      return 0;
    }

    lemma VisibleMeans(state: bv32, key: KeyPos, i: nat)
      requires i <= Actions.TOP_LAYER
      ensures Actions.Visible(km, state, key, i) <==>
              Actions.HasLayer(state, i) && km(i, key) != ACTION_TRANSPARENT
    {
    }

    lemma HighestIsCurrent(state: bv32, key: KeyPos, l: nat)
      requires l <= Actions.TOP_LAYER
      requires forall j :: l < j <= Actions.TOP_LAYER ==> !Actions.Visible(km, state, key, j)
      requires l == 0 || Actions.Visible(km, state, key, l)
      ensures l == Actions.CurrentLayer(km, state, key)
    {
      hide Actions.Visible, Actions.CurrentLayer;
      var m := Actions.CurrentLayer(km, state, key);
      assert m <= l && l <= m;
    }

    // The layer of a press is kept for its release.
    method NoteLayer(key: KeyPos, layer: nat)
      requires key.row < layerPressed.Length0 && key.col < layerPressed.Length1
      modifies layerPressed
      ensures PressedOn() == old(PressedOn())[key := layer]
    {
      assert key in Where(layerPressed.Length0, layerPressed.Length1);
      layerPressed[key.row, key.col] := layer;
    }

    lemma NotedLayer(key: KeyPos)
      requires key.row < layerPressed.Length0 && key.col < layerPressed.Length1
      ensures key in PressedOn() && PressedOn()[key] == layerPressed[key.row, key.col]
    {
      assert key in Where(layerPressed.Length0, layerPressed.Length1);
    }

    method LayerSwitchGetAction(e: Event) returns (a: Action)
      requires Valid() && (Real(e) ==> OnMatrix(e))
      modifies layerPressed
      ensures Valid()
      ensures (World(), a) == Actions.Resolve(km, old(World()), e)
    {
      hide Actions.CurrentLayer, Actions.Active, PressedOn, KeyboardReport.Valid, KeyboardReport.State;
      if NoEvent(e) { return ACTION_NO; }
      var layer := 0;
      if e.pressed {
        layer := CurrentLayerForKey(e.key);
        NoteLayer(e.key, layer);
      } else {
        NotedLayer(e.key);
        layer := layerPressed[e.key.row, e.key.col];
      }
      return km(layer, e.key);
    }

    // A press or release of this key comes out right.
    ghost predicate Right(code: Code, pressed: bool)
      requires kb.InRange()
      reads kb, kb.keys
    {
      !Actions.IsKey(code) || if pressed then kb.Lands(code) else kb.Counting() || code !in kb.State().keys
    }

    lemma OtherRight(code: Code, pressed: bool)
      requires kb.InRange()
      ensures !Actions.IsKey(code) ==> Right(code, pressed)
    {
    }

    method RegisterCode(code: Code)
      requires Valid()
      modifies kb, kb.keys
      ensures kb.InRange() && kb.stale == old(kb.stale)
      ensures old(kb.Counting()) || !Actions.IsKey(code) ==> Valid()
      ensures kb.State() == Actions.RegisterCode(old(kb.State()), code) <==> old(Right(code, true))
      ensures Tells(old(kb.State()), kb.State()) && OneshotKept(old(kb.State()), kb.State())
      ensures Actions.IsKey(code) || Actions.IsMod(code) ==> Told(kb.State(), old(kb.State()).oneshotMods)
    {
      hide KeyboardReport.Valid, Add, NonZero, Rotate, Join, Told, Kbd.Mods;
      if code == NO_KEY { return; }
      if Actions.IsKey(code) {
        kb.AddKey(code);
        SendTells(kb.State());
        kb.SendKeyboardReport();
      } else if Actions.IsMod(code) {
        kb.AddMods(Actions.ModBit(code));
        kb.ValidIsBounded();
        SendTells(kb.State());
        kb.SendKeyboardReport();
      }
    }

    method UnregisterCode(code: Code)
      requires Valid()
      modifies kb, kb.keys
      ensures Valid() && kb.stale == old(kb.stale)
      ensures var kb' := Actions.UnregisterCode(old(kb.State()), code);
        && (kb.State() == kb' <==> old(Right(code, false)))
        && (kb.State().keys == kb'.keys ==> kb.State() == kb')
      ensures !old(kb.Counting()) ==> kb.State().keys == old(kb.State().keys)
      ensures Tells(old(kb.State()), kb.State()) && OneshotKept(old(kb.State()), kb.State())
      ensures Actions.IsKey(code) || Actions.IsMod(code) ==> Told(kb.State(), old(kb.State()).oneshotMods)
    {
      hide KeyboardReport.Valid, Del, NonZero, Rotate, Join, Told, Kbd.Mods;
      if code == NO_KEY { return; }
      if Actions.IsKey(code) {
        kb.DelKey(code);
        kb.ValidIsBounded();
        SendTells(kb.State());
        kb.SendKeyboardReport();
      } else if Actions.IsMod(code) {
        kb.DelMods(Actions.ModBit(code));
        kb.ValidIsBounded();
        SendTells(kb.State());
        kb.SendKeyboardReport();
      }
    }

    method RegisterMods(mods: bv8)
      requires Valid()
      modifies kb, kb.keys
      ensures Valid() && kb.stale == old(kb.stale) && kb.State() == Actions.RegisterMods(old(kb.State()), mods)
      ensures kb.State().keys == old(kb.State().keys)
      ensures Tells(old(kb.State()), kb.State()) && OneshotKept(old(kb.State()), kb.State())
    {
      hide KeyboardReport.Valid, NonZero, Rotate;
      ModsTell(kb.State(), mods);
      if mods != 0 {
        kb.AddMods(mods);
        kb.ValidIsBounded();
        kb.SendKeyboardReport();
      }
    }

    method UnregisterMods(mods: bv8)
      requires Valid()
      modifies kb, kb.keys
      ensures Valid() && kb.stale == old(kb.stale) && kb.State() == Actions.UnregisterMods(old(kb.State()), mods)
      ensures kb.State().keys == old(kb.State().keys)
      ensures Tells(old(kb.State()), kb.State()) && OneshotKept(old(kb.State()), kb.State())
    {
      hide KeyboardReport.Valid, NonZero, Rotate;
      ModsTell(kb.State(), mods);
      if mods != 0 {
        kb.DelMods(mods);
        kb.ValidIsBounded();
        kb.SendKeyboardReport();
      }
    }

    // What follows a release does not make up for a difference in the keys.
    lemma SameAfter(x: Kbd, y: Kbd, m: bv8)
      requires x.keys == y.keys ==> x == y
      ensures x.DelWeakMods(m).Send() == y.DelWeakMods(m).Send() ==> x == y
    {
    }

    method PressWeakMods(mods: bv8)
      requires Valid()
      modifies kb`weakMods, kb`oneshotMods, kb`sent
      ensures Valid()
      ensures kb.State() == if mods != 0 then old(kb.State()).AddWeakMods(mods).Send() else old(kb.State())
      ensures Tells(old(kb.State()), kb.State()) && OneshotKept(old(kb.State()), kb.State())
    {
      hide KeyboardReport.Valid, NonZero, Rotate, Join;
      WeakModsTell(kb.State(), mods);
      if mods != 0 {
        kb.AddWeakMods(mods);
        kb.ValidIsBounded();
        kb.SendKeyboardReport();
      }
    }

    method ReleaseWeakMods(mods: bv8)
      requires Valid()
      modifies kb`weakMods, kb`oneshotMods, kb`sent
      ensures Valid()
      ensures kb.State() == if mods != 0 then old(kb.State()).DelWeakMods(mods).Send() else old(kb.State())
      ensures Tells(old(kb.State()), kb.State()) && OneshotKept(old(kb.State()), kb.State())
    {
      hide KeyboardReport.Valid, NonZero, Rotate, Without;
      WeakModsTell(kb.State(), mods);
      if mods != 0 {
        kb.DelWeakMods(mods);
        kb.ValidIsBounded();
        kb.SendKeyboardReport();
      }
    }

    method KeyAndMods(a: Action, pressed: bool)
      requires Valid()
      modifies kb, kb.keys
      ensures kb.InRange() && kb.stale == old(kb.stale)
      ensures old(kb.Counting()) || !pressed || !Actions.IsKey(KeyCode(a)) ==> Valid()
      ensures kb.State() == Actions.KeyAction(old(kb.State()), a, pressed) <==> old(Right(KeyCode(a), pressed))
      ensures !pressed && !old(kb.Counting()) ==> kb.State().keys == old(kb.State().keys)
      ensures Tells(old(kb.State()), kb.State()) && OneshotKept(old(kb.State()), kb.State())
    {
      hide KeyboardReport.Valid, KeyboardReport.State, Actions.RegisterCode, Actions.UnregisterCode, Join, Without,
        Actions.Mods, KeyCode, Tells, OneshotKept;
      var mods := Actions.Mods(a);
      if pressed {
        PressWeakMods(mods);
        label sent:
        RegisterCode(KeyCode(a));
        TellsOn(old(kb.State()), old@sent(kb.State()), kb.State());
      } else {
        UnregisterCode(KeyCode(a));
        label out:
        SameAfter(kb.State(), Actions.UnregisterCode(old(kb.State()), KeyCode(a)), mods);
        ReleaseWeakMods(mods);
        TellsOn(old(kb.State()), old@out(kb.State()), kb.State());
      }
    }

    method OneshotMods(mods: bv8, pressed: bool, count: nat)
      requires Valid()
      modifies kb, kb.keys
      ensures Valid() && kb.stale == old(kb.stale)
      ensures kb.State() == Actions.OneshotAction(old(kb.State()), mods, pressed, count)
      ensures kb.State().keys == old(kb.State().keys)
      ensures Tells(old(kb.State()), kb.State())
    {
      hide KeyboardReport.Valid, KeyboardReport.State, Actions.RegisterMods, Actions.UnregisterMods, Tells;
      OneshotTells(kb.State(), mods, pressed, count);
      if pressed {
        if count == 0 {
          RegisterMods(mods);
        } else if count == 1 {
          kb.SetOneshotMods(mods);
        } else {
          RegisterMods(mods);
        }
      } else if count != 1 {
        kb.ValidIsBounded();
        kb.ClearOneshotMods();
        UnregisterMods(mods);
      }
    }

    method TapToggleMods(mods: bv8, pressed: bool, count: nat)
      requires Valid()
      modifies kb, kb.keys
      ensures Valid() && kb.stale == old(kb.stale)
      ensures kb.State() == Actions.TapToggleAction(old(kb.State()), mods, pressed, count)
      ensures kb.State().keys == old(kb.State().keys)
      ensures Tells(old(kb.State()), kb.State())
    {
      hide KeyboardReport.Valid, Actions.RegisterMods, Actions.UnregisterMods, NonZero, Rotate, Apart;
      if pressed {
        if count <= Actions.TAPPING_TOGGLE {
          if !Apart(mods, kb.realMods) {
            UnregisterMods(mods);
          } else {
            RegisterMods(mods);
          }
        }
      } else if count < Actions.TAPPING_TOGGLE {
        UnregisterMods(mods);
      }
    }

    method ModsTap(a: Action, r: Record) returns (r': Record)
      requires Valid() && Actions.IsModsTapKind(a)
      modifies kb, kb.keys
      ensures kb.InRange() && kb.stale == old(kb.stale)
      ensures old(kb.Counting()) || !r.event.pressed || !Actions.IsKey(Actions.KeyOf(a, r)) ==> Valid()
      ensures kb.State() == Actions.ModsTapAction(old(kb.State()), a, r) <==>
              old(Right(Actions.KeyOf(a, r), r.event.pressed))
      ensures !r.event.pressed && !old(kb.Counting()) ==> kb.State().keys == old(kb.State().keys)
      ensures Tells(old(kb.State()), kb.State())
      ensures r' == if Actions.CancelsTap(a, r) then r.(tap := r.tap.(count := 0)) else r
    {
      hide KeyboardReport.Valid, KeyboardReport.State, KeyboardReport.Counting, Actions.RegisterMods,
        Actions.UnregisterMods, Actions.RegisterCode, Actions.UnregisterCode, Actions.OneshotAction,
        Actions.TapToggleAction, Actions.Mods, KeyCode, Kind, Right;
      OtherRight(Actions.KeyOf(a, r), r.event.pressed);
      r' := r;
      var mods := Actions.Mods(a);
      var code := KeyCode(a);
      if code == Actions.MODS_ONESHOT {
        OneshotMods(mods, r.event.pressed, r.tap.count);
      } else if code == Actions.MODS_TAP_TOGGLE {
        TapToggleMods(mods, r.event.pressed, r.tap.count);
      } else if r.event.pressed {
        if r.tap.count > 0 {
          if r.tap.interrupted {
            r' := r.(tap := r.tap.(count := 0));
            RegisterMods(mods);
          } else {
            RegisterCode(code);
          }
        } else {
          RegisterMods(mods);
        }
      } else if r.tap.count > 0 {
        UnregisterCode(code);
      } else {
        UnregisterMods(mods);
      }
    }

    method LayerOn(layer: bv32)
      requires layer < 32
      modifies this`layerState
      ensures layerState == Actions.TurnOn(old(layerState), layer)
    {
      layerState := layerState | (1 << layer);
    }

    method LayerOff(layer: bv32)
      requires layer < 32
      modifies this`layerState
      ensures layerState == Actions.TurnOff(old(layerState), layer)
    {
      hide BitOf;
      layerState := layerState & !BitOf(layer);
    }

    method LayerInvert(layer: bv32)
      requires layer < 32
      modifies this`layerState
      ensures layerState == Actions.Invert(old(layerState), layer)
    {
      layerState := layerState ^ (1 << layer);
    }

    method LayerMove(layer: bv32)
      requires layer < 32
      modifies this`layerState
      ensures layerState == BitOf(layer)
    {
      layerState := 1 << layer;
    }

    method LayerClear()
      modifies this`layerState
      ensures layerState == 0
    {
      layerState := 0;
    }

    method LayerBitops(a: Action, pressed: bool)
      requires Valid() && Kind(a) == ACT_LAYER
      modifies this`layerState, this`defaultLayerState
      ensures Valid() && World() == Actions.LayerAction(old(World()), a, pressed)
    {
      hide KeyboardReport.State, Bitop, On;
      if On(a) == 0 {
        if !pressed {
          defaultLayerState := Bitop(defaultLayerState, a);
        }
      } else if On(a) & (if pressed then 1 else 2) != 0 {
        layerState := Bitop(layerState, a);
      }
    }

    method LayerTap(a: Action, pressed: bool, count: nat)
      requires Valid()
      modifies this`layerState, kb, kb.keys
      ensures kb.InRange() && kb.stale == old(kb.stale)
      ensures var code := if count > 0 then TapCode(a) else NO_KEY;
        && (old(kb.Counting()) || !pressed || !Actions.IsKey(code) ==> Valid())
        && (World() == Actions.LayerTapAction(old(World()), a, pressed, count) <==> old(Right(code, pressed)))
      ensures !pressed && !old(kb.Counting()) ==> kb.State().keys == old(kb.State().keys)
      ensures Tells(old(kb.State()), kb.State())
    {
      hide KeyboardReport.Valid, KeyboardReport.State, Actions.RegisterMods, Actions.UnregisterMods,
        Actions.RegisterCode, Actions.UnregisterCode, Actions.LayerMods, TapCode, TapLayer, BitOf,
        Actions.TurnOn, Actions.TurnOff, Actions.Invert;
      var code := TapCode(a);
      var layer := TapLayer(a);
      if 0xc0 <= code <= 0xdf {
        if pressed {
          LayerOn(layer);
          RegisterMods(Actions.LayerMods(code));
        } else {
          LayerOff(layer);
          UnregisterMods(Actions.LayerMods(code));
        }
      } else if code == Actions.OP_TAP_TOGGLE {
        if pressed {
          if count < Actions.TAPPING_TOGGLE { LayerInvert(layer); }
        } else {
          if count <= Actions.TAPPING_TOGGLE { LayerInvert(layer); }
        }
      } else if code == Actions.OP_ON_OFF {
        if pressed { LayerOn(layer); } else { LayerOff(layer); }
      } else if code == Actions.OP_OFF_ON {
        if pressed { LayerOff(layer); } else { LayerOn(layer); }
      } else if code == Actions.OP_SET_CLEAR {
        if pressed { LayerMove(layer); } else { LayerClear(); }
      } else if pressed {
        if count > 0 {
          RegisterCode(code);
        } else {
          LayerOn(layer);
        }
      } else {
        if count > 0 {
          UnregisterCode(code);
        } else {
          LayerOff(layer);
        }
      }
    }

    lemma NoEventNoKey(r: Record)
      requires Valid() && NoEvent(r.event)
      ensures Actions.KeyOf(Actions.Resolve(km, World(), r.event).1, r) == NO_KEY
    {
    }

    method ProcessAction(r: Record) returns (r': Record)
      requires Valid() && (Real(r.event) ==> OnMatrix(r.event))
      modifies this`layerState, this`defaultLayerState, kb, kb.keys, layerPressed
      ensures kb.InRange() && kb.stale == old(kb.stale)
      ensures var code := Actions.KeyOf(Actions.Resolve(km, old(World()), r.event).1, r);
        && (old(kb.Counting()) || !r.event.pressed || !Actions.IsKey(code) ==> Valid())
        && (World() == Actions.ProcessAction(km, old(World()), r).0 <==> old(Right(code, r.event.pressed)))
      ensures r' == Actions.ProcessAction(km, old(World()), r).1
      ensures !r.event.pressed && !old(kb.Counting()) ==> kb.State().keys == old(kb.State().keys)
      ensures Tells(old(kb.State()), kb.State())
    {
      hide KeyboardReport.Valid, KeyboardReport.State, Actions.Resolve, Actions.KeyAction, Actions.ModsTapAction,
        Actions.LayerAction, Actions.LayerTapAction, Kind, KeyCode, TapCode, Right, KeyboardReport.Counting;
      OtherRight(NO_KEY, r.event.pressed);
      r' := r;
      if NoEvent(r.event) {
        NoEventNoKey(r);
        return;
      }
      var a := LayerSwitchGetAction(r.event);
      if Actions.IsKeyKind(a) {
        KeyAndMods(a, r.event.pressed);
      } else if Actions.IsModsTapKind(a) {
        r' := ModsTap(a, r);
      } else if Kind(a) == ACT_LAYER {
        LayerBitops(a, r.event.pressed);
      } else if Actions.IsLayerTapKind(a) {
        LayerTap(a, r.event.pressed, r.tap.count);
      }
    }

    // clear_keyboard: an empty report goes out.  The wiped keys stay on the
    // report's count.
    method ClearKeyboard()
      requires Valid()
      modifies kb, kb.keys
      ensures Valid() && kb.Counting() && kb.stale == (old(kb.stale) + |old(kb.State().keys)|) % 256
      ensures kb.State() == old(kb.State()).(realMods := 0, weakMods := 0, keys := []).Send()
    {
      hide KeyboardReport.Valid, KeyboardReport.Bounded, KeyboardReport.Live, KeyboardReport.Counting, Join, Without,
        Kbd.Mods;
      kb.SetMods(0);
      kb.SetWeakMods(0);
      kb.ValidIsBounded();
      kb.ClearKeys();
      kb.SendKeyboardReport();
    }

    method IsTapKey(e: Event) returns (b: bool)
      requires Valid() && (Real(e) ==> OnMatrix(e))
      modifies layerPressed
      ensures Valid()
      ensures NoEvent(e) ==> !b && World() == old(World())
      ensures Real(e) ==> World() == Actions.Resolve(km, old(World()), e).0
      ensures Real(e) ==> b == Actions.IsTapAction(Actions.Resolve(km, old(World()), e).1)
    {
      hide Actions.Resolve, KeyboardReport.State, Actions.IsTapAction;
      if NoEvent(e) { return false; }
      var a := LayerSwitchGetAction(e);
      return Actions.IsTapAction(a);
    }
  }
}
