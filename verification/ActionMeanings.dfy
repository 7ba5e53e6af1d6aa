// What the action codes of a keymap stand for, written with the encoders: which
// modifier, which layer, which keys tap and which releases wait.
module ActionMeanings {
  import opened KeyEvents
  import opened KeyList
  import opened KeyboardState
  import opened ModBits
  import opened ActionCode
  import opened Actions

  // ----- Modifiers -----

  // The modifier byte of the report: control, shift, alt, gui, left then right.
  function HidBit(mods: bv16): bv8 {
    if mods == MOD_LCTL then 0x01
    else if mods == MOD_LSFT then 0x02
    else if mods == MOD_LALT then 0x04
    else if mods == MOD_LGUI then 0x08
    else if mods == MOD_RCTL then 0x10
    else if mods == MOD_RSFT then 0x20
    else if mods == MOD_RALT then 0x40
    else if mods == MOD_RGUI then 0x80
    else 0
  }

  // The usages of the modifier keys, in the same order.
  function HidCode(mods: bv16): Code {
    if mods == MOD_LCTL then 0xE0
    else if mods == MOD_LSFT then 0xE1
    else if mods == MOD_LALT then 0xE2
    else if mods == MOD_LGUI then 0xE3
    else if mods == MOD_RCTL then 0xE4
    else if mods == MOD_RSFT then 0xE5
    else if mods == MOD_RALT then 0xE6
    else if mods == MOD_RGUI then 0xE7
    else 0
  }

  // A modifier is the same bit however a keymap writes it.
  lemma OneBitEach(mods: bv16, key: Code)
    requires HidBit(mods) != 0
    ensures ModBit(HidCode(mods)) == HidBit(mods) && IsMod(HidCode(mods)) && !IsKey(HidCode(mods))
    ensures Mods(ModsKey(mods, key)) == HidBit(mods) && Mods(ModsTapKey(mods, key)) == HidBit(mods)
    ensures LayerMods(0xC0 | (((mods >> 8) & 0x1f) as bv8)) == HidBit(mods)
  {
  }

  lemma Fields(mods: bv16, key: Code)
    ensures KeyCode(ModsKey(mods, key)) == key == KeyCode(ModsTapKey(mods, key))
    ensures IsKeyKind(ModsKey(mods, key)) && !IsModsTapKind(ModsKey(mods, key)) && !IsLayerTapKind(ModsKey(mods, key))
    ensures IsModsTapKind(ModsTapKey(mods, key)) && !IsKeyKind(ModsTapKey(mods, key))
    ensures !IsLayerTapKind(ModsTapKey(mods, key))
  {
  }

  lemma LayerFields(layer: bv16, code: Code)
    requires layer < 32
    ensures var a := LayerTap(layer, code);
      && IsLayerTapKind(a) && !IsKeyKind(a) && !IsModsTapKind(a) && Kind(a) != ACT_LAYER
      && TapCode(a) == code && TapLayer(a) == layer as bv32
  {
  }

  // ----- Which keys tap, and which releases wait -----

  // A layer-tap key taps unless its code is a switch or a set of modifiers.
  lemma TapKeysAre(mods: bv16, key: Code, layer: bv16, code: Code)
    requires layer < 32
    ensures IsTapAction(ModsTapKey(mods, key)) && !IsTapAction(ModsKey(mods, key))
    ensures IsKey(code) || IsMod(code) || code == 0xF0 ==> IsTapAction(LayerTap(layer, code))
    ensures code in {0xF1, 0xF2, 0xF3} || 0xC0 <= code <= 0xDF ==> !IsTapAction(LayerTap(layer, code))
  {
    hide Kind, KeyCode, KeyMods, TapCode, TapLayer, ModsKey, ModsTapKey, LayerTap;
    Fields(mods, key);
    LayerFields(layer, code);
    NoFunctions(mods, key, layer, code);
  }

  lemma NoFunctions(mods: bv16, key: Code, layer: bv16, code: Code)
    requires layer < 32
    ensures var a := ModsKey(mods, key); Kind(a) != ACT_MACRO && Kind(a) != ACT_FUNCTION
    ensures var a := LayerTap(layer, code); Kind(a) != ACT_MACRO && Kind(a) != ACT_FUNCTION
  {
  }

  // A macro or function key taps exactly if it is declared to.
  lemma FunctionKeysTap(a: Action)
    requires a & 0xF000 == 0xC000 || a & 0xF000 == 0xF000
    ensures IsTapAction(a) <==> a & 0x0800 != 0
  {
  }

  // Modifier releases wait for an undecided key: of modifier keys, of modifiers
  // alone and of held modifier taps; those of other keys do not.
  lemma KeptReleases(mods: bv16, key: Code, layer: bv16, code: Code, r: Record)
    requires HidBit(mods) != 0 && IsKey(key) && layer < 32
    ensures KeepsMods(ModsKey(mods, NO_KEY), r) && KeepsMods(ModsKey(0, HidCode(mods)), r)
    ensures !KeepsMods(ModsKey(mods, key), r) && !KeepsMods(ModsKey(0, key), r)
    ensures KeepsMods(ModsTapKey(mods, key), r) <==> r.tap.count == 0
    ensures KeepsMods(ModsTapKey(mods, HidCode(mods)), r)
    ensures !KeepsMods(LayerTap(layer, code), r)
  {
    hide Kind, KeyCode, TapCode, TapLayer, LayerTap, HidBit, HidCode, IsKey, IsMod, KeyMods, ModsKey, ModsTapKey;
    Fields(mods, NO_KEY);
    Fields(0, HidCode(mods));
    Fields(mods, key);
    Fields(0, key);
    Fields(mods, HidCode(mods));
    LayerFields(layer, code);
    OneBitEach(mods, key);
    SomeMods(mods, key);
    SomeMods(mods, NO_KEY);
    SomeMods(mods, HidCode(mods));
    KeysAreNoMods(key);
  }

  lemma SomeMods(mods: bv16, key: Code)
    requires HidBit(mods) != 0
    ensures KeyMods(ModsKey(mods, key)) != 0 && KeyMods(ModsTapKey(mods, key)) != 0 && KeyMods(ModsKey(0, key)) == 0
  {
  }

  lemma KeysAreNoMods(key: Code)
    ensures IsKey(key) ==> !IsMod(key) && key != NO_KEY
    ensures IsKey(key) <==> 0x04 <= key <= 0xA4
  {
  }

  // ----- Layer keys -----

  // What a layer key does to the layers, by its code and whether it was tapped;
  // the report stays as it is.
  lemma LayerKeySwitches(w: World, layer: bv16, code: Code, r: Record)
    requires layer < 32 && if IsKey(code) then r.tap.count == 0 else code in {0xF1, 0xF2, 0xF3}
    ensures var n, p := layer as bv32, r.event.pressed; var w' := Perform(w, LayerTap(layer, code), r);
      && w' == w.(layers := w'.layers)
      && (IsKey(code) || code == 0xF1 ==> w'.layers == if p then TurnOn(w.layers, n) else TurnOff(w.layers, n))
      && (code == 0xF2 ==> w'.layers == if p then TurnOff(w.layers, n) else TurnOn(w.layers, n))
      && (code == 0xF3 ==> w'.layers == if p then BitOf(n) else 0)
  {
    hide Kind, TapCode, TapLayer, LayerTap, TurnOn, TurnOff, BitOf;
    LayerFields(layer, code);
  }

  // Tapped, it is an ordinary key and leaves the layers alone.
  lemma LayerKeyTaps(w: World, layer: bv16, code: Code, r: Record)
    requires layer < 32 && r.tap.count > 0 && IsKey(code)
    ensures Perform(w, LayerTap(layer, code), r) == Perform(w, ModsKey(0, code), r)
  {
    hide Kind, TapCode, TapLayer, LayerTap, ModsKey, KeyCode, RegisterCode, UnregisterCode, IsKey, Mods;
    LayerFields(layer, code);
    Fields(0, code);
    NoMods(code);
    KeysAreNoMods(code);
    KeyRange(code);
  }

  lemma NoMods(code: Code)
    ensures Mods(ModsKey(0, code)) == 0
  {
  }

  lemma KeyRange(code: Code)
    ensures IsKey(code) ==> code < 0xC0
  {
  }

  // With modifiers, it switches the layer and holds them with it.
  lemma LayerWithModsHolds(w: World, layer: bv16, mods: bv16, r: Record)
    requires layer < 32 && HidBit(mods) != 0
    ensures var n := layer as bv32;
      Perform(w, LayerWithMods(layer, mods), r) ==
        if r.event.pressed
        then w.(layers := TurnOn(w.layers, n), kb := w.kb.AddMods(HidBit(mods)).Send())
        else w.(layers := TurnOff(w.layers, n), kb := w.kb.DelMods(HidBit(mods)).Send())
  {
    hide Kind, TapCode, TapLayer, LayerTap, TurnOn, TurnOff, LayerMods, HidBit, Kbd.Send;
    LayerFields(layer, 0xC0 | (((mods >> 8) & 0x1f) as bv8));
    OneBitEach(mods, NO_KEY);
    ModsRange(mods);
  }

  lemma ModsRange(mods: bv16)
    ensures 0xC0 <= 0xC0 | (((mods >> 8) & 0x1f) as bv8) <= 0xDF
  {
  }

  // ----- Modifier taps -----

  // An interrupted tap is cancelled for a key or modifier code, and never for a
  // one-shot or toggling key.
  lemma CancelledTaps(mods: bv16, key: Code, r: Record)
    requires r.event.pressed && r.tap.count > 0 && r.tap.interrupted
    ensures CancelsTap(ModsTapKey(mods, key), r) <==> key != 0x00 && key != 0x01
    ensures !CancelsTap(ModsKey(mods, key), r)
  {
    hide Kind, KeyCode, ModsKey, ModsTapKey;
    Fields(mods, key);
  }

  // Held, and on a cancelled press, a modifier tap is its modifier; otherwise,
  // tapped, it is the plain key.
  lemma ModsTapIs(w: World, mods: bv16, key: Code, r: Record)
    requires HidBit(mods) != 0 && key != 0x00 && key != 0x01
    ensures Perform(w, ModsTapKey(mods, key), r) ==
            if r.tap.count > 0 && !(r.event.pressed && r.tap.interrupted) then Perform(w, ModsKey(0, key), r)
            else Perform(w, ModsKey(0, HidCode(mods)), r)
  {
    hide Kind, KeyCode, ModsKey, ModsTapKey, Mods, HidBit, HidCode, ModBit, Kbd.Send, IsKey, IsMod;
    Fields(mods, key);
    Fields(0, key);
    Fields(0, HidCode(mods));
    OneBitEach(mods, key);
    NoMods(key);
    NoMods(HidCode(mods));
  }

  // ----- Plain keys -----

  // A key or modifier of its own: one report, with it or without it.
  lemma PlainIs(w: World, mods: bv16, key: Code, r: Record)
    ensures IsKey(key) ==>
              Perform(w, ModsKey(0, key), r) ==
              w.(kb := (if r.event.pressed then w.kb.AddKey(key) else w.kb.DelKey(key)).Send())
    ensures HidBit(mods) != 0 ==>
              Perform(w, ModsKey(0, HidCode(mods)), r) ==
              w.(kb := (if r.event.pressed then w.kb.AddMods(HidBit(mods)) else w.kb.DelMods(HidBit(mods))).Send())
  {
    hide Kind, KeyCode, ModsKey, Mods, HidBit, HidCode, ModBit, Kbd.Send, IsKey, IsMod;
    Fields(0, key);
    Fields(0, HidCode(mods));
    NoMods(key);
    NoMods(HidCode(mods));
    if HidBit(mods) != 0 {
      OneBitEach(mods, key);
    }
  }

  // ----- A key with modifiers -----

  // Its modifier is a weak one while it is down; the real ones are not touched.
  lemma KeyWithModsIs(w: World, mods: bv16, key: Code, r: Record)
    requires HidBit(mods) != 0 && IsKey(key)
    ensures var kb, kb' := w.kb, Perform(w, ModsKey(mods, key), r).kb;
      && Perform(w, ModsKey(mods, key), r) == w.(kb := kb') && kb'.realMods == kb.realMods
      && kb'.weakMods ==
         (if r.event.pressed then Join(kb.weakMods, HidBit(mods)) else Without(kb.weakMods, HidBit(mods)))
      && kb'.keys == (if r.event.pressed then kb.AddKey(key) else kb.DelKey(key)).keys
  {
    hide Kind, KeyCode, ModsKey, Mods, HidBit, IsKey, IsMod, Join, Without, Add, Del, Kbd.Mods;
    Fields(mods, key);
    OneBitEach(mods, key);
  }

  // On a press no report has the key without its modifiers.
  lemma KeyComesWithMods(kb: Kbd, mods: bv16, key: Code, i: nat)
    requires HidBit(mods) != 0 && IsKey(key) && kb.cap > 0 && key !in kb.keys
    requires var kb' := KeyAction(kb, ModsKey(mods, key), true); |kb.sent| <= i < |kb'.sent| && key in kb'.sent[i].keys
    ensures Inside(HidBit(mods), KeyAction(kb, ModsKey(mods, key), true).sent[i].mods)
  {
    hide HidBit, ModsKey, Mods, KeyCode, IsKey, Inside, Join, Kbd.Mods;
    Fields(mods, key);
    OneBitEach(mods, key);
    var k1 := kb.AddWeakMods(HidBit(mods)).Send();
    assert k1.keys == kb.keys;
    WeakShow(k1.AddKey(key), HidBit(mods), kb.weakMods);
  }

  // On a release the key goes first: a report without it still has the
  // modifiers.
  lemma KeyGoesFirst(kb: Kbd, mods: bv16, key: Code)
    requires HidBit(mods) != 0 && IsKey(key) && Inside(HidBit(mods), kb.weakMods)
    ensures var kb' := KeyAction(kb, ModsKey(mods, key), false); var n := |kb.sent|;
      && |kb'.sent| == n + 2 && key !in kb'.sent[n].keys && key !in kb'.sent[n + 1].keys
      && Inside(HidBit(mods), kb'.sent[n].mods)
  {
    hide HidBit, ModsKey, Mods, KeyCode, IsKey, Inside, Without, Kbd.Mods;
    Fields(mods, key);
    OneBitEach(mods, key);
    DelMembers(kb.keys, key);
    StillShow(kb.DelKey(key), HidBit(mods));
  }

  lemma StillShow(k: Kbd, m: bv8)
    requires Inside(m, k.weakMods)
    ensures Inside(m, k.Mods())
  {
  }

  lemma WeakShow(k: Kbd, m: bv8, was: bv8)
    requires k.weakMods == Join(was, m)
    ensures Inside(m, k.Mods())
  {
  }
}
