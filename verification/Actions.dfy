// process_action and the layer state on values: how an action code turns a key
// record into keyboard and layer updates.
module Actions {
  import opened KeyEvents
  import opened KeyList
  import opened KeyboardState
  import opened ModBits
  import opened ActionCode

  // action_for_key, with the stored keymap fixed.
  type Keymap = (nat, KeyPos) -> Action

  // Keyboard report, layer words and the layer each key was last pressed on.
  datatype World = World(kb: Kbd, layers: bv32, defaults: bv32, pressedOn: map<KeyPos, nat>)

  // How many taps toggle, 5 unless the keyboard is configured otherwise: any
  // number that a tap count can pass.
  type ToggleCount = n: nat | 1 <= n < 15 witness 5
  const TAPPING_TOGGLE: ToggleCount

  const TOP_LAYER: nat := 31

  predicate Hit(state: bv32, b: bv32) { state & b != 0 }

  function LayerBit(i: nat): bv32
    requires i <= TOP_LAYER
  {
    (1 as bv32) << i
  }

  predicate HasLayer(state: bv32, i: nat)
    requires i <= TOP_LAYER
  {
    Hit(state, LayerBit(i))
  }

  // Layer i is on and its action for the key is not transparent.
  predicate Visible(km: Keymap, state: bv32, key: KeyPos, i: nat)
    requires i <= TOP_LAYER
  {
    HasLayer(state, i) && km(i, key) != ACTION_TRANSPARENT
  }

  function Active(layers: bv32, defaults: bv32): bv32 { layers | defaults }

  // The highest visible layer, or 0.
  function CurrentLayer(km: Keymap, state: bv32, key: KeyPos): (l: nat)
    ensures l <= TOP_LAYER
    ensures forall j :: l < j <= TOP_LAYER ==> !Visible(km, state, key, j)
    ensures l == 0 || Visible(km, state, key, l)
  {
    SearchDown(km, state, key, TOP_LAYER + 1)
  }

  function SearchDown(km: Keymap, state: bv32, key: KeyPos, i: nat): (l: nat)
    requires i <= TOP_LAYER + 1
    requires forall j :: i <= j <= TOP_LAYER ==> !Visible(km, state, key, j)
    ensures l <= TOP_LAYER
    ensures forall j :: l < j <= TOP_LAYER ==> !Visible(km, state, key, j)
    ensures l == 0 || Visible(km, state, key, l)
  {
    if i == 0 then 0
    else if Visible(km, state, key, i - 1) then i - 1
    else SearchDown(km, state, key, i - 1)
  }

  function PressedOn(w: World, key: KeyPos): nat {
    if key in w.pressedOn then w.pressedOn[key] else 0
  }

  // layer_switch_get_action: a press notes the layer it finds, a release goes
  // back to the layer of the press.
  function Resolve(km: Keymap, w: World, e: Event): (World, Action) {
    if NoEvent(e) then (w, ACTION_NO)
    else if e.pressed then
      var layer := CurrentLayer(km, Active(w.layers, w.defaults), e.key);
      (w.(pressedOn := w.pressedOn[e.key := layer]), km(layer, e.key))
    else (w, km(PressedOn(w, e.key), e.key))
  }

  predicate IsKey(code: Code) { 0x04 <= code <= 0xA4 }
  predicate IsMod(code: Code) { 0xE0 <= code <= 0xE7 }
  function ModBit(code: Code): bv8 { 1 << (code & 7) }

  function RegisterCode(kb: Kbd, code: Code): Kbd {
    if IsKey(code) then kb.AddKey(code).Send()
    else if IsMod(code) then kb.AddMods(ModBit(code)).Send()
    else kb
  }

  function UnregisterCode(kb: Kbd, code: Code): Kbd {
    if IsKey(code) then kb.DelKey(code).Send()
    else if IsMod(code) then kb.DelMods(ModBit(code)).Send()
    else kb
  }

  function RegisterMods(kb: Kbd, m: bv8): Kbd {
    if m != 0 then kb.AddMods(m).Send() else kb
  }

  function UnregisterMods(kb: Kbd, m: bv8): Kbd {
    if m != 0 then kb.DelMods(m).Send() else kb
  }

  // Modifier bits of a key action; the odd kinds are the right-hand ones.
  function Mods(a: Action): bv8 {
    if Kind(a) == ACT_LMODS || Kind(a) == ACT_LMODS_TAP then KeyMods(a) else KeyMods(a) << 4
  }

  predicate IsKeyKind(a: Action) { Kind(a) == ACT_LMODS || Kind(a) == ACT_RMODS }
  predicate IsModsTapKind(a: Action) { Kind(a) == ACT_LMODS_TAP || Kind(a) == ACT_RMODS_TAP }
  predicate IsLayerTapKind(a: Action) { Kind(a) == ACT_LAYER_TAP || Kind(a) == ACT_LAYER_TAP_EXT }

  const MODS_ONESHOT: Code := 0x00
  const MODS_TAP_TOGGLE: Code := 0x01
  const OP_TAP_TOGGLE: Code := 0xF0
  const OP_ON_OFF: Code := 0xF1
  const OP_OFF_ON: Code := 0xF2
  const OP_SET_CLEAR: Code := 0xF3

  function KeyAction(kb: Kbd, a: Action, pressed: bool): Kbd {
    var m := Mods(a);
    if pressed then
      RegisterCode(if m != 0 then kb.AddWeakMods(m).Send() else kb, KeyCode(a))
    else
      var kb' := UnregisterCode(kb, KeyCode(a));
      if m != 0 then kb'.DelWeakMods(m).Send() else kb'
  }

  function OneshotAction(kb: Kbd, m: bv8, pressed: bool, count: nat): Kbd {
    if pressed then
      if count == 1 then kb.(oneshotMods := m) else RegisterMods(kb, m)
    else if count == 1 then kb
    else UnregisterMods(kb.(oneshotMods := 0), m)
  }

  function TapToggleAction(kb: Kbd, m: bv8, pressed: bool, count: nat): Kbd {
    if pressed then
      if count > TAPPING_TOGGLE then kb
      else if !Apart(m, kb.realMods) then UnregisterMods(kb, m) else RegisterMods(kb, m)
    else if count < TAPPING_TOGGLE then UnregisterMods(kb, m)
    else kb
  }

  // An interrupted tap of a modifier key turns into a hold.
  predicate CancelsTap(a: Action, r: Record) {
    IsModsTapKind(a) && KeyCode(a) != MODS_ONESHOT && KeyCode(a) != MODS_TAP_TOGGLE
    && r.event.pressed && r.tap.count > 0 && r.tap.interrupted
  }

  function ModsTapAction(kb: Kbd, a: Action, r: Record): Kbd {
    var m := Mods(a);
    if KeyCode(a) == MODS_ONESHOT then OneshotAction(kb, m, r.event.pressed, r.tap.count)
    else if KeyCode(a) == MODS_TAP_TOGGLE then TapToggleAction(kb, m, r.event.pressed, r.tap.count)
    else if r.event.pressed then
      if r.tap.count > 0 && !r.tap.interrupted then RegisterCode(kb, KeyCode(a)) else RegisterMods(kb, m)
    else if r.tap.count > 0 then UnregisterCode(kb, KeyCode(a))
    else UnregisterMods(kb, m)
  }

  // On a release for the default layers, else on the event the code names.
  function LayerAction(w: World, a: Action, pressed: bool): World {
    if On(a) == 0 then
      if pressed then w else w.(defaults := Bitop(w.defaults, a))
    else if On(a) & (if pressed then 1 else 2) != 0 then w.(layers := Bitop(w.layers, a))
    else w
  }

  // Modifiers of a layer-with-modifiers code.
  function LayerMods(code: Code): bv8 {
    if code & 0x10 != 0 then (code & 0x0f) << 4 else code & 0x0f
  }

  // layer_on, layer_off and layer_invert
  function TurnOn(state: bv32, layer: bv32): bv32
    requires layer < 32
  {
    state | BitOf(layer)
  }

  function TurnOff(state: bv32, layer: bv32): bv32
    requires layer < 32
  {
    state & !BitOf(layer)
  }

  function Invert(state: bv32, layer: bv32): bv32
    requires layer < 32
  {
    state ^ BitOf(layer)
  }

  function LayerTapAction(w: World, a: Action, pressed: bool, count: nat): World {
    var code, layer := TapCode(a), TapLayer(a);
    if 0xc0 <= code <= 0xdf then
      if pressed then w.(layers := TurnOn(w.layers, layer), kb := RegisterMods(w.kb, LayerMods(code)))
      else w.(layers := TurnOff(w.layers, layer), kb := UnregisterMods(w.kb, LayerMods(code)))
    else if code == OP_TAP_TOGGLE then
      if (if pressed then count < TAPPING_TOGGLE else count <= TAPPING_TOGGLE)
      then w.(layers := Invert(w.layers, layer)) else w
    else if code == OP_ON_OFF then w.(layers := if pressed then TurnOn(w.layers, layer) else TurnOff(w.layers, layer))
    else if code == OP_OFF_ON then w.(layers := if pressed then TurnOff(w.layers, layer) else TurnOn(w.layers, layer))
    else if code == OP_SET_CLEAR then w.(layers := if pressed then BitOf(layer) else 0)
    else if count > 0 then
      w.(kb := if pressed then RegisterCode(w.kb, code) else UnregisterCode(w.kb, code))
    else w.(layers := if pressed then TurnOn(w.layers, layer) else TurnOff(w.layers, layer))
  }

  function Perform(w: World, a: Action, r: Record): World {
    if IsKeyKind(a) then w.(kb := KeyAction(w.kb, a, r.event.pressed))
    else if IsModsTapKind(a) then w.(kb := ModsTapAction(w.kb, a, r))
    else if Kind(a) == ACT_LAYER then LayerAction(w, a, r.event.pressed)
    else if IsLayerTapKind(a) then LayerTapAction(w, a, r.event.pressed, r.tap.count)
    else w
  }

  // The key code the action registers or unregisters for the record, 0 if none.
  function KeyOf(a: Action, r: Record): Code {
    if IsKeyKind(a) then KeyCode(a)
    else if IsModsTapKind(a) then
      if r.tap.count > 0 && !(r.event.pressed && r.tap.interrupted) then KeyCode(a) else NO_KEY
    else if IsLayerTapKind(a) && r.tap.count > 0 then TapCode(a)
    else NO_KEY
  }

  // process_action; the record comes back with its tap count reset if the
  // action cancelled the tap.
  function ProcessAction(km: Keymap, w: World, r: Record): (World, Record) {
    if NoEvent(r.event) then (w, r)
    else
      var (w', a) := Resolve(km, w, r.event);
      (Perform(w', a, r), if CancelsTap(a, r) then r.(tap := r.tap.(count := 0)) else r)
  }

  predicate IsTapAction(a: Action) {
    || IsModsTapKind(a)
    || (IsLayerTapKind(a) && !(0xc0 <= TapCode(a) <= 0xdf) && TapCode(a) != OP_ON_OFF
        && TapCode(a) != OP_OFF_ON && TapCode(a) != OP_SET_CLEAR)
    || ((Kind(a) == ACT_MACRO || Kind(a) == ACT_FUNCTION) && KeyMods(a) & 8 != 0)
  }

  // The releases that wait until tapping is settled: those of modifiers.
  predicate KeepsMods(a: Action, r: Record) {
    || (IsKeyKind(a) && ((KeyMods(a) != 0 && KeyCode(a) == 0) || IsMod(KeyCode(a))))
    || (IsModsTapKind(a) && ((KeyMods(a) != 0 && r.tap.count == 0) || IsMod(KeyCode(a))))
  }

  // On the event a code names.
  predicate Fires(on: bv32, pressed: bool) {
    on & (if pressed then 1 else 2) != 0
  }

  lemma FiresOn16(on: bv32, pressed: bool)
    requires 1 <= on <= 3
    ensures (on as bv16) & (if pressed then 1 else 2) != 0 <==> Fires(on, pressed)
    ensures on as bv16 != 0
  {
  }

  // A layer bit operation on its event, given what it decodes to.
  lemma BitopPerforms(w: World, a: Action, on: bv32, next: bv32, r: Record)
    requires 1 <= on <= 3
    requires Kind(a) == ACT_LAYER && On(a) == on as bv16 && Bitop(w.layers, a) == next
    ensures Perform(w, a, r) == w.(layers := if Fires(on, r.event.pressed) then next else w.layers)
  {
    hide Kind, On, Bitop;
    FiresOn16(on, r.event.pressed);
  }

  lemma DefaultBitopPerforms(w: World, a: Action, next: bv32, r: Record)
    requires Kind(a) == ACT_LAYER && On(a) == 0 && Bitop(w.defaults, a) == next
    ensures Perform(w, a, r) == w.(defaults := if r.event.pressed then w.defaults else next)
  {
    hide Kind, On, Bitop;
  }

  // Each encoder, decoded and performed on its event, is the direct operation
  // on that one layer, and nothing on the other event.
  lemma LayerOnMeans(layer: bv32, on: bv32, w: World, r: Record)
    requires layer < 32 && 1 <= on <= 3
    ensures Perform(w, LayerOn(layer, on), r) ==
            w.(layers := if Fires(on, r.event.pressed) then w.layers | BitOf(layer) else w.layers)
  {
    OnDecodes(layer, on, w.layers);
    BitopPerforms(w, LayerOn(layer, on), on, w.layers | BitOf(layer), r);
  }

  lemma LayerOffMeans(layer: bv32, on: bv32, w: World, r: Record)
    requires layer < 32 && 1 <= on <= 3
    ensures Perform(w, LayerOff(layer, on), r) ==
            w.(layers := if Fires(on, r.event.pressed) then w.layers & !BitOf(layer) else w.layers)
  {
    OffDecodes(layer, on, w.layers);
    BitopPerforms(w, LayerOff(layer, on), on, w.layers & !BitOf(layer), r);
  }

  lemma LayerInvertMeans(layer: bv32, on: bv32, w: World, r: Record)
    requires layer < 32 && 1 <= on <= 3
    ensures Perform(w, LayerInvert(layer, on), r) ==
            w.(layers := if Fires(on, r.event.pressed) then w.layers ^ BitOf(layer) else w.layers)
  {
    InvertDecodes(layer, on, w.layers);
    BitopPerforms(w, LayerInvert(layer, on), on, w.layers ^ BitOf(layer), r);
  }

  lemma LayerSetMeans(layer: bv32, on: bv32, w: World, r: Record)
    requires layer < 32 && 1 <= on <= 3
    ensures Perform(w, LayerSet(layer, on), r) ==
            w.(layers := if Fires(on, r.event.pressed) then BitOf(layer) else w.layers)
  {
    SetDecodes(layer, on, w.layers);
    BitopPerforms(w, LayerSet(layer, on), on, BitOf(layer), r);
  }

  lemma LayerClearMeans(layer: bv32, on: bv32, w: World, r: Record)
    requires layer < 32 && 1 <= on <= 3
    ensures Perform(w, LayerClear(on), r) ==
            w.(layers := if Fires(on, r.event.pressed) then 0 else w.layers)
  {
    ClearDecodes(on, w.layers);
    BitopPerforms(w, LayerClear(on), on, 0, r);
  }

  lemma DefaultLayerSetMeans(layer: bv32, w: World, r: Record)
    requires layer < 32
    ensures Perform(w, DefaultLayerSet(layer), r) ==
            w.(defaults := if r.event.pressed then w.defaults else BitOf(layer))
  {
    DefaultSetDecodes(layer, w.defaults);
    DefaultBitopPerforms(w, DefaultLayerSet(layer), BitOf(layer), r);
  }

  lemma DefaultLayerToggleMeans(layer: bv32, w: World, r: Record)
    requires layer < 32
    ensures Perform(w, DefaultLayerToggle(layer), r) ==
            w.(defaults := if r.event.pressed then w.defaults else w.defaults ^ BitOf(layer))
  {
    DefaultToggleDecodes(layer, w.defaults);
    DefaultBitopPerforms(w, DefaultLayerToggle(layer), w.defaults ^ BitOf(layer), r);
  }
}
