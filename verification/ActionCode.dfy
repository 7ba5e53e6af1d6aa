// The 16-bit action codes of action_code.h: bit fields and the layer encoders.
module ActionCode {
  type Action = bv16

  const ACTION_NO: Action := 0
  const ACTION_TRANSPARENT: Action := 1

  const ACT_LMODS: bv16 := 0
  const ACT_RMODS: bv16 := 1
  const ACT_LMODS_TAP: bv16 := 2
  const ACT_RMODS_TAP: bv16 := 3
  const ACT_LAYER: bv16 := 8
  const ACT_LAYER_TAP: bv16 := 10
  const ACT_LAYER_TAP_EXT: bv16 := 11
  const ACT_MACRO: bv16 := 12
  const ACT_FUNCTION: bv16 := 15

  function Kind(a: Action): bv16 { a >> 12 }

  // struct action_key
  function KeyCode(a: Action): bv8 { (a & 0xff) as bv8 }
  function KeyMods(a: Action): bv8 { ((a >> 8) & 0xf) as bv8 }

  // Modifiers by name, as the encoders take them.
  const MOD_LCTL: bv16 := 0x0100
  const MOD_LSFT: bv16 := 0x0200
  const MOD_LALT: bv16 := 0x0400
  const MOD_LGUI: bv16 := 0x0800
  const MOD_RCTL: bv16 := 0x1100
  const MOD_RSFT: bv16 := 0x1200
  const MOD_RALT: bv16 := 0x1400
  const MOD_RGUI: bv16 := 0x1800

  function ModsKey(mods: bv16, key: bv8): Action { (mods & 0x1f00) | (key as bv16) }

  function ModsTapKey(mods: bv16, key: bv8): Action { 0x2000 | (mods & 0x1f00) | (key as bv16) }

  function LayerTap(layer: bv16, code: bv8): Action
    requires layer < 32
  {
    0xA000 | (layer << 8) | (code as bv16)
  }

  function LayerWithMods(layer: bv16, mods: bv16): Action
    requires layer < 32
  {
    LayerTap(layer, 0xC0 | (((mods >> 8) & 0x1f) as bv8))
  }

  // struct action_layer_bitop
  function Bits(a: Action): bv32 { (a & 0xf) as bv32 }
  function Xbit(a: Action): bool { a & 0x10 != 0 }
  function Part(a: Action): bv32 { ((a >> 5) & 7) as bv32 }
  function On(a: Action): bv16 { (a >> 8) & 3 }
  function Op(a: Action): bv16 { (a >> 10) & 3 }

  // struct action_layer_tap
  function TapCode(a: Action): bv8 { (a & 0xff) as bv8 }
  function TapLayer(a: Action): (layer: bv32)
    ensures layer < 32
  {
    ((a >> 8) & 0x1f) as bv32
  }

  const OP_BIT_AND: bv32 := 0
  const OP_BIT_OR: bv32 := 1
  const OP_BIT_XOR: bv32 := 2
  const OP_BIT_SET: bv32 := 3

  // The C expressions are evaluated in 32 bits and stored in 16.
  function Store16(x: bv32): Action { (x & 0xffff) as bv16 }

  function LayerBitop(op: bv32, part: bv32, bits: bv32, on: bv32): Action {
    Store16((8 << 12) | ((op << 10) | (on << 8) | (part << 5) | (bits & 0x1f)))
  }

  function BitOf(layer: bv32): bv32
    requires layer < 32
  {
    1 << layer
  }

  function LayerOn(layer: bv32, on: bv32): Action
    requires layer < 32
  {
    LayerBitop(OP_BIT_OR, layer / 4, 1 << (layer % 4), on)
  }

  function LayerOff(layer: bv32, on: bv32): Action
    requires layer < 32
  {
    LayerBitop(OP_BIT_AND, layer / 4, !(1 << (layer % 4)), on)
  }

  function LayerInvert(layer: bv32, on: bv32): Action
    requires layer < 32
  {
    LayerBitop(OP_BIT_XOR, layer / 4, 1 << (layer % 4), on)
  }

  function LayerSet(layer: bv32, on: bv32): Action
    requires layer < 32
  {
    LayerBitop(OP_BIT_SET, layer / 4, 1 << (layer % 4), on)
  }

  function LayerClear(on: bv32): Action { LayerBitop(OP_BIT_AND, 0, 0, on) }

  function DefaultLayerSet(layer: bv32): Action
    requires layer < 32
  {
    LayerBitop(OP_BIT_SET, layer / 4, 1 << (layer % 4), 0)
  }

  function DefaultLayerToggle(layer: bv32): Action
    requires layer < 32
  {
    LayerBitop(OP_BIT_XOR, layer / 4, 1 << (layer % 4), 0)
  }

  // What process_action does to a 32-bit layer word for a bit operation.
  function Bitop(state: bv32, a: Action): bv32 {
    var shift := Part(a) << 2;
    var bits := Bits(a) << shift;
    var mask := if Xbit(a) then !(0xf << shift) else 0;
    match Op(a)
    case 0 => state & (bits | mask)
    case 1 => state | (bits | mask)
    case 2 => state ^ (bits | mask)
    case _ => (state & mask) | bits
  }

  lemma OnDecodes(layer: bv32, on: bv32, state: bv32)
    requires layer < 32 && on < 4
    ensures var a := LayerOn(layer, on);
      Kind(a) == ACT_LAYER && On(a) == on as bv16 && Bitop(state, a) == state | BitOf(layer)
  {
  }

  lemma OffDecodes(layer: bv32, on: bv32, state: bv32)
    requires layer < 32 && on < 4
    ensures var a := LayerOff(layer, on);
      Kind(a) == ACT_LAYER && On(a) == on as bv16 && Bitop(state, a) == state & !BitOf(layer)
  {
  }

  lemma InvertDecodes(layer: bv32, on: bv32, state: bv32)
    requires layer < 32 && on < 4
    ensures var a := LayerInvert(layer, on);
      Kind(a) == ACT_LAYER && On(a) == on as bv16 && Bitop(state, a) == state ^ BitOf(layer)
  {
  }

  lemma SetDecodes(layer: bv32, on: bv32, state: bv32)
    requires layer < 32 && on < 4
    ensures var a := LayerSet(layer, on);
      Kind(a) == ACT_LAYER && On(a) == on as bv16 && Bitop(state, a) == BitOf(layer)
  {
  }

  lemma ClearDecodes(on: bv32, state: bv32)
    requires on < 4
    ensures var a := LayerClear(on);
      Kind(a) == ACT_LAYER && On(a) == on as bv16 && Bitop(state, a) == 0
  {
  }

  lemma DefaultSetDecodes(layer: bv32, state: bv32)
    requires layer < 32
    ensures var a := DefaultLayerSet(layer);
      Kind(a) == ACT_LAYER && On(a) == 0 && Bitop(state, a) == BitOf(layer)
  {
  }

  lemma DefaultToggleDecodes(layer: bv32, state: bv32)
    requires layer < 32
    ensures var a := DefaultLayerToggle(layer);
      Kind(a) == ACT_LAYER && On(a) == 0 && Bitop(state, a) == state ^ BitOf(layer)
  {
  }
}
