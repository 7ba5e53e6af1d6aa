// eeprom.c and the storage commands of hid_configuration.c: the keymap, macro
// and config areas in memory, the derived keymap_valid flag, and the replies.
module KeymapStore {
  import opened KeymapBytes

  datatype Area = KeymapArea | MacroArea | ConfigArea | EncoderArea

  // The answers sent to the host.
  datatype Reply = Success | ParameterError | WriteOverflow | Data(bytes: seq<bv8>)

  const AC_NO: Code16 := 0
  const MACRO_SIZE := 1024
  const CONFIG_SIZE := 24

  class Store {
    const shape: Shape
    const actionmaps: (nat, nat, nat) -> Code16
    const keymapBlock: array<bv8>
    const macroBlock: array<bv8>
    const configBlock: array<bv8>
    var keymapValid: bool

    ghost predicate Sized() {
      && keymapBlock != macroBlock && keymapBlock != configBlock && macroBlock != configBlock
      && keymapBlock.Length == shape.BlockSize() <= 0xFFFF
      && macroBlock.Length == MACRO_SIZE && configBlock.Length == CONFIG_SIZE
    }

    // keymap_valid always says whether some byte of the keymap is set.
    ghost predicate Valid()
      reads this, keymapBlock
    {
      Sized() && (keymapValid <==> SomeByte(keymapBlock[..]))
    }

    constructor (shape: Shape, actionmaps: (nat, nat, nat) -> Code16)
      requires shape.BlockSize() <= 0xFFFF
      ensures Valid() && !keymapValid && this.shape == shape && this.actionmaps == actionmaps
      ensures fresh(keymapBlock) && fresh(macroBlock) && fresh(configBlock)
    {
      this.shape, this.actionmaps := shape, actionmaps;
      keymapBlock := new bv8[shape.BlockSize()](_ => 0);
      macroBlock := new bv8[MACRO_SIZE](_ => 0);
      configBlock := new bv8[CONFIG_SIZE](_ => 0);
      keymapValid := false;
    }

    // check_keymap
    method CheckKeymap()
      requires Sized()
      modifies this`keymapValid
      ensures Valid()
    {
      hide Shape.BlockSize;
      BlockIsKeys(shape);
      var flag := false;
      var i := 0;
      while i < shape.LayerSize() * MAX_LAYER
        invariant i <= keymapBlock.Length
        invariant !flag && forall j :: 0 <= j < i ==> keymapBlock[j] == 0
      {
        flag := flag || keymapBlock[i] != 0;
        if flag {
          assert keymapBlock[..][i] != 0;
          break;
        }
        i := i + 1;
      }
      keymapValid := flag;
    }

    // action_for_key.  A layer from MAX_LAYER up that the guard lets through
    // would be read past the block.
    method ActionForKey(layer: nat, row: nat, col: nat) returns (action: Code16)
      requires Valid() && (layer < MAX_LAYER || layer >= shape.LayerSize())
      ensures action == Lookup(shape, keymapBlock[..], actionmaps, layer, row, col)
    {
      hide SomeByte, CodeOf, Shape.BlockSize, Shape.Index, Shape.LayerSize;
      if layer >= shape.LayerSize() || col >= shape.cols || row >= shape.rows {
        return AC_NO;
      }
      if keymapValid {
        RowFits(shape, layer, row, col);
        var index := shape.Index(layer, row, col);
        return CodeOf(keymapBlock[index], keymapBlock[index + 1]);
      }
      return actionmaps(layer, row, col);
    }

    // storage_get_data_pointer, without an encoder.
    function Pointer(area: Area): array?<bv8> {
      match area
      case KeymapArea => keymapBlock
      case MacroArea => macroBlock
      case ConfigArea => configBlock
      case EncoderArea => null
    }

    method StorageReadData(area: Area, offset: nat, len: nat) returns (data: seq<bv8>)
      requires Valid() && (Pointer(area) != null ==> offset <= Pointer(area).Length)
      ensures Pointer(area) == null ==> data == []
      ensures Pointer(area) != null ==> data == ReadAt(Pointer(area)[..], offset, len)
    {
      var pointer := Pointer(area);
      if pointer == null { return []; }
      var n := len;
      if pointer.Length < len + offset {
        n := pointer.Length - offset;
      }
      return pointer[offset..offset + n];
    }

    // memcpy into an area.
    method Copy(to: array<bv8>, offset: nat, data: seq<bv8>)
      requires offset + |data| <= to.Length
      modifies to
      ensures to[..] == old(to[..offset]) + data + old(to[offset + |data|..])
    {
      var i := 0;
      while i < |data|
        invariant i <= |data|
        invariant to[..offset] == old(to[..offset])
        invariant to[offset..offset + i] == data[..i]
        invariant to[offset + i..] == old(to[offset + i..])
      {
        to[offset + i] := data[i];
        assert to[offset..offset + i + 1] == to[offset..offset + i] + [data[i]];
        assert to[offset + i + 1..] == to[offset + i..][1..];
        i := i + 1;
      }
      assert to[..] == to[..offset] + to[offset..offset + |data|] + to[offset + |data|..];
    }

    method StorageWriteData(area: Area, offset: nat, data: seq<bv8>) returns (n: nat)
      requires Valid() && (Pointer(area) != null ==> offset <= Pointer(area).Length)
      modifies this`keymapValid, keymapBlock, macroBlock, configBlock
      ensures Valid()
      ensures Pointer(area) == null ==> n == 0
      ensures Pointer(area) != null ==> n == Fit(Pointer(area).Length, offset, |data|) <= |data|
      ensures Pointer(area) != null ==> Pointer(area)[..] == Written(old(Pointer(area)[..]), offset, data)
      ensures forall a | a in [KeymapArea, MacroArea, ConfigArea] && a != area ::
                Pointer(a)[..] == old(Pointer(a)[..])
    {
      hide SomeByte, Shape.BlockSize;
      var pointer := Pointer(area);
      if pointer == null { return 0; }
      n := |data|;
      if pointer.Length < |data| + offset {
        n := pointer.Length - offset;
      }
      Copy(pointer, offset, data[..n]);
      if area == KeymapArea {
        CheckKeymap();
      }
    }

    method ResponseStorage(area: Area, offset: nat, len: nat) returns (reply: Reply)
      requires Valid() && (Pointer(area) != null ==> offset <= Pointer(area).Length)
      ensures len > PACKET ==> reply == ParameterError
      ensures len <= PACKET ==> reply.Data?
      ensures len <= PACKET && Pointer(area) == null ==> reply.bytes == []
      ensures len <= PACKET && Pointer(area) != null ==> reply.bytes == ReadAt(Pointer(area)[..], offset, len)
    {
      if len > PACKET { return ParameterError; }
      var data := StorageReadData(area, offset, len);
      return Data(data);
    }

    method GetAllKeys(offset: nat) returns (reply: Reply)
      requires Valid() && offset <= keymapBlock.Length
      ensures reply == Data(ReadAt(keymapBlock[..], offset, PACKET))
    {
      reply := ResponseStorage(KeymapArea, offset, PACKET);
    }

    method GetSingleKey(layer: nat, row: nat, col: nat) returns (reply: Reply)
      requires Valid() && (layer < MAX_LAYER || layer >= shape.LayerSize())
      ensures var k := Lookup(shape, keymapBlock[..], actionmaps, layer, row, col);
        reply == Data([Low(k), High(k)])
    {
      var action := ActionForKey(layer, row, col);
      return Data([Low(action), High(action)]);
    }

    method SetStorage(area: Area, offset: nat, data: seq<bv8>) returns (reply: Reply)
      requires Valid() && (Pointer(area) != null ==> offset <= Pointer(area).Length)
      modifies this`keymapValid, keymapBlock, macroBlock, configBlock
      ensures Valid()
      ensures reply == Success || reply == WriteOverflow
      ensures reply == Success <==>
              data == [] || (Pointer(area) != null && offset + |data| <= Pointer(area).Length)
      ensures Pointer(area) != null ==> Pointer(area)[..] == Written(old(Pointer(area)[..]), offset, data)
      ensures forall a | a in [KeymapArea, MacroArea, ConfigArea] && a != area ::
                Pointer(a)[..] == old(Pointer(a)[..])
    {
      hide SomeByte, Shape.BlockSize, Written;
      var n := StorageWriteData(area, offset, data);
      return if n < |data| then WriteOverflow else Success;
    }

    // The packed index is computed without looking at the matrix size, in 16
    // bits.
    method SetSingleKey(layer: nat, row: nat, col: nat, keycode: Code16) returns (reply: Reply)
      requires Valid() && shape.Index(layer, row, col) % 0x1_0000 <= keymapBlock.Length
      modifies this`keymapValid, keymapBlock, macroBlock, configBlock
      ensures Valid() && macroBlock[..] == old(macroBlock[..]) && configBlock[..] == old(configBlock[..])
      ensures shape.Inside(layer, row, col) ==>
                && reply == Success
                && shape.Index(layer, row, col) + 2 <= keymapBlock.Length
                && keymapBlock[..] ==
                   Written(old(keymapBlock[..]), shape.Index(layer, row, col), [Low(keycode), High(keycode)])
      ensures !shape.Inside(layer, row, col) ==>
                keymapBlock[..] == Written(old(keymapBlock[..]), shape.Index(layer, row, col) % 0x1_0000,
                                           [Low(keycode), High(keycode)])
    {
      hide SomeByte, Shape.BlockSize, Shape.Index, Written, Low, High;
      if shape.Inside(layer, row, col) {
        RowFits(shape, layer, row, col);
      }
      reply := SetStorage(KeymapArea, shape.Index(layer, row, col) % 0x1_0000, [Low(keycode), High(keycode)]);
      assert Pointer(MacroArea)[..] == old(Pointer(MacroArea)[..]);
      assert Pointer(ConfigArea)[..] == old(Pointer(ConfigArea)[..]);
    }

    method SetAllKeys(id: nat, data: seq<bv8>) returns (reply: Reply)
      requires Valid() && id < PACKET_IDS && id * PACKET <= keymapBlock.Length
      modifies this`keymapValid, keymapBlock, macroBlock, configBlock
      ensures Valid() && macroBlock[..] == old(macroBlock[..]) && configBlock[..] == old(configBlock[..])
      ensures reply == if data == [] || id * PACKET + |data| <= keymapBlock.Length then Success else WriteOverflow
      ensures keymapBlock[..] == Written(old(keymapBlock[..]), id * PACKET, data)
    {
      hide SomeByte, Shape.BlockSize, Written;
      reply := SetStorage(KeymapArea, id * PACKET, data);
      assert Pointer(MacroArea)[..] == old(Pointer(MacroArea)[..]);
      assert Pointer(ConfigArea)[..] == old(Pointer(ConfigArea)[..]);
    }
  }
}
