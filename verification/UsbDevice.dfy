// USB_DevTransProcess as written: registers, request globals and the endpoint
// buffer updated per interrupt.
module UsbDevice {
  import opened UsbControl

  class Usb {
    const rom: Rom
    const buffer: array<Byte>
    const eps: array<bv8>
    var devAd: bv8
    var ep0Ctrl: bv8
    var ep0TLen: nat
    var setupReqCode: bv8
    var setupReqLen: nat
    var pDescr: nat
    var devConfig: bv8
    var sleepStatus: bv8
    var idleValue: bv8
    var reportValue: bv8
    ghost var wire: seq<Packet>

    ghost predicate Valid()
      reads this`ep0TLen
    {
      buffer.Length == EP0_SIZE && eps.Length == 3 && buffer != eps && ep0TLen <= EP0_SIZE
    }

    ghost function Value(): (d: Device)
      reads this, buffer, eps
      ensures Valid() ==> d.Ok()
    {
      Device(devAd, ep0Ctrl, eps[..], ep0TLen, setupReqCode, setupReqLen, pDescr, buffer[..],
             devConfig, sleepStatus, idleValue, reportValue, wire)
    }

    constructor (rom: Rom)
      ensures Valid() && fresh(buffer) && fresh(eps) && this.rom == rom
      ensures Value() == POWER_ON
    {
      this.rom := rom;
      buffer := new Byte[64](_ => 0);
      eps := new bv8[3](_ => T_NAK);
      devAd, ep0Ctrl, ep0TLen, setupReqCode, setupReqLen, pDescr := 0, T_NAK, 0, 0, 0, 0;
      devConfig, sleepStatus, idleValue, reportValue, wire := 0, 0, 0, 0, [];
      new;
      assert eps[..] == [T_NAK, T_NAK, T_NAK];
      assert buffer[..] == seq(EP0_SIZE, _ => 0);
    }

    // memcpy(pEP0_DataBuf, pDescr, n)
    method CopyDescriptor(n: nat)
      requires Valid() && n <= EP0_SIZE
      modifies buffer
      ensures Valid() && buffer[..] == Fill(old(buffer[..]), Read(rom.memory, pDescr, n))
    {
      ghost var was := buffer[..];
      for i := 0 to n
        invariant forall j :: 0 <= j < i ==> buffer[j] == rom.memory(pDescr + j)
        invariant forall j :: i <= j < EP0_SIZE ==> buffer[j] == was[j]
      {
        buffer[i] := rom.memory(pDescr + i);
      }
      assert buffer[..] == Fill(was, Read(rom.memory, pDescr, n));
    }

    method StorePacket(p: SetupPacket)
      requires Valid()
      modifies buffer
      ensures Valid() && buffer[..] == Fill(old(buffer[..]), PacketBytes(p))
    {
      hide Low;
      ghost var was := buffer[..];
      var bytes := PacketBytes(p);
      for i := 0 to |bytes|
        invariant forall j :: 0 <= j < i ==> buffer[j] == bytes[j]
        invariant forall j :: i <= j < EP0_SIZE ==> buffer[j] == was[j]
      {
        buffer[i] := bytes[i];
      }
      assert buffer[..] == Fill(was, bytes);
    }

    method GetDescriptorRequest(p: SetupPacket) returns (stall: bool)
      requires Valid()
      modifies this`setupReqLen, this`pDescr, buffer
      ensures Valid() && Handled(Value(), stall) == GetDescriptor(rom, old(Value()), p)
    {
      hide Find, Fill;
      var found := Find(rom.descriptors, p);
      var len := FoundLength(found);
      stall := found.Unknown?;
      if found.Found? { pDescr := found.descriptor.address; }
      if setupReqLen > len { setupReqLen := len; }
      len := if setupReqLen >= EP0_SIZE then EP0_SIZE else setupReqLen;
      CopyDescriptor(len);
      pDescr := pDescr + len;
    }

    method ClearFeatureRequest(p: SetupPacket) returns (stall: bool)
      requires Valid()
      modifies this`sleepStatus, eps
      ensures Valid() && Handled(Value(), stall) == ClearFeature(old(Value()), p)
    {
      hide ForEndpoint, ForDevice, EndpointOf, Unhalt;
      stall := false;
      if ForEndpoint(p) {
        var e := EndpointOf(p.index % 256);
        if e == NoEndpoint {
          stall := true;
        } else {
          eps[e.n] := Unhalt(eps[e.n], e);
        }
      } else if ForDevice(p) {
        if p.value == 1 { sleepStatus := sleepStatus & !0x01; }
      } else {
        stall := true;
      }
    }

    method SetFeatureRequest(p: SetupPacket) returns (stall: bool)
      requires Valid()
      modifies this`sleepStatus, eps
      ensures Valid() && Handled(Value(), stall) == SetFeature(old(Value()), p)
    {
      hide ForEndpoint, ForDevice, EndpointOf, Halt;
      stall := false;
      if ForEndpoint(p) {
        var e := EndpointOf(p.index);
        if e == NoEndpoint {
          stall := true;
        } else {
          eps[e.n] := Halt(eps[e.n], e);
        }
      } else if ForDevice(p) {
        if p.value == 1 { sleepStatus := sleepStatus | 0x01; }
      } else {
        stall := true;
      }
    }

    method GetStatusRequest(p: SetupPacket)
      requires Valid()
      modifies this`setupReqLen, buffer
      ensures Valid() && Handled(Value(), false) == GetStatus(old(Value()), p)
    {
      hide ForEndpoint, ForDevice, EndpointOf, IsHalted;
      ghost var was := buffer[..];
      if ForEndpoint(p) {
        buffer[0] := 0;
        var e := EndpointOf(p.index);
        if e != NoEndpoint && IsHalted(eps[e.n], e) { buffer[0] := 1; }
      } else if ForDevice(p) {
        buffer[0] := if sleepStatus != 0 then 2 else 0;
      }
      ghost var first := buffer[0];
      buffer[1] := 0;
      assert buffer[..] == was[0 := first][1 := 0];
      if setupReqLen >= 2 { setupReqLen := 2; }
    }

    method StandardRequests(p: SetupPacket) returns (stall: bool)
      requires Valid()
      modifies this`setupReqLen, this`pDescr, this`sleepStatus, this`devConfig, buffer, eps
      ensures Valid() && Handled(Value(), stall) == StandardRequest(rom, old(Value()), p)
    {
      hide GetDescriptor, ClearFeature, SetFeature, GetStatus, Low;
      stall := false;
      if p.request == GET_DESCRIPTOR {
        stall := GetDescriptorRequest(p);
      } else if p.request == SET_ADDRESS {
        setupReqLen := p.value % 256;
      } else if p.request == GET_CONFIGURATION {
        buffer[0] := devConfig;
        if setupReqLen > 1 { setupReqLen := 1; }
      } else if p.request == SET_CONFIGURATION {
        devConfig := Low(p.value);
      } else if p.request == CLEAR_FEATURE {
        stall := ClearFeatureRequest(p);
      } else if p.request == SET_FEATURE {
        stall := SetFeatureRequest(p);
      } else if p.request == GET_INTERFACE {
        buffer[0] := 0;
        if setupReqLen > 1 { setupReqLen := 1; }
      } else if p.request == SET_INTERFACE {
      } else if p.request == GET_STATUS {
        GetStatusRequest(p);
      } else {
        stall := true;
      }
    }

    method ClassRequests(p: SetupPacket) returns (stall: bool)
      requires Valid()
      modifies this`idleValue, this`reportValue, buffer
      ensures Valid() && Handled(Value(), stall) == ClassRequest(old(Value()), p)
    {
      stall := false;
      if p.request == 0x0A {
        idleValue := buffer[3];
      } else if p.request == 0x09 {
      } else if p.request == 0x0B {
        reportValue := buffer[2];
      } else if p.request == 0x02 {
        buffer[0] := idleValue;
      } else if p.request == 0x03 {
        buffer[0] := reportValue;
      } else {
        stall := true;
      }
    }

    // The SETUP part of the handler.
    method Setup(p: SetupPacket)
      requires Valid()
      modifies this, buffer, eps
      ensures Valid() && Value() == OnSetup(rom, old(Value()), p)
    {
      hide Handle, Respond, Fill, PacketBytes;
      StorePacket(p);
      setupReqLen := p.length;
      setupReqCode := p.request;
      assert Value() == Arrive(old(Value()), p);
      var stall := HandleRequest(p);
      Answer(p, stall);
    }

    method HandleRequest(p: SetupPacket) returns (stall: bool)
      requires Valid()
      modifies this`setupReqLen, this`pDescr, this`sleepStatus, this`devConfig, this`idleValue, this`reportValue,
        buffer, eps
      ensures Valid() && Handled(Value(), stall) == Handle(rom, old(Value()), p)
    {
      hide StandardRequest, ClassRequest, IsStandard, IsClass;
      stall := false;
      if IsStandard(p) {
        stall := StandardRequests(p);
      } else if IsClass(p) {
        stall := ClassRequests(p);
      }
    }

    method Answer(p: SetupPacket, stall: bool)
      requires Valid()
      modifies this`setupReqLen, this`ep0TLen, this`ep0Ctrl
      ensures Valid() && Value() == Respond(Handled(old(Value()), stall), p)
    {
      hide ToHost;
      if stall {
        ep0Ctrl := EP0_STALL;
      } else {
        var len := 0;
        if ToHost(p) {
          len := if setupReqLen > EP0_SIZE then EP0_SIZE else setupReqLen;
          setupReqLen := setupReqLen - len;
        }
        ep0TLen := len;
        ep0Ctrl := EP0_ANSWER;
      }
    }

    // The GET_DESCRIPTOR case of a completed IN.
    method NextPacket()
      requires Valid()
      modifies this`setupReqLen, this`pDescr, this`ep0TLen, this`ep0Ctrl, buffer
      ensures Valid()
      ensures var d := old(Value()); var n := Min(d.remaining, EP0_SIZE);
        Value() == d.(buffer := Fill(d.buffer, Read(rom.memory, d.pointer, n)), remaining := d.remaining - n,
                      pointer := d.pointer + n, txLen := n, ep0 := FlipToggle(d.ep0))
    {
      hide FlipToggle, Fill, Read;
      var len := if setupReqLen >= EP0_SIZE then EP0_SIZE else setupReqLen;
      CopyDescriptor(len);
      setupReqLen := setupReqLen - len;
      pDescr := pDescr + len;
      ep0TLen := len;
      ep0Ctrl := FlipToggle(ep0Ctrl);
    }

    // The packet in the buffer has gone out on an IN token.
    method In()
      requires Valid() && Acks(ep0Ctrl)
      modifies this`wire, this`setupReqLen, this`pDescr, this`ep0TLen, this`ep0Ctrl, this`devAd, buffer
      ensures Valid() && Value() == OnIn(rom, old(Value()))
    {
      hide NewAddress, FlipToggle, IsData1, Acks, Fill, Read;
      wire := wire + [Packet(IsData1(ep0Ctrl), buffer[..ep0TLen])];
      if setupReqCode == GET_DESCRIPTOR {
        NextPacket();
      } else if setupReqCode == SET_ADDRESS {
        devAd := NewAddress(devAd, setupReqLen);
        ep0Ctrl := T_NAK;
      } else if setupReqCode == SET_FEATURE {
      } else {
        ep0TLen := 0;
        ep0Ctrl := T_NAK;
      }
    }

    method Reset()
      requires Valid()
      modifies this`devAd, this`ep0Ctrl, eps
      ensures Valid() && Value() == OnReset(old(Value()))
    {
      devAd := 0;
      ep0Ctrl := T_NAK;
      eps[0] := T_NAK;
      eps[1] := T_NAK;
      eps[2] := T_NAK;
      assert eps[..] == [T_NAK, T_NAK, T_NAK];
    }
  }
}
