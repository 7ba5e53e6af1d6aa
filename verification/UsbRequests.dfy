// The requests of an enumeration, read from their bytes: which descriptor goes
// out, what is stalled, and that settings come back as they were made.
module UsbRequests {
  import opened UsbControl
  import opened UsbTransfers

  // bmRequestType, section 9.3.1.
  lemma RequestTypes(p: SetupPacket)
    ensures p.requestType in {0x80, 0x81, 0x82} ==> IsStandard(p) && ToHost(p)
    ensures p.requestType in {0x00, 0x01, 0x02} ==> IsStandard(p) && !ToHost(p)
    ensures p.requestType == 0x21 ==> IsClass(p) && !IsStandard(p) && !ToHost(p)
    ensures p.requestType == 0xA1 ==> IsClass(p) && !IsStandard(p) && ToHost(p)
    ensures p.requestType in {0x40, 0xC0} ==> IsVendor(p) && !IsClass(p) && !IsStandard(p)
    ensures p.requestType in {0x00, 0x80} ==> ForDevice(p) && !ForEndpoint(p)
    ensures p.requestType in {0x02, 0x82} ==> ForEndpoint(p) && !ForDevice(p)
  {
  }

  // wValue of GET_DESCRIPTOR: type and index.
  function DescriptorRequest(kind: nat, index: nat, wIndex: nat, length: nat): SetupPacket
    requires index < 256
  {
    SetupPacket(0x80, GET_DESCRIPTOR, kind * 256 + index, wIndex, length)
  }

  lemma RequestNames(ds: Descriptors, kind: nat, index: nat, wIndex: nat, length: nat)
    requires index < 256 && |ds.reports| == 3
    ensures var p := DescriptorRequest(kind, index, wIndex, length);
      && (kind == 1 ==> Names(ds, p, ds.device))
      && (kind == 2 ==> Names(ds, p, ds.config))
      && (kind == 3 && index == 0 ==> Names(ds, p, ds.serial))
      && (kind == 3 && index == 1 ==> Names(ds, p, ds.manufacturer))
      && (kind == 3 && index == 2 ==> Names(ds, p, ds.product))
      && (kind == 0x22 && wIndex < 3 ==> Names(ds, p, ds.reports[wIndex]))
      && (kind !in {1, 2, 3, 0x22} || (kind == 3 && index > 2) ==> NamesNone(p))
  {
    ValueParts(kind, index);
    assert wIndex < 3 ==> wIndex % 256 == wIndex;
  }

  lemma ValueParts(kind: nat, index: nat)
    requires index < 256
    ensures (kind * 256 + index) / 256 == kind && (kind * 256 + index) % 256 == index
  {
  }

  // The device descriptor, the first thing a host asks for: its bytes go out in
  // order, all of them or up to wLength.
  lemma DeviceDescriptorFirst(rom: Rom, d: Device, length: nat, n: nat)
    requires d.Ok() && Shipped(rom.descriptors) && n > 0
    ensures var l := Min(length, 18);
      && Run(rom, OnSetup(rom, d, DescriptorRequest(1, 0, 0, length)), InTokens(n)).wire ==
         d.wire + Packets(rom, rom.descriptors.device.address, l, 0, n)
      && Concat(Packets(rom, rom.descriptors.device.address, l, 0, n)) ==
         Read(rom.memory, rom.descriptors.device.address, l)
  {
    hide Run, OnSetup, InTokens, Packets, Concat, Read, Names;
    var p := DescriptorRequest(1, 0, 0, length);
    RequestTypes(p);
    RequestNames(rom.descriptors, 1, 0, 0, length);
    ShippedArriveWhole(rom, d, p, rom.descriptors.device, n);
  }

  // A type or string index the firmware does not have is stalled: no IN token
  // is answered with data.
  lemma UnknownStalled(rom: Rom, d: Device, p: SetupPacket, n: nat)
    requires d.Ok() && IsStandard(p) && p.request == GET_DESCRIPTOR && NamesNone(p)
    ensures OnSetup(rom, d, p).ep0 == EP0_STALL
    ensures Run(rom, OnSetup(rom, d, p), InTokens(n)).wire == d.wire
  {
    hide Arrive, PacketBytes, IsStandard, IsClass, ToHost;
    ArriveFields(d, p);
    StalledStays(rom, OnSetup(rom, d, p), n);
  }

  lemma {:induction false} StalledStays(rom: Rom, d: Device, n: nat)
    requires d.Ok() && d.ep0 == EP0_STALL
    ensures Run(rom, d, InTokens(n)) == d
    decreases n
  {
    hide OnIn;
    if n == 0 {
      assert InTokens(0) == [];
    } else {
      assert InTokens(n)[0] == InToken && InTokens(n)[1..] == InTokens(n - 1);
      StalledStays(rom, d, n - 1);
    }
  }

  // Standard requests of any other code are stalled too.
  lemma UnknownRequestStalled(rom: Rom, d: Device, p: SetupPacket)
    requires d.Ok() && IsStandard(p) && (p.request in {2, 4, 7} || p.request > 11)
    ensures OnSetup(rom, d, p).ep0 == EP0_STALL
  {
    hide Arrive, PacketBytes, IsStandard, IsClass, ToHost;
    ArriveFields(d, p);
  }

  // A report descriptor beyond the third is not stalled: 255 bytes from wherever
  // the last read stopped, or up to wLength.
  lemma StaleReport(rom: Rom, d: Device, index: nat, length: nat, n: nat)
    requires d.Ok() && |rom.descriptors.reports| == 3 && 3 <= index < 256
    ensures Run(rom, OnSetup(rom, d, DescriptorRequest(0x22, 0, index, length)), InTokens(n)).wire ==
            d.wire + Packets(rom, d.pointer, Min(length, 255), 0, n)
  {
    hide Sending, OnSetup, Run, InTokens, Packets;
    StaleStarts(rom, d, index, length);
    Reading(rom, OnSetup(rom, d, DescriptorRequest(0x22, 0, index, length)), d.pointer, Min(length, 255), 0, n);
  }

  lemma StaleStarts(rom: Rom, d: Device, index: nat, length: nat)
    requires d.Ok() && |rom.descriptors.reports| == 3 && 3 <= index < 256
    ensures var d' := OnSetup(rom, d, DescriptorRequest(0x22, 0, index, length));
      Sending(rom, d', d.pointer, Min(length, 255), 0) && d'.wire == d.wire
  {
    hide Arrive, PacketBytes, IsStandard, ToHost, IsClass;
    var p := DescriptorRequest(0x22, 0, index, length);
    RequestTypes(p);
    ValueParts(0x22, 0);
    assert Find(rom.descriptors, p) == Stale;
    var l, n := Min(length, 255), Min(Min(length, 255), EP0_SIZE);
    ArriveFields(d, p);
    var h := GetDescriptor(rom, Arrive(d, p), p);
    assert h.d.buffer[..n] == Read(rom.memory, d.pointer, n);
    assert OnSetup(rom, d, p) == Respond(h, p);
    assert PacketAt(rom, d.pointer, l, 0).data == Read(rom.memory, d.pointer, n);
  }

  // HID class requests: those five are accepted, any other is stalled.
  lemma ClassStalledIff(rom: Rom, d: Device, p: SetupPacket)
    requires d.Ok() && p.requestType in {0x21, 0xA1}
    ensures OnSetup(rom, d, p).ep0 == EP0_STALL <==> p.request !in {0x02, 0x03, 0x09, 0x0A, 0x0B}
  {
    hide Arrive, PacketBytes, IsStandard, IsClass, ToHost;
    RequestTypes(p);
  }

  // ----- Features and endpoints -----

  // SET_FEATURE and CLEAR_FEATURE are stalled exactly for an interface or for an
  // endpoint that is not one of 1 to 3; CLEAR_FEATURE does not look at the high
  // byte of wIndex.
  lemma FeatureStalledIff(rom: Rom, d: Device, p: SetupPacket)
    requires d.Ok() && p.requestType in {0x00, 0x01, 0x02} && p.request in {SET_FEATURE, CLEAR_FEATURE}
    ensures var at := if p.request == CLEAR_FEATURE then p.index % 256 else p.index;
      OnSetup(rom, d, p).ep0 == EP0_STALL <==>
        p.requestType == 0x01 || (p.requestType == 0x02 && at !in {0x01, 0x02, 0x03, 0x81, 0x82, 0x83})
  {
    hide Arrive, PacketBytes, IsStandard, IsClass, ToHost, ForDevice, ForEndpoint, Halt, Unhalt;
    RequestTypes(p);
    Recipients(p);
    ArriveFields(d, p);
  }

  lemma Recipients(p: SetupPacket)
    ensures p.requestType in {0x01, 0x81} ==> !ForDevice(p) && !ForEndpoint(p)
  {
  }

  // Setting or clearing halt starts the endpoint's data over at DATA0; cleared,
  // an IN endpoint has nothing to send and an OUT endpoint accepts.
  lemma TogglesReset(rom: Rom, d: Device, p: SetupPacket, e: Endpoint)
    requires d.Ok() && (ToEndpoint(p, CLEAR_FEATURE, e) || ToEndpoint(p, SET_FEATURE, e))
    ensures var ctrl := OnSetup(rom, d, p).eps[e.n];
      && ctrl & (if e.In? then 0x40 else 0x80) == 0
      && (p.request == CLEAR_FEATURE ==> ctrl & (if e.In? then 0x03 else 0x0C) == if e.In? then T_NAK else 0)
  {
    hide Arrive, IsStandard, IsClass, ForEndpoint, ToHost, Unhalt, Halt, EndpointOf;
    EndpointFound(p, p.request, e);
    ArriveFields(d, p);
    TypesApart(p);
    ToggleBits(d.eps[e.n], e);
  }

  lemma ToggleBits(ctrl: bv8, e: Endpoint)
    ensures Unhalt(ctrl, e) & (if e.In? then 0x40 else 0x80) == 0 && Halt(ctrl, e) & (if e.In? then 0x40 else 0x80) == 0
    ensures Unhalt(ctrl, e) & (if e.In? then 0x03 else 0x0C) == if e.In? then T_NAK else 0
  {
  }

  // A bus reset frees every endpoint and clears the address.
  lemma ResetFrees(rom: Rom, d: Device, get: SetupPacket, e: Endpoint)
    requires d.Ok() && ToEndpoint(get, GET_STATUS, e) && ToHost(get) && get.length >= 2
    ensures OnReset(d).address == 0 && !Ready(OnReset(d))
    ensures var d' := OnSetup(rom, OnReset(d), get);
      OnIn(rom, d').wire == d'.wire + [Packet(true, [0, 0])]
  {
    hide OnSetup, OnIn, ToHost, IsStandard, ForEndpoint;
    GetStatusReports(rom, OnReset(d), get, e);
  }

  // The status of an interface should be two zero bytes (section 9.4.5); the
  // first one sent is the type byte of the request, still in the buffer.
  lemma InterfaceStatus(rom: Rom, d: Device, get: SetupPacket)
    requires d.Ok() && get.requestType == 0x81 && get.request == GET_STATUS && get.length >= 2
    ensures Answers(rom, OnSetup(rom, d, get), [0x81, 0])
  {
    hide Arrive, PacketBytes, IsStandard, IsClass, ToHost, ForDevice, ForEndpoint;
    RequestTypes(get);
    Recipients(get);
    ArriveFields(d, get);
    ArriveBytes(d, get);
    assert OnSetup(rom, d, get).buffer[..2] == [0x81, 0];
  }

  // A request without data that is accepted is answered by one empty packet;
  // SET_FEATURE leaves the endpoint ready, so that every IN token gets one.
  lemma StatusStage(rom: Rom, d: Device, p: SetupPacket, n: nat)
    requires d.Ok() && p.requestType in {0x00, 0x01, 0x02, 0x21} && p.request != GET_DESCRIPTOR
    requires OnSetup(rom, d, p).ep0 != EP0_STALL
    ensures Run(rom, OnSetup(rom, d, p), InTokens(n)).wire ==
            d.wire + seq(if p.request == SET_FEATURE then n else Min(n, 1), _ => Packet(true, []))
  {
    hide Run, OnIn, OnSetup;
    var d' := OnSetup(rom, d, p);
    StatusReady(rom, d, p);
    if p.request == SET_FEATURE {
      Repeats(rom, d', n);
      assert d'.buffer[..0] == [];
    } else {
      EmptyOnce(rom, d', n);
    }
  }

  predicate Empty(d: Device) { d.Ok() && d.ep0 == EP0_ANSWER && d.txLen == 0 && d.request != GET_DESCRIPTOR }

  lemma StatusReady(rom: Rom, d: Device, p: SetupPacket)
    requires d.Ok() && p.requestType in {0x00, 0x01, 0x02, 0x21} && OnSetup(rom, d, p).ep0 != EP0_STALL
    ensures var d' := OnSetup(rom, d, p);
      d'.Ok() && d'.ep0 == EP0_ANSWER && d'.txLen == 0 && d'.request == p.request && d'.wire == d.wire
  {
    hide Arrive, Handle, ToHost;
    RequestTypes(p);
    ArriveFields(d, p);
    HandleKeeps(rom, Arrive(d, p), p);
  }

  // The default branch for IN tokens ends a transfer; the one for SET_FEATURE
  // does not.
  lemma {:induction false} Repeats(rom: Rom, d: Device, n: nat)
    requires d.Ok() && d.ep0 == EP0_ANSWER && d.request == SET_FEATURE
    ensures Run(rom, d, InTokens(n)).wire == d.wire + seq(n, _ => Packet(true, d.buffer[..d.txLen]))
    decreases n
  {
    var again := Packet(true, d.buffer[..d.txLen]);
    if n == 0 {
      assert InTokens(0) == [];
    } else {
      assert InTokens(n)[0] == InToken && InTokens(n)[1..] == InTokens(n - 1);
      Repeats(rom, OnIn(rom, d), n - 1);
      assert d.wire + [again] + seq(n - 1, _ => again) == d.wire + seq(n, _ => again);
    }
  }

  lemma EmptyOnce(rom: Rom, d: Device, n: nat)
    requires Empty(d) && d.request != SET_FEATURE
    ensures Run(rom, d, InTokens(n)).wire == d.wire + seq(Min(n, 1), _ => Packet(true, []))
  {
    if n == 0 {
      assert InTokens(0) == [];
    } else {
      assert InTokens(n)[0] == InToken && InTokens(n)[1..] == InTokens(n - 1);
      NakStays(rom, OnIn(rom, d), n - 1);
    }
  }

  lemma {:induction false} NakStays(rom: Rom, d: Device, n: nat)
    requires d.Ok() && !Ready(d)
    ensures Run(rom, d, InTokens(n)) == d
    decreases n
  {
    hide OnIn, Ready;
    if n == 0 {
      assert InTokens(0) == [];
    } else {
      assert InTokens(n)[0] == InToken && InTokens(n)[1..] == InTokens(n - 1);
      NakStays(rom, d, n - 1);
    }
  }

  // SET_ADDRESS takes effect with the IN token that completes it; the top bit of
  // the register is not part of the address.
  lemma AddressTaken(rom: Rom, d: Device, p: SetupPacket)
    requires d.Ok() && p.requestType == 0x00 && p.request == SET_ADDRESS && p.value < 128
    ensures OnSetup(rom, d, p).address == d.address
    ensures var a := OnIn(rom, OnSetup(rom, d, p)).address;
      a & 0x7F == Low(p.value) && a & 0x80 == d.address & 0x80
  {
    hide Arrive, Handle, IsStandard, IsClass, ToHost, NewAddress, Low;
    RequestTypes(p);
    ArriveFields(d, p);
    HandleKeeps(rom, Arrive(d, p), p);
    AddressBits(d.address, p.value);
  }

  lemma AddressBits(was: bv8, n: nat)
    requires n < 128
    ensures NewAddress(was, n) & 0x7F == Low(n) && NewAddress(was, n) & 0x80 == was & 0x80
  {
    hide Low;
    LowSmall(n);
    JoinedBits(was, Low(n));
  }

  lemma LowSmall(n: nat)
    requires n < 128
    ensures Low(n) < 128
  {
  }

  lemma JoinedBits(was: bv8, n: bv8)
    ensures n < 128 ==> ((was & 0x80) | n) & 0x7F == n && ((was & 0x80) | n) & 0x80 == was & 0x80
  {
  }

  // ----- Settings come back -----

  // The next IN token is answered with these bytes, and none after it.
  predicate Answers(rom: Rom, d: Device, bytes: seq<Byte>) {
    d.Ok() && Ready(d) && OnIn(rom, d).wire == d.wire + [Packet(true, bytes)] && !Ready(OnIn(rom, d))
  }

  lemma ArriveBytes(d: Device, p: SetupPacket)
    requires d.Ok()
    ensures Arrive(d, p).buffer[0] == p.requestType
    ensures Arrive(d, p).buffer[2] == Low(p.value) && Arrive(d, p).buffer[3] == Low(p.value / 256)
    ensures Arrive(d, p).idle == d.idle && Arrive(d, p).protocol == d.protocol && Arrive(d, p).config == d.config
  {
    assert Arrive(d, p).buffer[..8] == PacketBytes(p);
  }

  // GET_CONFIGURATION answers what SET_CONFIGURATION last put.
  lemma ConfigComesBack(rom: Rom, d: Device, put: SetupPacket, get: SetupPacket)
    requires d.Ok() && put.requestType == 0x00 && put.request == SET_CONFIGURATION
    requires get.requestType == 0x80 && get.request == GET_CONFIGURATION && get.length >= 1
    ensures var d1 := OnSetup(rom, d, put);
      && Answers(rom, d1, [])
      && Answers(rom, OnSetup(rom, OnIn(rom, d1), get), [Low(put.value)])
  {
    hide Arrive, PacketBytes, IsStandard, IsClass, ToHost, Low;
    RequestTypes(put);
    RequestTypes(get);
    ArriveFields(d, put);
    var d1 := OnSetup(rom, d, put);
    var d2 := OnIn(rom, d1);
    ArriveFields(d2, get);
    ArriveBytes(d, put);
    ArriveBytes(d2, get);
    assert OnSetup(rom, d2, get).buffer[..1] == [Low(put.value)];
  }

  // HID class requests: GET_IDLE answers the duration SET_IDLE gave.
  lemma IdleComesBack(rom: Rom, d: Device, put: SetupPacket, get: SetupPacket)
    requires d.Ok() && put.requestType == 0x21 && get.requestType == 0xA1 && get.length == 1
    requires put.request == 0x0A && get.request == 0x02
    ensures var d1 := OnSetup(rom, d, put);
      && Answers(rom, d1, [])
      && Answers(rom, OnSetup(rom, OnIn(rom, d1), get), [Low(put.value / 256)])
  {
    hide Arrive, PacketBytes, IsStandard, IsClass, ToHost, Low;
    RequestTypes(put);
    RequestTypes(get);
    ArriveFields(d, put);
    ArriveBytes(d, put);
    var d2 := OnIn(rom, OnSetup(rom, d, put));
    ArriveFields(d2, get);
    ArriveBytes(d2, get);
    assert OnSetup(rom, d2, get).buffer[..1] == [Low(put.value / 256)];
  }

  // Both class answers are one byte long only if the host asks for one: the
  // length they set is overwritten.
  lemma ClassAnswerLength(rom: Rom, d: Device, p: SetupPacket)
    requires d.Ok() && p.requestType == 0xA1 && p.request in {0x02, 0x03}
    ensures OnSetup(rom, d, p).txLen == Min(p.length, EP0_SIZE)
  {
    hide Arrive, PacketBytes, IsStandard, IsClass, ToHost;
    RequestTypes(p);
    ArriveFields(d, p);
  }

  // GET_PROTOCOL answers the protocol SET_PROTOCOL gave.  Its code is that of
  // SET_FEATURE, so that every IN token gets the answer again.
  lemma ProtocolComesBack(rom: Rom, d: Device, put: SetupPacket, get: SetupPacket, n: nat)
    requires d.Ok() && put.requestType == 0x21 && get.requestType == 0xA1 && get.length == 1
    requires put.request == 0x0B && get.request == 0x03
    ensures var d1 := OnSetup(rom, d, put);
      var d2 := OnSetup(rom, OnIn(rom, d1), get);
      Answers(rom, d1, []) && Run(rom, d2, InTokens(n)).wire == d2.wire + seq(n, _ => Packet(true, [Low(put.value)]))
  {
    hide Arrive, PacketBytes, IsStandard, IsClass, ToHost, Low, Run;
    RequestTypes(put);
    RequestTypes(get);
    ArriveFields(d, put);
    ArriveBytes(d, put);
    var d2 := OnIn(rom, OnSetup(rom, d, put));
    ArriveFields(d2, get);
    ArriveBytes(d2, get);
    assert OnSetup(rom, d2, get).buffer[..1] == [Low(put.value)];
    Repeats(rom, OnSetup(rom, d2, get), n);
  }

  // The one alternate setting there is.
  lemma InterfaceIsZero(rom: Rom, d: Device, put: SetupPacket, get: SetupPacket)
    requires d.Ok() && put.requestType == 0x01 && put.request == SET_INTERFACE
    requires get.requestType == 0x81 && get.request == GET_INTERFACE && get.length >= 1
    ensures Answers(rom, OnSetup(rom, d, put), []) && Answers(rom, OnSetup(rom, d, get), [0])
  {
    hide Arrive, PacketBytes, IsStandard, IsClass, ToHost;
    RequestTypes(put);
    RequestTypes(get);
    ArriveFields(d, put);
    ArriveFields(d, get);
    assert OnSetup(rom, d, get).buffer[..1] == [0];
  }

  // Remote wakeup, section 9.4.5: on after SET_FEATURE, off after CLEAR_FEATURE.
  lemma WakeupComesBack(rom: Rom, d: Device, put: SetupPacket, get: SetupPacket)
    requires d.Ok() && (d.sleep == 0 || d.sleep == 1) && put.requestType == 0x00 && put.value == 1
    requires put.request == SET_FEATURE || put.request == CLEAR_FEATURE
    requires get.requestType == 0x80 && get.request == GET_STATUS && get.length >= 2
    ensures Answers(rom, OnSetup(rom, OnSetup(rom, d, put), get),
                    [if put.request == SET_FEATURE then 2 else 0, 0])
  {
    hide Arrive, PacketBytes, IsStandard, IsClass, ToHost, ForDevice, ForEndpoint;
    RequestTypes(put);
    RequestTypes(get);
    ArriveFields(d, put);
    ArriveSleep(d, put);
    var d1 := OnSetup(rom, d, put);
    ArriveFields(d1, get);
    ArriveSleep(d1, get);
    SleepBits();
    assert OnSetup(rom, d1, get).buffer[..2] == [if put.request == SET_FEATURE then 2 else 0, 0];
  }

  lemma ArriveSleep(d: Device, p: SetupPacket)
    requires d.Ok()
    ensures Arrive(d, p).sleep == d.sleep
  {
  }

  lemma SleepBits()
    ensures (0 as bv8) | 1 == 1 && (1 as bv8) | 1 == 1 && (0 as bv8) & !1 == 0 && (1 as bv8) & !1 == 0
  {
  }
}
