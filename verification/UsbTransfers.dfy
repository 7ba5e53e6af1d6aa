// Control transfers on endpoint 0: what a control read puts on the bus, when
// the device address changes, and endpoint halt.
module UsbTransfers {
  import opened UsbControl

  // Bytes gone out with the first i packets of a transfer of l bytes.
  function SentBy(l: nat, i: nat): nat { Min(l, EP0_SIZE * i) }

  // The i-th packet of a control read of l bytes stored at `at`.
  function PacketAt(rom: Rom, at: nat, l: nat, i: nat): Packet {
    SentMonotonic(l, i);
    Packet(i % 2 == 0, Read(rom.memory, at + SentBy(l, i), SentBy(l, i + 1) - SentBy(l, i)))
  }

  lemma SentMonotonic(l: nat, i: nat)
    ensures SentBy(l, i) <= SentBy(l, i + 1) <= SentBy(l, i) + EP0_SIZE
  {
  }

  // Packets i, i + 1, ..., n of them.
  function Packets(rom: Rom, at: nat, l: nat, i: nat, n: nat): (ps: seq<Packet>)
    ensures |ps| == n
    ensures forall k :: 0 <= k < n ==> ps[k] == PacketAt(rom, at, l, i + k)
    decreases n
  {
    if n == 0 then [] else [PacketAt(rom, at, l, i)] + Packets(rom, at, l, i + 1, n - 1)
  }

  function Concat(ps: seq<Packet>): seq<Byte> {
    if ps == [] then [] else ps[0].data + Concat(ps[1..])
  }

  // Packet i is prepared and the rest of the transfer is still to come.
  predicate Sending(rom: Rom, d: Device, at: nat, l: nat, i: nat) {
    && d.Ok() && d.request == GET_DESCRIPTOR
    && d.ep0 == (if i % 2 == 0 then 0xC0 else 0x80)
    && d.txLen <= |d.buffer| && d.buffer[..d.txLen] == PacketAt(rom, at, l, i).data
    && d.remaining == l - SentBy(l, i + 1) && d.pointer == at + SentBy(l, i + 1)
  }

  // Descriptor types of section 9.4, and of the HID class.
  const DEVICE_TYPE: nat := 1
  const CONFIG_TYPE: nat := 2
  const STRING_TYPE: nat := 3
  const REPORT_TYPE: nat := 0x22

  // The descriptor a wValue and wIndex stand for.
  predicate Names(ds: Descriptors, p: SetupPacket, desc: Descriptor) {
    var kind, index := p.value / 256, p.value % 256;
    || (kind == DEVICE_TYPE && desc == ds.device)
    || (kind == CONFIG_TYPE && desc == ds.config)
    || (kind == REPORT_TYPE &&
        exists i :: 0 <= i < 3 && i < |ds.reports| && p.index % 256 == i && desc == ds.reports[i])
    || (kind == STRING_TYPE && index == 1 && desc == ds.manufacturer)
    || (kind == STRING_TYPE && index == 2 && desc == ds.product)
    || (kind == STRING_TYPE && index == 0 && desc == ds.serial)
  }

  predicate NamesNone(p: SetupPacket) {
    var kind, index := p.value / 256, p.value % 256;
    kind !in {DEVICE_TYPE, CONFIG_TYPE, REPORT_TYPE} && (kind == STRING_TYPE ==> index > 2)
  }

  // A standard device-to-host GET_DESCRIPTOR for a descriptor that exists.
  predicate Reads(rom: Rom, p: SetupPacket, desc: Descriptor) {
    IsStandard(p) && ToHost(p) && p.request == GET_DESCRIPTOR && Names(rom.descriptors, p, desc)
  }

  lemma FindsNamed(ds: Descriptors, p: SetupPacket, desc: Descriptor)
    requires Names(ds, p, desc)
    ensures Find(ds, p) == Found(desc)
  {
  }

  // How many bytes the transfer carries.
  function Carried(p: SetupPacket, desc: Descriptor): nat { Min(p.length, desc.size % 256) }

  lemma SetupStarts(rom: Rom, d: Device, p: SetupPacket, desc: Descriptor)
    requires d.Ok() && Reads(rom, p, desc)
    ensures var d' := OnSetup(rom, d, p);
      Sending(rom, d', desc.address, Carried(p, desc), 0) && d'.wire == d.wire
  {
    hide Find, Names, Arrive, PacketBytes, IsStandard, ToHost, IsClass;
    FindsNamed(rom.descriptors, p, desc);
    var l, n := Carried(p, desc), Min(Carried(p, desc), EP0_SIZE);
    var a := Arrive(d, p);
    ArriveFields(d, p);
    var h := GetDescriptor(rom, a, p);
    assert Handle(rom, a, p) == h && !h.stall;
    assert h.d.buffer[..n] == Read(rom.memory, desc.address, n);
    assert OnSetup(rom, d, p) == Respond(h, p);
    assert PacketAt(rom, desc.address, l, 0).data == Read(rom.memory, desc.address, n);
  }

  lemma ArriveFields(d: Device, p: SetupPacket)
    requires d.Ok()
    ensures var a := Arrive(d, p);
      a.remaining == p.length && a.request == p.request && a.wire == d.wire && a.pointer == d.pointer
      && a.address == d.address && a.eps == d.eps
  {
  }

  lemma InContinues(rom: Rom, d: Device, at: nat, l: nat, i: nat)
    requires Sending(rom, d, at, l, i)
    ensures Ready(d) && Sending(rom, OnIn(rom, d), at, l, i + 1)
    ensures OnIn(rom, d).wire == d.wire + [PacketAt(rom, at, l, i)]
  {
    var n := Min(d.remaining, EP0_SIZE);
    SentMonotonic(l, i + 1);
    assert n == SentBy(l, i + 2) - SentBy(l, i + 1);
    assert OnIn(rom, d).buffer[..n] == Read(rom.memory, d.pointer, n);
  }

  function InTokens(n: nat): seq<Event> { seq(n, _ => InToken) }

  lemma {:induction false} Reading(rom: Rom, d: Device, at: nat, l: nat, i: nat, n: nat)
    requires Sending(rom, d, at, l, i) && d.Ok()
    ensures Run(rom, d, InTokens(n)).wire == d.wire + Packets(rom, at, l, i, n)
    decreases n
  {
    hide Sending, OnIn, PacketAt, Ready;
    if n == 0 {
      assert InTokens(0) == [];
    } else {
      InContinues(rom, d, at, l, i);
      assert InTokens(n)[0] == InToken && InTokens(n)[1..] == InTokens(n - 1);
      Reading(rom, OnIn(rom, d), at, l, i + 1, n - 1);
      assert d.wire + [PacketAt(rom, at, l, i)] + Packets(rom, at, l, i + 1, n - 1) ==
             d.wire + Packets(rom, at, l, i, n);
    }
  }

  // The packets carry the bytes of the descriptor in order.
  lemma {:induction false} PacketsConcat(rom: Rom, at: nat, l: nat, i: nat, n: nat)
    ensures SentBy(l, i) <= SentBy(l, i + n)
    ensures Concat(Packets(rom, at, l, i, n)) ==
            Read(rom.memory, at + SentBy(l, i), SentBy(l, i + n) - SentBy(l, i))
    decreases n
  {
    if n > 0 {
      PacketsConcat(rom, at, l, i + 1, n - 1);
      var ps := Packets(rom, at, l, i, n);
      assert ps[1..] == Packets(rom, at, l, i + 1, n - 1);
    }
  }

  // Sizes and toggles: full packets until the data ends, then a short one,
  // empty if the length is a multiple of 64; DATA1 first, alternating.
  lemma PacketShape(rom: Rom, at: nat, l: nat, i: nat)
    ensures var p := PacketAt(rom, at, l, i);
      && |p.data| <= EP0_SIZE && p.data1 == (i % 2 == 0)
      && (i < l / EP0_SIZE ==> |p.data| == EP0_SIZE)
      && (i == l / EP0_SIZE ==> |p.data| == l % EP0_SIZE)
      && (i > l / EP0_SIZE ==> p.data == [])
  {
  }

  // A control read puts the first min(wLength, size) bytes of the descriptor
  // on the bus, in packets of PacketShape, provided the size fits in 8 bits.
  lemma {:induction false} ControlRead(rom: Rom, d: Device, p: SetupPacket, desc: Descriptor, n: nat)
    requires d.Ok() && Reads(rom, p, desc)
    ensures var l, ps := Carried(p, desc), Packets(rom, desc.address, Carried(p, desc), 0, n);
      && Run(rom, OnSetup(rom, d, p), InTokens(n)).wire == d.wire + ps
      && Concat(ps) == Read(rom.memory, desc.address, SentBy(l, n))
      && (n > l / EP0_SIZE ==> SentBy(l, n) == l)
  {
    hide Sending, OnSetup, Run, InTokens, PacketAt;
    var l := Carried(p, desc);
    SetupStarts(rom, d, p, desc);
    Reading(rom, OnSetup(rom, d, p), desc.address, l, 0, n);
    PacketsConcat(rom, desc.address, l, 0, n);
  }

  // The host gets what section 9.4.3 promises exactly when the size fits in 8
  // bits or the host asks for no more than what is left of it.
  lemma WholeDescriptorIff(p: SetupPacket, desc: Descriptor)
    ensures Carried(p, desc) == Min(p.length, desc.size)
       <==> desc.size < 256 || p.length <= desc.size % 256
  {
  }

  // The descriptors of the firmware, by size.
  predicate Shipped(ds: Descriptors) {
    && ds.device.size == 18 && ds.config.size == 98
    && |ds.reports| == 3 && ds.reports[0].size == 63 && ds.reports[1].size == 173 && ds.reports[2].size == 38
    && ds.manufacturer.size == 14 && ds.product.size == 16 && ds.serial.size == 10
  }

  lemma ShippedSmall(rom: Rom, p: SetupPacket, desc: Descriptor)
    requires Reads(rom, p, desc) && Shipped(rom.descriptors)
    ensures desc.size < 256
  {
  }

  // Each of them arrives whole, or up to wLength.
  lemma ShippedArriveWhole(rom: Rom, d: Device, p: SetupPacket, desc: Descriptor, n: nat)
    requires d.Ok() && Reads(rom, p, desc) && Shipped(rom.descriptors) && n > Min(p.length, desc.size) / EP0_SIZE
    ensures var ps := Packets(rom, desc.address, Min(p.length, desc.size), 0, n);
      && Run(rom, OnSetup(rom, d, p), InTokens(n)).wire == d.wire + ps
      && Concat(ps) == Read(rom.memory, desc.address, Min(p.length, desc.size))
  {
    hide OnSetup, Run, InTokens, Packets, Concat, Read, Reads, Shipped;
    ShippedSmall(rom, p, desc);
    ControlRead(rom, d, p, desc, n);
  }

  // A larger one asked for in full would arrive as its size modulo 256: none of
  // 256 bytes, 44 of 300.
  lemma LongDescriptorCut(rom: Rom, d: Device, p: SetupPacket, desc: Descriptor, n: nat)
    requires d.Ok() && Reads(rom, p, desc) && 256 <= desc.size <= p.length && n >= 4
    ensures exists ps ::
      && Run(rom, OnSetup(rom, d, p), InTokens(n)).wire == d.wire + ps
      && Concat(ps) == Read(rom.memory, desc.address, desc.size % 256)
  {
    hide OnSetup, Run, InTokens, Packets, Concat, Read;
    assert desc.size % 256 <= p.length;
    ControlRead(rom, d, p, desc, n);
    var ps := Packets(rom, desc.address, Carried(p, desc), 0, n);
    assert Run(rom, OnSetup(rom, d, p), InTokens(n)).wire == d.wire + ps;
  }

  // A device address to come into force at the end of the current transfer.
  datatype Pending = NoAddress | Address(n: nat)

  // The address the host expects: a standard SET_ADDRESS announces it, the
  // next completed IN transaction brings it into force, a reset clears it.
  datatype Expected = Expected(address: bv8, pending: Pending)

  predicate SetsAddress(p: SetupPacket) {
    IsStandard(p) && !ToHost(p) && p.request == SET_ADDRESS
  }

  function Expect(x: Expected, d: Device, e: Event): Expected {
    match e
    case Setup(p) => x.(pending := if SetsAddress(p) then Address(p.value % 256) else NoAddress)
    case InToken =>
      if !Ready(d) || x.pending == NoAddress then x
      else Expected(NewAddress(x.address, x.pending.n), NoAddress)
    case BusReset => Expected(0, NoAddress)
  }

  function ExpectRun(rom: Rom, x: Expected, d: Device, es: seq<Event>): Expected
    requires d.Ok()
    decreases |es|
  {
    if es == [] then x else ExpectRun(rom, Expect(x, d, es[0]), On(rom, d, es[0]), es[1..])
  }

  // A request coded like SET_ADDRESS that is not one and is not stalled.
  predicate Impostor(p: SetupPacket) {
    p.request == SET_ADDRESS && !IsClass(p) && !SetsAddress(p)
  }

  // The device holds the expected address and the pending one.
  predicate Agrees(d: Device, x: Expected) {
    d.address == x.address
    && (Ready(d) ==>
          if d.request == SET_ADDRESS then x.pending == Address(d.remaining) else x.pending == NoAddress)
  }

  // A SETUP keeps the device as expected exactly if it is no impostor.
  lemma SetupAgrees(rom: Rom, d: Device, p: SetupPacket, x: Expected)
    requires d.Ok() && Agrees(d, x)
    ensures Agrees(OnSetup(rom, d, p), Expect(x, d, Setup(p))) <==> !Impostor(p)
  {
    hide Arrive, Handle, IsStandard, IsClass, ToHost, Low;
    ArriveFields(d, p);
    HandleKeeps(rom, Arrive(d, p), p);
    TypesApart(p);
  }

  lemma TypesApart(p: SetupPacket)
    ensures !(IsStandard(p) && IsClass(p))
    ensures IsVendor(p) ==> !IsStandard(p) && !IsClass(p)
  {
  }

  lemma HandleKeeps(rom: Rom, d: Device, p: SetupPacket)
    requires d.Ok()
    ensures var h := Handle(rom, d, p);
      && h.d.address == d.address && h.d.request == d.request && h.d.wire == d.wire
      && (p.request == SET_ADDRESS && IsStandard(p) ==> h == Handled(d.(remaining := p.value % 256), false))
      && (p.request == SET_ADDRESS && IsClass(p) ==> h.stall)
      && (!IsStandard(p) && !IsClass(p) ==> h == Handled(d, false))
  {
    hide IsStandard, IsClass, GetDescriptor, ClearFeature, SetFeature, GetStatus, Low, Device.Ok, Min;
    TypesApart(p);
    DescriptorKeeps(rom, d, p);
    FeaturesKeep(d, p);
  }

  lemma DescriptorKeeps(rom: Rom, d: Device, p: SetupPacket)
    requires d.Ok()
    ensures GetDescriptor(rom, d, p).d.address == d.address && GetDescriptor(rom, d, p).d.request == d.request
    ensures GetDescriptor(rom, d, p).d.wire == d.wire
  {
    hide Find;
  }

  lemma ClearKeeps(d: Device, p: SetupPacket)
    requires d.Ok()
    ensures ClearFeature(d, p).d.address == d.address && ClearFeature(d, p).d.request == d.request
    ensures ClearFeature(d, p).d.wire == d.wire
  {
    hide Unhalt, ForDevice, ForEndpoint;
  }

  lemma SetKeeps(d: Device, p: SetupPacket)
    requires d.Ok()
    ensures SetFeature(d, p).d.address == d.address && SetFeature(d, p).d.request == d.request
    ensures SetFeature(d, p).d.wire == d.wire
  {
    hide Halt, ForDevice, ForEndpoint;
  }

  lemma StatusKeeps(d: Device, p: SetupPacket)
    requires d.Ok()
    ensures GetStatus(d, p).d.address == d.address && GetStatus(d, p).d.request == d.request
    ensures GetStatus(d, p).d.wire == d.wire
  {
    hide IsHalted, ForDevice, ForEndpoint;
  }

  lemma FeaturesKeep(d: Device, p: SetupPacket)
    requires d.Ok()
    ensures ClearFeature(d, p).d.address == d.address && ClearFeature(d, p).d.request == d.request
    ensures ClearFeature(d, p).d.wire == d.wire
    ensures SetFeature(d, p).d.address == d.address && SetFeature(d, p).d.request == d.request
    ensures SetFeature(d, p).d.wire == d.wire
    ensures GetStatus(d, p).d.address == d.address && GetStatus(d, p).d.request == d.request
    ensures GetStatus(d, p).d.wire == d.wire
  {
    hide ClearFeature, SetFeature, GetStatus;
    ClearKeeps(d, p);
    SetKeeps(d, p);
    StatusKeeps(d, p);
  }

  lemma StepAgrees(rom: Rom, d: Device, e: Event, x: Expected)
    requires d.Ok() && Agrees(d, x) && (e.Setup? ==> !Impostor(e.p))
    ensures Agrees(On(rom, d, e), Expect(x, d, e))
  {
    hide OnSetup, Impostor, NewAddress;
    if e.Setup? {
      SetupAgrees(rom, d, e.p, x);
    }
  }

  // Over any run of SETUP, IN and reset steps the device address is the
  // expected one: it changes only at the IN that completes a SET_ADDRESS, or at
  // a reset, unless an impostor comes along.
  lemma {:induction false} AddressAsExpected(rom: Rom, d: Device, es: seq<Event>, x: Expected)
    requires d.Ok() && Agrees(d, x)
    requires forall i :: 0 <= i < |es| && es[i].Setup? ==> !Impostor(es[i].p)
    ensures Agrees(Run(rom, d, es), ExpectRun(rom, x, d, es))
    decreases |es|
  {
    hide Agrees, On, Expect, Impostor;
    if es != [] {
      StepAgrees(rom, d, es[0], x);
      AddressAsExpected(rom, On(rom, d, es[0]), es[1..], Expect(x, d, es[0]));
    }
  }

  // Every vendor request coded 5 towards the device moves the address to its
  // wLength when the status stage completes; section 9.4.6 allows SET_ADDRESS only.
  lemma VendorRequestMovesAddress(rom: Rom, d: Device, p: SetupPacket)
    requires d.Ok() && IsVendor(p) && !ToHost(p) && p.request == SET_ADDRESS
    ensures Impostor(p)
    ensures Run(rom, d, [Setup(p), InToken]).address == NewAddress(d.address, p.length)
  {
    hide Arrive, Handle, IsStandard, IsClass, IsVendor, ToHost, Low;
    ArriveFields(d, p);
    TypesApart(p);
    HandleKeeps(rom, Arrive(d, p), p);
    var d' := OnSetup(rom, d, p);
    assert [Setup(p), InToken][1..] == [InToken];
    assert Run(rom, d', [InToken]) == On(rom, d', InToken);
  }

  // A standard request to endpoint e, one of endpoints 1-3 in one direction.
  predicate ToEndpoint(p: SetupPacket, request: bv8, e: Endpoint) {
    IsStandard(p) && ForEndpoint(p) && p.request == request && e != NoEndpoint && e.n < 3
    && p.index == (if e.In? then 0x81 else 0x01) + e.n
  }

  // Only the asked direction of the asked endpoint's register is touched.
  predicate OthersUntouched(eps: seq<bv8>, eps': seq<bv8>, e: Endpoint)
    requires |eps| == |eps'| == 3 && e != NoEndpoint && e.n < 3
  {
    && (forall k :: 0 <= k < 3 && k != e.n ==> eps'[k] == eps[k])
    && (if e.In? then eps'[e.n] & 0xBC == eps[e.n] & 0xBC else eps'[e.n] & 0x73 == eps[e.n] & 0x73)
  }

  lemma HaltBits(ctrl: bv8, e: Endpoint)
    ensures IsHalted(Halt(ctrl, e), e) && !IsHalted(Unhalt(ctrl, e), e)
    ensures if e.In? then Halt(ctrl, e) & 0xBC == ctrl & 0xBC && Unhalt(ctrl, e) & 0xBC == ctrl & 0xBC
            else Halt(ctrl, e) & 0x73 == ctrl & 0x73 && Unhalt(ctrl, e) & 0x73 == ctrl & 0x73
  {
  }

  lemma EndpointFound(p: SetupPacket, request: bv8, e: Endpoint)
    requires ToEndpoint(p, request, e)
    ensures EndpointOf(p.index) == e && EndpointOf(p.index % 256) == e
  {
  }

  lemma SetFeatureHalts(rom: Rom, d: Device, p: SetupPacket, e: Endpoint)
    requires d.Ok() && ToEndpoint(p, SET_FEATURE, e)
    ensures var d' := OnSetup(rom, d, p);
      IsHalted(d'.eps[e.n], e) && OthersUntouched(d.eps, d'.eps, e)
  {
    hide Arrive, IsStandard, IsClass, ForEndpoint, ToHost, Halt, IsHalted, EndpointOf;
    EndpointFound(p, p.request, e);
    ArriveFields(d, p);
    TypesApart(p);
    HaltBits(d.eps[e.n], e);
  }

  lemma ClearFeatureUnhalts(rom: Rom, d: Device, p: SetupPacket, e: Endpoint)
    requires d.Ok() && ToEndpoint(p, CLEAR_FEATURE, e)
    ensures var d' := OnSetup(rom, d, p);
      !IsHalted(d'.eps[e.n], e) && OthersUntouched(d.eps, d'.eps, e)
  {
    hide Arrive, IsStandard, IsClass, ForEndpoint, ToHost, Unhalt, IsHalted, EndpointOf;
    EndpointFound(p, p.request, e);
    ArriveFields(d, p);
    TypesApart(p);
    HaltBits(d.eps[e.n], e);
  }

  lemma GetStatusReports(rom: Rom, d: Device, p: SetupPacket, e: Endpoint)
    requires d.Ok() && ToEndpoint(p, GET_STATUS, e) && ToHost(p) && p.length >= 2
    ensures var d' := OnSetup(rom, d, p);
      && Ready(d') && d'.eps == d.eps
      && OnIn(rom, d').wire == d'.wire + [Packet(true, [if IsHalted(d.eps[e.n], e) then 1 else 0, 0])]
  {
    hide Arrive, IsStandard, IsClass, ForEndpoint, ToHost, IsHalted, EndpointOf, Low;
    EndpointFound(p, p.request, e);
    ArriveFields(d, p);
    TypesApart(p);
    var d' := OnSetup(rom, d, p);
    assert d'.buffer[..2] == [if IsHalted(d.eps[e.n], e) then 1 else 0, 0];
  }

  // GET_STATUS straight after SET_FEATURE(halt) answers 1, straight after
  // CLEAR_FEATURE answers 0; no other endpoint or direction changes.
  lemma HaltRoundTrip(rom: Rom, d: Device, halt: SetupPacket, resume: SetupPacket, get: SetupPacket, e: Endpoint)
    requires d.Ok() && ToEndpoint(halt, SET_FEATURE, e) && ToEndpoint(resume, CLEAR_FEATURE, e)
    requires ToEndpoint(get, GET_STATUS, e) && ToHost(get) && get.length >= 2
    ensures var halted := OnSetup(rom, OnSetup(rom, d, halt), get);
      var freed := OnSetup(rom, OnSetup(rom, d, resume), get);
      && OnIn(rom, halted).wire == halted.wire + [Packet(true, [1, 0])]
      && OnIn(rom, freed).wire == freed.wire + [Packet(true, [0, 0])]
      && OthersUntouched(d.eps, halted.eps, e) && OthersUntouched(d.eps, freed.eps, e)
  {
    hide OnSetup, OnIn, ToEndpoint, ToHost, IsHalted;
    EndpointIs(halt, e);
    SetFeatureHalts(rom, d, halt, e);
    GetStatusReports(rom, OnSetup(rom, d, halt), get, e);
    ClearFeatureUnhalts(rom, d, resume, e);
    GetStatusReports(rom, OnSetup(rom, d, resume), get, e);
  }

  lemma EndpointIs(p: SetupPacket, e: Endpoint)
    requires ToEndpoint(p, SET_FEATURE, e)
    ensures e != NoEndpoint && e.n < 3
  {
  }
}
