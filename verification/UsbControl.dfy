// Endpoint 0 of the USB device (usbuser1.c) on values: what a SETUP packet, a
// completed IN transaction and a bus reset do.  Chapter 9 and section 8.5.3 of
// the USB 2.0 specification.
module UsbControl {
  type Byte = bv8

  datatype SetupPacket = SetupPacket(requestType: bv8, request: bv8, value: nat, index: nat, length: nat)

  // One IN packet on the bus; data1 tells DATA1 from DATA0.
  datatype Packet = Packet(data1: bool, data: seq<Byte>)

  // Where a descriptor is stored, and the size the firmware gives it.
  datatype Descriptor = Descriptor(address: nat, size: nat)

  datatype Descriptors = Descriptors(device: Descriptor, config: Descriptor, reports: seq<Descriptor>,
                                     manufacturer: Descriptor, product: Descriptor, serial: Descriptor)

  // Program memory and the descriptors in it.
  datatype Rom = Rom(memory: nat -> Byte, descriptors: Descriptors)

  const EP0_SIZE: nat := 64

  const GET_STATUS: bv8 := 0
  const CLEAR_FEATURE: bv8 := 1
  const SET_FEATURE: bv8 := 3
  const SET_ADDRESS: bv8 := 5
  const GET_DESCRIPTOR: bv8 := 6
  const GET_CONFIGURATION: bv8 := 8
  const SET_CONFIGURATION: bv8 := 9
  const GET_INTERFACE: bv8 := 10
  const SET_INTERFACE: bv8 := 11

  // Fields of an endpoint control register.
  const T_TOG: bv8 := 0x40
  const R_STALL: bv8 := 0x0C
  const T_NAK: bv8 := 0x02
  const T_STALL: bv8 := 0x03
  const EP0_ANSWER: bv8 := 0xC0
  const EP0_STALL: bv8 := 0xCF

  datatype Device = Device(
    address: bv8, ep0: bv8, eps: seq<bv8>, txLen: nat, request: bv8, remaining: nat, pointer: nat,
    buffer: seq<Byte>, config: bv8, sleep: bv8, idle: bv8, protocol: bv8, wire: seq<Packet>)
  {
    predicate Ok() {
      |eps| == 3 && |buffer| == EP0_SIZE && txLen <= EP0_SIZE
    }
  }

  const POWER_ON := Device(0, T_NAK, [T_NAK, T_NAK, T_NAK], 0, 0, 0, 0, seq(EP0_SIZE, _ => 0), 0, 0, 0, 0, [])

  function Min(a: nat, b: nat): nat { if a <= b then a else b }

  function Low(n: nat): bv8 { (n % 256) as bv8 }

  function Read(m: nat -> Byte, at: nat, len: nat): (s: seq<Byte>)
    ensures |s| == len
    ensures forall i :: 0 <= i < len ==> s[i] == m(at + i)
  {
    seq(len, i requires 0 <= i < len => m(at + i))
  }

  // memcpy to the start of the endpoint buffer.
  function Fill(buffer: seq<Byte>, s: seq<Byte>): (b: seq<Byte>)
    requires |s| <= |buffer|
    ensures |b| == |buffer| && b[..|s|] == s
  {
    s + buffer[|s|..]
  }

  function PacketBytes(p: SetupPacket): seq<Byte> {
    [p.requestType, p.request, Low(p.value), Low(p.value / 256), Low(p.index), Low(p.index / 256),
     Low(p.length), Low(p.length / 256)]
  }

  predicate ToHost(p: SetupPacket) { p.requestType & 0x80 != 0 }
  predicate IsStandard(p: SetupPacket) { p.requestType & 0x60 == 0 }
  predicate IsVendor(p: SetupPacket) { p.requestType & 0x40 != 0 }
  predicate IsClass(p: SetupPacket) { p.requestType & 0x60 == 0x20 }
  predicate ForEndpoint(p: SetupPacket) { p.requestType & 0x1F == 2 }
  predicate ForDevice(p: SetupPacket) { p.requestType & 0x1F == 0 }

  datatype Handled = Handled(d: Device, stall: bool)

  // The descriptor a GET_DESCRIPTOR asks for.  A report index beyond the third
  // is answered with 255 bytes from wherever the pointer is.
  datatype Lookup = Found(descriptor: Descriptor) | Stale | Unknown

  function Find(ds: Descriptors, p: SetupPacket): Lookup {
    var kind, index := p.value / 256, p.value % 256;
    if kind == 1 then Found(ds.device)
    else if kind == 2 then Found(ds.config)
    else if kind == 0x22 then
      if p.index % 256 < |ds.reports| && p.index % 256 < 3 then Found(ds.reports[p.index % 256]) else Stale
    else if kind == 3 then
      if index == 1 then Found(ds.manufacturer)
      else if index == 2 then Found(ds.product)
      else if index == 0 then Found(ds.serial)
      else Unknown
    else Unknown
  }

  // The 8-bit length variable cuts a size off at 256.
  function FoundLength(l: Lookup): nat {
    match l
    case Found(d) => d.size % 256
    case Stale => 0xff
    case Unknown => 0
  }

  function GetDescriptor(rom: Rom, d: Device, p: SetupPacket): (h: Handled)
    requires d.Ok()
    ensures h.d.Ok()
  {
    var found := Find(rom.descriptors, p);
    var pointer := if found.Found? then found.descriptor.address else d.pointer;
    var remaining := Min(d.remaining, FoundLength(found));
    var n := Min(remaining, EP0_SIZE);
    Handled(d.(remaining := remaining, pointer := pointer + n,
               buffer := Fill(d.buffer, Read(rom.memory, pointer, n))),
            found.Unknown?)
  }

  // Endpoints 1-3: the position in eps, and the direction.
  datatype Endpoint = In(n: nat) | Out(n: nat) | NoEndpoint

  function EndpointOf(index: nat): (e: Endpoint)
    ensures e != NoEndpoint ==> e.n < 3
  {
    if 0x81 <= index <= 0x83 then In(index - 0x81)
    else if 0x01 <= index <= 0x03 then Out(index - 0x01)
    else NoEndpoint
  }

  function Halt(ctrl: bv8, e: Endpoint): bv8 {
    if e.In? then (ctrl & !0x43) | T_STALL else (ctrl & !0x8C) | R_STALL
  }

  function Unhalt(ctrl: bv8, e: Endpoint): bv8 {
    if e.In? then (ctrl & !0x43) | T_NAK else ctrl & !0x8C
  }

  predicate IsHalted(ctrl: bv8, e: Endpoint) {
    if e.In? then ctrl & 0x43 == T_STALL else ctrl & 0x8C == R_STALL
  }

  function ClearFeature(d: Device, p: SetupPacket): (h: Handled)
    requires d.Ok()
    ensures h.d.Ok()
  {
    if ForEndpoint(p) then
      var e := EndpointOf(p.index % 256);
      if e == NoEndpoint then Handled(d, true)
      else Handled(d.(eps := d.eps[e.n := Unhalt(d.eps[e.n], e)]), false)
    else if ForDevice(p) then
      Handled(if p.value == 1 then d.(sleep := d.sleep & !0x01) else d, false)
    else Handled(d, true)
  }

  function SetFeature(d: Device, p: SetupPacket): (h: Handled)
    requires d.Ok()
    ensures h.d.Ok()
  {
    if ForEndpoint(p) then
      var e := EndpointOf(p.index);
      if e == NoEndpoint then Handled(d, true)
      else Handled(d.(eps := d.eps[e.n := Halt(d.eps[e.n], e)]), false)
    else if ForDevice(p) then
      Handled(if p.value == 1 then d.(sleep := d.sleep | 0x01) else d, false)
    else Handled(d, true)
  }

  function GetStatus(d: Device, p: SetupPacket): (h: Handled)
    requires d.Ok()
    ensures h.d.Ok()
  {
    var first :=
      if ForEndpoint(p) then
        var e := EndpointOf(p.index);
        if e != NoEndpoint && IsHalted(d.eps[e.n], e) then 1 else 0
      else if ForDevice(p) then if d.sleep != 0 then 2 else 0
      else d.buffer[0];
    Handled(d.(buffer := d.buffer[0 := first][1 := 0], remaining := Min(d.remaining, 2)), false)
  }

  function StandardRequest(rom: Rom, d: Device, p: SetupPacket): (h: Handled)
    requires d.Ok()
    ensures h.d.Ok()
  {
    if p.request == GET_DESCRIPTOR then GetDescriptor(rom, d, p)
    else if p.request == SET_ADDRESS then Handled(d.(remaining := p.value % 256), false)
    else if p.request == GET_CONFIGURATION then
      Handled(d.(buffer := d.buffer[0 := d.config], remaining := Min(d.remaining, 1)), false)
    else if p.request == SET_CONFIGURATION then Handled(d.(config := Low(p.value)), false)
    else if p.request == CLEAR_FEATURE then ClearFeature(d, p)
    else if p.request == SET_FEATURE then SetFeature(d, p)
    else if p.request == GET_INTERFACE then
      Handled(d.(buffer := d.buffer[0 := 0], remaining := Min(d.remaining, 1)), false)
    else if p.request == SET_INTERFACE then Handled(d, false)
    else if p.request == GET_STATUS then GetStatus(d, p)
    else Handled(d, true)
  }

  function ClassRequest(d: Device, p: SetupPacket): (h: Handled)
    requires d.Ok()
    ensures h.d.Ok()
  {
    if p.request == 0x0A then Handled(d.(idle := d.buffer[3]), false)
    else if p.request == 0x09 then Handled(d, false)
    else if p.request == 0x0B then Handled(d.(protocol := d.buffer[2]), false)
    else if p.request == 0x02 then Handled(d.(buffer := d.buffer[0 := d.idle]), false)
    else if p.request == 0x03 then Handled(d.(buffer := d.buffer[0 := d.protocol]), false)
    else Handled(d, true)
  }

  function Handle(rom: Rom, d: Device, p: SetupPacket): (h: Handled)
    requires d.Ok()
    ensures h.d.Ok()
  {
    if IsStandard(p) then StandardRequest(rom, d, p)
    else if IsClass(p) then ClassRequest(d, p)
    else Handled(d, false)
  }

  // The SETUP packet as it arrives in the endpoint buffer.
  function Arrive(d: Device, p: SetupPacket): (d': Device)
    requires d.Ok()
    ensures d'.Ok()
  {
    d.(remaining := p.length, request := p.request, buffer := Fill(d.buffer, PacketBytes(p)))
  }

  // Stall, or prepare the first data packet (or the status packet) as DATA1.
  function Respond(h: Handled, p: SetupPacket): (d': Device)
    ensures h.d.Ok() ==> d'.Ok()
  {
    if h.stall then h.d.(ep0 := EP0_STALL)
    else
      var n := if ToHost(p) then Min(h.d.remaining, EP0_SIZE) else 0;
      h.d.(ep0 := EP0_ANSWER, txLen := n, remaining := h.d.remaining - n)
  }

  function OnSetup(rom: Rom, d: Device, p: SetupPacket): (d': Device)
    requires d.Ok()
    ensures d'.Ok()
  {
    hide Respond, Handle, Arrive;
    Respond(Handle(rom, Arrive(d, p), p), p)
  }

  // Endpoint 0 answers an IN token with data.
  predicate Acks(ctrl: bv8) { ctrl & 0x03 == 0 }

  predicate Ready(d: Device) { Acks(d.ep0) }

  predicate IsData1(ctrl: bv8) { ctrl & T_TOG != 0 }

  function FlipToggle(ctrl: bv8): bv8 { ctrl ^ T_TOG }

  // The top bit of the address register is kept.
  function NewAddress(was: bv8, n: nat): bv8 { (was & 0x80) | Low(n) }

  // A completed IN transaction: the packet is out, the next one is prepared.
  function OnIn(rom: Rom, d: Device): (d': Device)
    requires d.Ok()
    ensures d'.Ok()
  {
    var sent := d.(wire := d.wire + [Packet(IsData1(d.ep0), d.buffer[..d.txLen])]);
    if d.request == GET_DESCRIPTOR then
      var n := Min(d.remaining, EP0_SIZE);
      sent.(buffer := Fill(d.buffer, Read(rom.memory, d.pointer, n)), remaining := d.remaining - n,
            pointer := d.pointer + n, txLen := n, ep0 := FlipToggle(d.ep0))
    else if d.request == SET_ADDRESS then
      sent.(address := NewAddress(d.address, d.remaining), ep0 := T_NAK)
    else if d.request == SET_FEATURE then sent
    else sent.(txLen := 0, ep0 := T_NAK)
  }

  function OnReset(d: Device): (d': Device)
    requires d.Ok()
    ensures d'.Ok()
  {
    d.(address := 0, ep0 := T_NAK, eps := [T_NAK, T_NAK, T_NAK])
  }

  datatype Event = Setup(p: SetupPacket) | InToken | BusReset

  // IN tokens complete only while the endpoint is ready.
  function On(rom: Rom, d: Device, e: Event): (d': Device)
    requires d.Ok()
    ensures d'.Ok()
  {
    match e
    case Setup(p) => OnSetup(rom, d, p)
    case InToken => if Ready(d) then OnIn(rom, d) else d
    case BusReset => OnReset(d)
  }

  function Run(rom: Rom, d: Device, es: seq<Event>): (d': Device)
    requires d.Ok()
    ensures d'.Ok()
    decreases |es|
  {
    if es == [] then d else Run(rom, On(rom, d, es[0]), es[1..])
  }
}
