// The serial port of uart.c: a transmit and a receive ring shared by the main
// thread and two interrupt handlers.  The main thread's functions are broken
// up at their accesses to shared variables; interrupts may come between any two.
module Uart {
  import opened RingIndex

  type Byte = bv8

  // Where the main thread is in uart_putchar, uart_getchar or uart_available.
  datatype Main =
    | Free
    | PutWait(c: Byte, i: nat)
    | PutStore(c: Byte, i: nat)
    | PutPublish(c: Byte, i: nat)
    | PutEnable
    | GetWait
    | GetLoad(i: nat)
    | GetPublish(c: Byte, i: nat)
    | CountTail(head: nat)

  datatype Stimulus =
    | CallPut(c: Byte)
    | CallGet
    | CallAvailable
    | MainStep
    | DataRegisterEmpty
    | ByteArrives(c: Byte)

  // The bytes in a ring: those after tail, up to and including head.
  function Waiting(s: seq<Byte>, tail: nat, head: nat): (q: seq<Byte>)
    requires tail < |s| && head < |s|
    ensures |q| == Count(tail, head, |s|)
    ensures forall k :: 0 <= k < |q| ==> q[k] == s[Slot(tail, k + 1, |s|)]
  {
    if tail <= head then s[tail + 1..head + 1] else s[tail + 1..] + s[..head + 1]
  }

  // uart_available's arithmetic.
  function Count(tail: nat, head: nat, n: nat): (c: nat)
    requires tail < n && head < n
    ensures c < n && head == Slot(tail, c, n)
  {
    if head >= tail then head - tail else n + head - tail
  }

  lemma WaitingPush(s: seq<Byte>, tail: nat, head: nat)
    requires tail < |s| && head < |s| && Inc(head, |s|) != tail
    ensures Waiting(s, tail, Inc(head, |s|)) == Waiting(s, tail, head) + [s[Inc(head, |s|)]]
  {
    assert Count(tail, Inc(head, |s|), |s|) == Count(tail, head, |s|) + 1;
  }

  lemma WaitingPop(s: seq<Byte>, tail: nat, head: nat)
    requires tail < |s| && head < |s| && head != tail
    ensures Waiting(s, tail, head) == [s[Inc(tail, |s|)]] + Waiting(s, Inc(tail, |s|), head)
  {
  }

  // Writing the free slot after head leaves the waiting bytes alone.
  lemma WaitingSet(s: seq<Byte>, tail: nat, head: nat, c: Byte)
    requires tail < |s| && head < |s| && Inc(head, |s|) != tail
    ensures Waiting(s[Inc(head, |s|) := c], tail, head) == Waiting(s, tail, head)
  {
  }

  lemma Regroup(a: seq<Byte>, b: Byte, rest: seq<Byte>)
    ensures a + ([b] + rest) == (a + [b]) + rest
    ensures ([b] + rest)[1..] == rest
  {
  }

  class Port {
    const tx: array<Byte>
    const rx: array<Byte>
    var txHead: nat
    var txTail: nat
    var rxHead: nat
    var rxTail: nat
    var txInterrupt: bool
    var main: Main
    var available: nat

    // Bytes handed over by finished uart_putchar calls, bytes written to the
    // data register, bytes taken from the line, bytes returned by uart_getchar.
    ghost var put: seq<Byte>
    ghost var wire: seq<Byte>
    ghost var taken: seq<Byte>
    ghost var got: seq<Byte>
    // Bytes waiting when uart_available began.
    ghost var began: nat

    ghost predicate Shape()
      reads this`txHead, this`txTail, this`rxHead, this`rxTail
    {
      && 2 <= tx.Length && 2 <= rx.Length && tx != rx
      && txHead < tx.Length && txTail < tx.Length && rxHead < rx.Length && rxTail < rx.Length
    }

    ghost function ToSend(): seq<Byte>
      requires Shape()
      reads this`txHead, this`txTail, this`rxHead, this`rxTail, tx
    {
      Waiting(tx[..], txTail, txHead)
    }

    ghost function Received(): seq<Byte>
      requires Shape()
      reads this`txHead, this`txTail, this`rxHead, this`rxTail, rx
    {
      Waiting(rx[..], rxTail, rxHead)
    }

    // What the main thread knows at each point, whatever interrupts came.
    ghost predicate MainKnows()
      requires Shape()
      reads this`txHead, this`txTail, this`rxHead, this`rxTail, this`main, this`began, tx, rx
    {
      match main
      case Free => true
      case PutWait(c, i) => i == Inc(txHead, tx.Length)
      case PutStore(c, i) => i == Inc(txHead, tx.Length) && i != txTail
      case PutPublish(c, i) => i == Inc(txHead, tx.Length) && i != txTail && tx[i] == c
      case PutEnable => true
      case GetWait => true
      case GetLoad(i) => i == Inc(rxTail, rx.Length) && rxHead != rxTail
      case GetPublish(c, i) => i == Inc(rxTail, rx.Length) && rxHead != rxTail && rx[i] == c
      case CountTail(head) => head < rx.Length && Count(rxTail, head, rx.Length) == began <= |Received()|
    }

    ghost predicate Valid()
      reads this, tx, rx
    {
      && Shape()
      && put == wire + ToSend()
      && taken == got + Received()
      && (ToSend() != [] ==> txInterrupt || main == PutEnable)
      && MainKnows()
    }

    constructor (txSize: nat, rxSize: nat)
      requires 2 <= txSize <= 256 && 2 <= rxSize <= 256
      ensures Valid() && fresh(tx) && fresh(rx)
      ensures put == wire == taken == got == [] && main == Free
    {
      tx := new Byte[txSize](_ => 0);
      rx := new Byte[rxSize](_ => 0);
      txHead, txTail, rxHead, rxTail := 0, 0, 0, 0;
      txInterrupt, main, available := false, Free, 0;
      put, wire, taken, got, began := [], [], [], [], 0;
    }

    // One access of uart_putchar to the shared variables.
    method PutStep()
      requires Valid() && (main.PutWait? || main.PutStore? || main.PutPublish? || main.PutEnable?)
      modifies this`txHead, this`txInterrupt, this`main, this`put, tx
      ensures Valid()
      ensures put == match old(main) { case PutPublish(c, _) => old(put) + [c] case _ => old(put) }
      ensures main == match old(main)
                      case PutWait(c, i) => if |old(ToSend())| < tx.Length - 1 then PutStore(c, i) else old(main)
                      case PutStore(c, i) => PutPublish(c, i)
                      case PutPublish(_, _) => PutEnable
                      case _ => Free
      ensures old(main) == PutEnable ==> txInterrupt
    {
      hide Waiting;
      match main {
        case PutWait(c, i) =>
          if txTail != i { main := PutStore(c, i); }
        case PutStore(c, i) =>
          WaitingSet(tx[..], txTail, txHead, c);
          tx[i] := c;
          main := PutPublish(c, i);
        case PutPublish(c, i) =>
          WaitingPush(tx[..], txTail, txHead);
          txHead := i;
          put := put + [c];
          main := PutEnable;
        case PutEnable =>
          txInterrupt := true;
          main := Free;
      }
    }

    // rx_buffer_tail = i; return c
    method ReturnByte(c: Byte, i: nat)
      requires Valid() && main == GetPublish(c, i)
      modifies this`rxTail, this`main, this`got
      ensures Valid() && main == Free
      ensures old(Received()) == [c] + Received() && got == old(got) + [c]
    {
      hide Waiting;
      WaitingPop(rx[..], rxTail, rxHead);
      Regroup(got, c, Waiting(rx[..], i, rxHead));
      rxTail := i;
      got := got + [c];
      main := Free;
    }

    method ReportCount(head: nat)
      requires Valid() && main == CountTail(head)
      modifies this`main, this`available
      ensures Valid() && main == Free && available == began <= |Received()|
    {
      hide Waiting;
      available := if head >= rxTail then head - rxTail else rx.Length + head - rxTail;
      main := Free;
    }

    // One access of uart_getchar or uart_available.
    method GetStep()
      requires Valid() && (main.GetWait? || main.GetLoad? || main.GetPublish? || main.CountTail?)
      modifies this`rxTail, this`main, this`available, this`got
      ensures Valid()
      ensures old(main).GetPublish? ==>
                main == Free && got == old(got) + [old(main).c] && old(Received()) == [old(main).c] + Received()
      ensures !old(main).GetPublish? ==> got == old(got) && Received() == old(Received())
      ensures old(main).GetWait? ==> (main.GetLoad? <==> Received() != []) && (main.GetLoad? || main == old(main))
      ensures old(main).GetLoad? ==> main.GetPublish?
      ensures old(main).CountTail? ==>
                main == Free && available == began <= |Received()|
    {
      hide Waiting, Slot;
      match main {
        case GetWait =>
          if rxHead != rxTail { main := GetLoad(Inc(rxTail, rx.Length)); }
        case GetLoad(i) =>
          main := GetPublish(rx[i], i);
        case GetPublish(c, i) =>
          ReturnByte(c, i);
        case CountTail(head) =>
          ReportCount(head);
      }
    }

    method Advance()
      requires Valid()
      modifies this`txHead, this`rxTail, this`txInterrupt, this`main, this`available, this`put, this`got, tx
      ensures Valid() && old(put) <= put && old(got) <= got
      ensures old(main).PutPublish? ==> put == old(put) + [old(main).c]
      ensures old(main).GetPublish? ==>
                got == old(got) + [old(main).c] && old(Received()) == [old(main).c] + Received()
      ensures old(main).CountTail? ==> available == began <= |Received()|
      ensures main == old(main) ==>
                || main == Free || (main.PutWait? && |ToSend()| == tx.Length - 1) || (main.GetWait? && Received() == [])
    {
      hide Waiting;
      match main
      case PutWait(_, _) => PutStep();
      case PutStore(_, _) => PutStep();
      case PutPublish(_, _) => PutStep();
      case PutEnable => PutStep();
      case Free =>
      case _ => GetStep();
    }

    // The main thread, when free, enters a function.
    method Call(s: Stimulus)
      requires Valid()
      modifies this`main, this`began
      ensures Valid()
      ensures old(main) == Free && s == CallAvailable ==> began == |Received()|
      ensures old(main) != Free ==> began == old(began)
      ensures main == if old(main) != Free then old(main)
                      else match s
                           case CallPut(c) => PutWait(c, Inc(txHead, tx.Length))
                           case CallGet => GetWait
                           case CallAvailable => CountTail(rxHead)
                           case _ => Free
    {
      hide Waiting;
      if main != Free { return; }
      match s {
        case CallPut(c) => main := PutWait(c, Inc(txHead, tx.Length));
        case CallGet => main := GetWait;
        case CallAvailable =>
          main := CountTail(rxHead);
          began := |Received()|;
        case _ =>
      }
    }

    // ISR(USART_UDRE_vect), which comes only while it is enabled.
    method TransmitInterrupt()
      requires Valid()
      modifies this`txTail, this`txInterrupt, this`wire
      ensures Valid()
      ensures old(txInterrupt) && old(ToSend()) != [] ==>
                wire == old(wire) + [old(ToSend())[0]] && ToSend() == old(ToSend())[1..]
      ensures !old(txInterrupt) || old(ToSend()) == [] ==> wire == old(wire) && !txInterrupt
    {
      hide Waiting;
      if !txInterrupt { return; }
      if txHead == txTail {
        txInterrupt := false;
      } else {
        WaitingPop(tx[..], txTail, txHead);
        var i := Inc(txTail, tx.Length);
        wire := wire + [tx[i]];
        txTail := i;
      }
    }

    // ISR(USART_RX_vect)
    method ReceiveInterrupt(c: Byte)
      requires Valid()
      modifies this`rxHead, this`taken, rx
      ensures Valid()
      ensures if |old(Received())| < rx.Length - 1 then taken == old(taken) + [c] && Received() == old(Received()) + [c]
              else taken == old(taken) && Received() == old(Received())
    {
      hide Waiting;
      var i := Inc(rxHead, rx.Length);
      if i != rxTail {
        WaitingSet(rx[..], rxTail, rxHead, c);
        WaitingPush(rx[..][i := c], rxTail, rxHead);
        rx[i] := c;
        assert rx[..] == old(rx[..])[i := c];
        rxHead := i;
        taken := taken + [c];
      }
    }

    // Any interleaving of main-thread steps and interrupts: what went out is a
    // prefix of what was put, the transmit ring holding exactly the rest; what
    // uart_getchar returned is a prefix of what was taken from the line.
    method Interleave(schedule: seq<Stimulus>)
      requires Valid()
      modifies this, tx, rx
      ensures Valid()
      ensures put == wire + ToSend() && taken == got + Received()
      ensures old(put) <= put && old(wire) <= wire && old(taken) <= taken && old(got) <= got
    {
      hide Waiting, Valid;
      for k := 0 to |schedule|
        invariant Valid()
        invariant old(put) <= put && old(wire) <= wire && old(taken) <= taken && old(got) <= got
      {
        match schedule[k] {
          case MainStep => Advance();
          case DataRegisterEmpty => TransmitInterrupt();
          case ByteArrives(c) => ReceiveInterrupt(c);
          case s => Call(s);
        }
      }
      Balanced();
    }

    lemma Balanced()
      requires Valid()
      ensures put == wire + ToSend() && taken == got + Received()
    {
    }
  }
}
