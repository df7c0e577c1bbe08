/** The serial port of a card, with its two fixed buffers, updated in place by the
    interrupt handler. Every method does what the function of SlaveUart says. */
module SlavePortModel {
  import opened Arith
  import opened P2Packet
  import opened P2Ring
  import opened P2SlaveModel
  import opened SlaveUart

  /** What programs are told of a packet the slave handled. */
  function Told(l: Log, dev: Device, open: bool, pkt: seq<byte>, now: int): (r: Log)
    requires LogOk(l) && ValidLength(pkt)
    ensures LogOk(r)
  {
    if ChecksumOk(pkt) && open then PushAll(l, Forwarded(dev, pkt), now) else l
  }

  class SlavePort {
    const inb: array<byte>
    const outb: array<byte>
    const slave: P2Slave
    var state: Mode
    var inpt: int
    var insize: int
    var outpt: int
    var outsize: int
    var tstamp: int
    var wraps: int
    var resetUart: bool
    ghost var wire: seq<byte>
    ghost var handled: seq<seq<byte>>

    ghost predicate Shape()
      reads this
    {
      && inb.Length == outb.Length == BUFFER && inb != outb
      && 0 <= inpt <= RXMAX && 0 <= outpt <= outsize <= MAXPKT
    }

    ghost function Abs(): Uart
      requires Shape()
      reads this, inb, outb
    {
      Uart(state, inb[..inpt], insize, outb[..outsize], outpt, tstamp, wraps, resetUart, wire, handled)
    }

    /** Every handled packet was counted by the slave device once. */
    ghost predicate Valid()
      reads this, inb, outb, slave, slave.ring, slave.ring.buf
    {
      && Shape() && UartInv(Abs()) && slave.Valid() && slave.count == |handled|
      && inb != slave.ring.buf as object && outb != slave.ring.buf as object
    }

    constructor (dev: Device)
      requires DeviceOk(dev)
      ensures Valid() && Idle(Abs()) && wire == [] && handled == [] && slave.dev == dev
    {
      inb := new byte[BUFFER](_ => 0);
      outb := new byte[BUFFER](_ => 0);
      slave := new P2Slave(dev);
      state, inpt, insize, outpt, outsize := Rx, 0, 0, 0, 0;
      tstamp, wraps, resetUart := 0, 0, false;
      wire, handled := [], [];
    }

    method SlavePktReset()
      requires Shape()
      modifies this`state, this`inpt, this`insize, this`outpt, this`outsize
      ensures Shape() && Abs() == Reset(old(Abs()))
    {
      state := Rx;
      inpt, insize, outpt, outsize := 0, 0, 0, 0;
    }

    /** Moves received bytes into the input buffer, after those already there. */
    method UartReceive(fifo: seq<RxEntry>, max: nat) returns (ret: int)
      requires Shape() && inpt + max <= BUFFER
      modifies inb
      ensures ret == UartRx(fifo, max).ret
      ensures inb[..inpt] == old(inb[..inpt])
      ensures inb[inpt..inpt + |UartRx(fifo, max).data|] == UartRx(fifo, max).data
    {
      hide UartRx;
      var i := 0;
      while i < max
        invariant 0 <= i <= max && i <= |fifo|
        invariant inb[..inpt] == old(inb[..inpt])
        invariant forall k :: 0 <= k < i ==> fifo[k].Data? && inb[inpt + k] == fifo[k].b
      {
        if i == |fifo| { break; }
        if !fifo[i].Data? { UartRxEnds(fifo, max, i); }
        match fifo[i]
        case ParityError => return -1;
        case Overrun => return -2;
        case Data(b) => inb[inpt + i] := b;
        i := i + 1;
      }
      UartRxEnds(fifo, max, i);
      ret := i;
    }

    /** Writes bytes of the reply until the transmitter has no more room. */
    method UartTransmit(room: nat) returns (n: nat)
      requires Shape()
      modifies this`wire
      ensures n == Min(room, outsize - outpt)
      ensures wire == old(wire) + outb[outpt..outpt + n]
    {
      n := 0;
      while n < outsize - outpt
        invariant n <= room && n <= outsize - outpt && wire == old(wire) + outb[outpt..outpt + n]
      {
        if n == room { break; }
        wire := wire + [outb[outpt + n]];
        n := n + 1;
      }
    }

    method SlavePktTx(room: nat)
      requires Shape()
      modifies this`state, this`inpt, this`insize, this`outpt, this`outsize, this`wire
      ensures Shape() && Abs() == SlaveTx(old(Abs()), room)
    {
      if state != Tx { return; }
      var bytes := UartTransmit(room);
      assert outb[..outsize][outpt..outpt + bytes] == outb[outpt..outpt + bytes];
      if bytes > 0 {
        outpt := outpt + bytes;
        if outpt >= outsize { SlavePktReset(); }
      }
    }

    /** Has the complete packet in the input buffer answered into the output buffer. */
    method HandlePacket(after: seq<byte>, now: int)
      requires Shape() && slave.Valid() && slave.count == |handled| && |after| == 14
      requires inb != slave.ring.buf as object && outb != slave.ring.buf as object
      requires 3 <= insize <= inpt && insize == PktSize(inb[..inpt])
      modifies this`state, this`outpt, this`outsize, this`handled,
               outb, slave`count, slave`errCrc, slave.ring, slave.ring.buf
      ensures Shape() && slave.Valid() && slave.count == |handled| && slave.dev == old(slave.dev)
      ensures var pkt := old(inb[..insize]);
        && ValidLength(pkt) && Abs() == Ready(old(Abs()), pkt, Response(slave.dev, after, pkt))
        && slave.ring.log == Told(old(slave.ring.log), slave.dev, slave.opens != 0, pkt, now)
        && slave.errCrc == old(slave.errCrc) + (if ChecksumOk(pkt) then 0 else 1)
    {
      hide PacketRing.Valid, PushAll, Forwarded, Body, ChecksumOk, UartInv, Response;
      ghost var pkt := inb[..insize];
      assert inb[..PktSize(inb[..])] == pkt;
      slave.HandlePkt(outb, inb, after, now);
      ReplyIsValid(slave.dev, after, pkt);
      handled := handled + [pkt];
      outsize := outb[0] % 16 + 3;
      outpt := 0;
      state := Tx;
      assert outb[0] == outb[..|Response(slave.dev, after, pkt)|][0];
    }

    /** Answers the complete packet in the input buffer and starts the reply. */
    method AnswerPacket(room: nat, after: seq<byte>, now: int)
      requires Shape() && slave.Valid() && slave.count == |handled| && |after| == 14
      requires inb != slave.ring.buf as object && outb != slave.ring.buf as object
      requires 3 <= insize <= inpt && insize == PktSize(inb[..inpt])
      modifies this`state, this`inpt, this`insize, this`outpt, this`outsize, this`wire, this`handled,
               outb, slave`count, slave`errCrc, slave.ring, slave.ring.buf
      ensures Shape() && slave.Valid() && slave.count == |handled| && slave.dev == old(slave.dev)
      ensures Abs() == Answered(old(Abs()), room, DriverReply(slave.dev, after))
      ensures var pkt := old(inb[..insize]);
        && ValidLength(pkt) && handled == old(handled) + [pkt]
        && slave.ring.log == Told(old(slave.ring.log), slave.dev, slave.opens != 0, pkt, now)
        && slave.errCrc == old(slave.errCrc) + (if ChecksumOk(pkt) then 0 else 1)
    {
      hide PacketRing.Valid, DeviceOk, Response, Body, SlaveTx, Told, ChecksumOk;
      assert inb[..inpt][..insize] == inb[..insize];
      HandlePacket(after, now);
      SlavePktTx(room);
    }

    /** Takes the received bytes, or gives the exchange up on an error or an empty FIFO. */
    method StoreBytes(fifo: seq<RxEntry>) returns (ok: bool)
      requires Shape() && UartInv(Abs()) && state == Rx
      modifies this`tstamp, this`state, this`inpt, this`insize, this`outpt, this`outsize, this`resetUart, inb
      ensures Shape() && ok == (UartRx(fifo, RXMAX - old(inpt)).ret > 0)
      ensures Abs() == if ok then Stored(old(Abs()), UartRx(fifo, RXMAX - old(inpt)).data)
                       else Reset(old(Abs())).(tstamp := wraps, resetUart := true)
      ensures ok ==> 3 <= insize && insize == PktSize(inb[..inpt])
    {
      hide UartRx, UartInv;
      ghost var u, data := Abs(), UartRx(fifo, RXMAX - inpt).data;
      tstamp := wraps;
      var cbytes := inpt;
      var bytes := UartReceive(fifo, RXMAX - cbytes);
      ok := bytes > 0;
      if ok {
        assert inb[..cbytes] == u.input && inb[cbytes..cbytes + bytes] == data;
        assert inb[..cbytes + bytes] == inb[..cbytes] + inb[cbytes..cbytes + bytes];
        if cbytes == 0 { insize := inb[0] % 16 + 3; }
        inpt := inpt + bytes;
        assert inb[..inpt] == u.input + data;
        StoredSize(u, data);
        assert inb[0] == inb[..inpt][0];
      } else {
        SlavePktReset();
        resetUart := true;
      }
    }

    /** Stores what came and answers the packet it completes; nothing while a reply is in progress. */
    method TakePacket(fifo: seq<RxEntry>, room: nat, after: seq<byte>, now: int)
      requires Valid() && |after| == 14
      modifies this, inb, outb, slave`count, slave`errCrc, slave.ring, slave.ring.buf
      ensures Shape() && slave.Valid() && slave.count == |handled| && slave.dev == old(slave.dev)
      ensures Abs() == SlaveRx(old(Abs()), RxIrq(fifo, room, DriverReply(old(slave.dev), after)))
      ensures handled == old(handled) ==> slave.ring.log == old(slave.ring.log) && slave.errCrc == old(slave.errCrc)
      ensures handled != old(handled) ==>
        && |handled| == |old(handled)| + 1 && ValidLength(handled[|old(handled)|])
        && slave.ring.log == Told(old(slave.ring.log), slave.dev, slave.opens != 0, handled[|old(handled)|], now)
        && slave.errCrc == old(slave.errCrc) + (if ChecksumOk(handled[|old(handled)|]) then 0 else 1)
    {
      hide PacketRing.Valid, DeviceOk, Response, DriverReply, Answered, UartRx, Stored, Reset, UartInv, PktSize, Told, ChecksumOk;
      if state == Tx { return; }
      var ok := StoreBytes(fifo);
      if ok && inpt >= insize { AnswerPacket(room, after, now); }
    }

    /** The receive interrupt. */
    method SlavePktRx(fifo: seq<RxEntry>, room: nat, after: seq<byte>, now: int)
      requires Valid() && |after| == 14
      modifies this, inb, outb, slave`count, slave`errCrc, slave.ring, slave.ring.buf
      ensures Valid() && slave.dev == old(slave.dev)
      ensures Abs() == SlaveRx(old(Abs()), RxIrq(fifo, room, DriverReply(old(slave.dev), after)))
      ensures handled == old(handled) ==> slave.ring.log == old(slave.ring.log) && slave.errCrc == old(slave.errCrc)
      ensures handled != old(handled) ==>
        && |handled| == |old(handled)| + 1 && ValidLength(handled[|old(handled)|])
        && slave.ring.log == Told(old(slave.ring.log), slave.dev, slave.opens != 0, handled[|old(handled)|], now)
        && slave.errCrc == old(slave.errCrc) + (if ChecksumOk(handled[|old(handled)|]) then 0 else 1)
    {
      ResponseIsReply(fifo, room, slave.dev, after);
      SlaveUart.StepKeepsInv(Abs(), RxIrq(fifo, room, DriverReply(slave.dev, after)));
      hide SlaveRx, EventOk, DriverReply, Response, Told, ChecksumOk;
      TakePacket(fifo, room, after, now);
    }

    /** The transmit interrupt. */
    method TxInterrupt(room: nat)
      requires Valid()
      modifies this
      ensures Valid() && Abs() == SlaveTx(old(Abs()), room)
    {
      SlaveUart.StepKeepsInv(Abs(), TxIrq(room));
      SlavePktTx(room);
    }

    /** The audio wrap interrupt: the receive timeout, then a pending receiver reset. */
    method AudioWrapInterrupt()
      requires Valid()
      modifies this
      ensures Valid() && Abs() == Wrap(old(Abs()))
    {
      SlaveUart.StepKeepsInv(Abs(), AudioWrap);
      wraps := wraps + 1;
      if inpt != 0 && tstamp + 2 < wraps {
        SlavePktReset();
        resetUart := true;
      }
      if resetUart { resetUart := false; }
    }
  }
}
