/** The slave device: verifies a packet, builds the reply in the output buffer, and
    hands packets on to user programs. */
module P2SlaveModel {
  import opened P2Packet
  import opened P2Ring

  /** The output buffer starts with these bytes. */
  ghost predicate Starts(a: array<byte>, s: seq<byte>)
    reads a
  {
    |s| <= a.Length && a[..|s|] == s
  }

  method Checksum(data: array<byte>, size: nat) returns (csum: byte)
    requires size <= data.Length
    ensures csum as int == Sum(data[..size]) % 256
  {
    csum := 0;
    for i := 0 to size
      invariant csum as int == Sum(data[..i]) % 256
    {
      SumStep(data[..size], i);
      assert data[..size][..i] == data[..i] && data[..size][..i + 1] == data[..i + 1];
      csum := (csum + data[i]) % 256;
    }
  }

  lemma SumStep(s: seq<byte>, i: nat)
    requires i < |s|
    ensures Sum(s[..i + 1]) == Sum(s[..i]) + s[i]
    ensures Sum(s[..i + 1]) % 256 == (Sum(s[..i]) % 256 + s[i]) % 256
  {
    assert s[..i + 1][..i] == s[..i];
  }

  method ChecksumAdd(data: array<byte>)
    requires data.Length >= MAXPKT
    modifies data
    ensures var n := old(data[0]) % 16 + 2; Starts(data, old(data[..n]) + [LowByte(Sum(old(data[..n])))])
  {
    var size := data[0] % 16 + 2;
    var csum := Checksum(data, size);
    data[size] := csum;
  }

  method ChecksumVerify(data: array<byte>) returns (bad: bool)
    requires data.Length >= MAXPKT
    ensures bad == !ChecksumOk(data[..PktSize(data[..])])
  {
    var size := data[0] % 16 + 2;
    var csum := Checksum(data, size);
    assert data[..PktSize(data[..])][..size] == data[..size];
    return csum != data[size];
  }

  method SetPkt(pout: array<byte>, obj: seq<byte>)
    requires pout.Length >= MAXPKT >= |obj|
    modifies pout
    ensures Starts(pout, obj)
  {
    forall i | 0 <= i < |obj| { pout[i] := obj[i]; }
  }

  method SetPktInt(pout: array<byte>, b1: byte, b2: byte, i1: int)
    requires pout.Length >= MAXPKT
    modifies pout
    ensures Starts(pout, [b1, b2] + Bytes4(i1))
  {
    pout[0], pout[1] := b1, b2;
    pout[2], pout[3] := LowByte(i1), LowByte(i1 / 0x100);
    pout[4], pout[5] := LowByte(i1 / 0x1_0000), LowByte(i1 / 0x100_0000);
  }

  method SetPkt2Int(pout: array<byte>, b1: byte, b2: byte, i1: int, i2: int)
    requires pout.Length >= MAXPKT
    modifies pout
    ensures Starts(pout, [b1, b2] + Bytes4(i1) + Bytes4(i2))
  {
    SetPktInt(pout, b1, b2, i1);
    pout[6], pout[7] := LowByte(i2), LowByte(i2 / 0x100);
    pout[8], pout[9] := LowByte(i2 / 0x1_0000), LowByte(i2 / 0x100_0000);
  }

  class P2Slave {
    var dev: Device
    var count: int
    var errCrc: int
    var opens: int
    const ring: PacketRing

    ghost predicate Valid()
      reads this, ring, ring.buf
    {
      DeviceOk(dev) && ring.Valid()
    }

    constructor (d: Device)
      requires DeviceOk(d)
      ensures Valid() && fresh(ring) && fresh(ring.buf)
      ensures dev == d && count == errCrc == opens == 0 && ring.log == Log([], 0)
    {
      dev := d;
      count, errCrc, opens := 0, 0, 0;
      ring := new PacketRing();
    }

    /** Timecode generator requests; says whether the default reply is still to be sent. */
    method TcgenSense(pout: array<byte>, kind: byte) returns (sendack: bool)
      requires Valid() && pout.Length >= MAXPKT && pout != ring.buf as object
      modifies pout
      ensures var q := QueryOf(dev, 6, 0x0A, kind); sendack == !q.Query? && (q.Query? ==> Starts(pout, QueryBody(q)))
    {
      sendack := false;
      if kind == 0x01 { SetPktInt(pout, 0x74, 0x08, dev.tcgen.timecode); }
      else if kind == 0x10 { SetPktInt(pout, 0x74, 0x09, dev.tcgen.userbits); }
      else if kind == 0x11 { SetPkt2Int(pout, 0x78, 0x08, dev.tcgen.timecode, dev.tcgen.userbits); }
      else { sendack := true; }
    }

    /** Current timecode requests. */
    method TcSense(pout: array<byte>, kind: byte) returns (sendack: bool)
      requires Valid() && pout.Length >= MAXPKT && pout != ring.buf as object
      modifies pout
      ensures var q := QueryOf(dev, 6, 0x0C, kind); sendack == !q.Query? && (q.Query? ==> Starts(pout, QueryBody(q)))
    {
      sendack := false;
      var stc := dev.tc;
      if kind == 0x01 || kind == 0x03 { SetPktInt(pout, 0x74, 0x04, stc.timecode); }
      else if kind == 0x02 { SetPktInt(pout, 0x74, 0x06, stc.timecode); }
      else if kind == 0x04 { SetPktInt(pout, 0x74, 0x00, stc.timecode); }
      else if kind == 0x10 || kind == 0x30 { SetPktInt(pout, 0x74, 0x05, stc.userbits); }
      else if kind == 0x20 { SetPktInt(pout, 0x74, 0x07, stc.userbits); }
      else if kind == 0x11 || kind == 0x33 { SetPkt2Int(pout, 0x78, 0x04, stc.timecode, stc.userbits); }
      else if kind == 0x22 { SetPkt2Int(pout, 0x78, 0x06, stc.timecode, stc.userbits); }
      else { sendack := true; }
    }

    method StatusSense(pout: array<byte>, kind: byte, after: seq<byte>)
      requires Valid() && pout.Length >= MAXPKT && pout != ring.buf as object && |after| == 14
      modifies pout
      ensures Starts(pout, [0x70 + kind % 16, 0x20] + (dev.status + after)[kind / 16..kind / 16 + kind % 16])
    {
      var start, len := kind / 16, kind % 16;
      var mem := dev.status + after;
      pout[0] := 0x70 + len;
      pout[1] := 0x20;
      for i := 0 to len
        invariant pout[0] == 0x70 + len && pout[1] == 0x20
        invariant pout[2..2 + i] == mem[start..start + i]
      {
        pout[2 + i] := mem[start + i];
        assert pout[2..2 + i + 1] == pout[2..2 + i] + [mem[start + i]];
      }
      assert pout[..2 + len] == [0x70 + len, 0x20] + pout[2..2 + len];
    }

    /** Builds the reply to a valid packet, without its checksum. */
    method Answer(pout: array<byte>, pin: array<byte>, after: seq<byte>) returns (usersend: bool)
      requires Valid() && pout.Length >= MAXPKT && pin.Length >= MAXPKT && pout != pin && |after| == 14
      requires pout != ring.buf as object
      modifies pout
      ensures Starts(pout, Body(dev, after, pin[..PktSize(pin[..])]))
      ensures usersend == !(Private(pin[..PktSize(pin[..])]) || IsEdit(pin[..PktSize(pin[..])]))
    {
      var sendack := true;
      usersend := true;
      var hi, cmd, kind := pin[0] / 16, pin[1], pin[2];
      if hi == 0 && cmd == 0x11 {
        SetPkt(pout, [0x12, 0x11, LowByte(dev.id / 0x100), LowByte(dev.id)]);
        sendack, usersend := false, false;
      } else if hi == 6 {
        if cmd == 0x0A { sendack := TcgenSense(pout, kind); usersend := false; }
        else if cmd == 0x0C { sendack := TcSense(pout, kind); usersend := false; }
        else if cmd == 0x10 { SetPktInt(pout, 0x74, 0x10, dev.inPoint.timecode); sendack, usersend := false, false; }
        else if cmd == 0x11 { SetPktInt(pout, 0x74, 0x11, dev.outPoint.timecode); sendack, usersend := false, false; }
        else if cmd == 0x12 { SetPktInt(pout, 0x74, 0x12, dev.audioIn.timecode); sendack, usersend := false, false; }
        else if cmd == 0x13 { SetPktInt(pout, 0x74, 0x13, dev.audioOut.timecode); sendack, usersend := false, false; }
        else if cmd == 0x20 { StatusSense(pout, kind, after); sendack := false; }
        else if cmd == 0x2E { SetPkt(pout, [0x71, 0x2E, LowByte(dev.speed)]); sendack, usersend := false, false; }
        else if cmd == 0x31 { SetPktInt(pout, 0x74, 0x31, dev.preroll.timecode); sendack, usersend := false, false; }
        else if cmd == 0x36 { SetPkt(pout, [0x71, 0x36, 0x00]); sendack, usersend := false, false; }
      } else if hi == 2 && (cmd == 0x64 || cmd == 0x65) {
        usersend := false;
      }
      if sendack { SetPkt(pout, ACK); }
    }

    /** Packets are handed on only while the device is open. */
    method PushPkt(pkt: seq<byte>, now: int)
      requires Valid() && |pkt| <= SLOT_DATA
      modifies ring, ring.buf
      ensures Valid() && ring.log == if opens != 0 then StepLog(old(ring.log), Push(Packet(now, pkt))) else old(ring.log)
    {
      if opens != 0 { ring.PushPkt(pkt, now); }
    }

    method Forward(pin: array<byte>, size: nat, usersend: bool, now: int)
      requires Valid() && 3 <= size <= pin.Length && size <= MAXPKT
      requires usersend == !(Private(pin[..size]) || IsEdit(pin[..size]))
      modifies ring, ring.buf
      ensures Valid()
      ensures ring.log == if opens != 0 then PushAll(old(ring.log), Forwarded(dev, old(pin[..size])), now) else old(ring.log)
    {
      ghost var pkt := pin[..size];
      if pin[0] / 16 == 2 && (pin[1] == 0x64 || pin[1] == 0x65) {
        PushPkt([0x24, pin[1]] + Bytes4(dev.tc.timecode), now);
      } else if usersend {
        PushPkt(pin[..size], now);
      }
    }

    /** Handles one packet. A bad checksum yields the fixed refusal and touches nothing but
        the two counters. */
    method HandlePkt(pout: array<byte>, pin: array<byte>, after: seq<byte>, now: int)
      requires Valid() && pout.Length >= MAXPKT && pin.Length >= MAXPKT && pout != pin && |after| == 14
      requires pout != ring.buf as object && pin != ring.buf as object
      modifies this`count, this`errCrc, ring, ring.buf, pout
      ensures Valid() && count == old(count) + 1
      ensures var pkt := old(pin[..PktSize(pin[..])]);
        && Starts(pout, Response(dev, after, pkt))
        && errCrc == old(errCrc) + (if ChecksumOk(pkt) then 0 else 1)
        && ring.log == (if ChecksumOk(pkt) && opens != 0 then PushAll(old(ring.log), Forwarded(dev, pkt), now) else old(ring.log))
        && (!ChecksumOk(pkt) ==> unchanged(ring) && unchanged(ring.buf))
    {
      hide PacketRing.Valid, Body, Forwarded, Sum;
      count := count + 1;
      var bad := ChecksumVerify(pin);
      if bad {
        SetPkt(pout, NAK);
        errCrc := errCrc + 1;
        return;
      }
      var size := pin[0] % 16 + 3;
      ghost var pkt := pin[..size];
      var usersend := Answer(pout, pin, after);
      Forward(pin, size, usersend, now);
      BodyShape(dev, after, pkt);
      assert pout[..|Body(dev, after, pkt)|] == Body(dev, after, pkt);
      ChecksumAdd(pout);
    }
  }

  function PushAll(l: Log, pkts: seq<seq<byte>>, now: int): (r: Log)
    requires LogOk(l)
    ensures LogOk(r)
    decreases |pkts|
  {
    if pkts == [] then l else PushAll(StepLog(l, Push(Packet(now, pkts[0]))), pkts[1..], now)
  }
}
