/** The serial state machine: packets are put together from the bytes of receive
    interrupts, and replies leave as the transmit FIFO has room. */
module SlaveUart {
  import opened Arith
  import opened P2Packet

  const RXMAX := 32
  const BUFFER := 64

  /** What the receive FIFO holds, as its status register reports it. */
  datatype RxEntry = Data(b: byte) | ParityError | Overrun

  datatype RxResult = RxResult(ret: int, data: seq<byte>)

  /** Reads at most max bytes; an error entry ends the read with a negative result. */
  function UartRx(fifo: seq<RxEntry>, max: nat): (r: RxResult)
    ensures r.ret <= max && (0 <= r.ret ==> r.ret == |r.data|) && |r.data| <= max
    decreases max
  {
    if max == 0 || fifo == [] then RxResult(0, [])
    else
      match fifo[0]
      case ParityError => RxResult(-1, [])
      case Overrun => RxResult(-2, [])
      case Data(b) =>
        var r := UartRx(fifo[1..], max - 1);
        RxResult(if r.ret < 0 then r.ret else r.ret + 1, [b] + r.data)
  }

  /** After i data entries the read goes on with the rest of the FIFO. */
  lemma {:induction false} UartRxAfter(fifo: seq<RxEntry>, max: nat, i: nat)
    requires i <= max && i <= |fifo| && forall k :: 0 <= k < i ==> fifo[k].Data?
    ensures var r, t := UartRx(fifo, max), UartRx(fifo[i..], max - i);
      && r.ret == (if t.ret < 0 then t.ret else i + t.ret)
      && |r.data| == i + |t.data| && r.data[i..] == t.data
      && forall k :: 0 <= k < i ==> r.data[k] == fifo[k].b
    decreases i
  {
    if i == 0 {
      assert fifo[0..] == fifo;
    } else {
      UartRxAfter(fifo[1..], max - 1, i - 1);
      assert fifo[1..][i - 1..] == fifo[i..];
    }
  }

  /** How a read ends that got as far as entry i. */
  lemma UartRxEnds(fifo: seq<RxEntry>, max: nat, i: nat)
    requires i <= max && i <= |fifo| && forall k :: 0 <= k < i ==> fifo[k].Data?
    requires i == max || i == |fifo| || !fifo[i].Data?
    ensures var r := UartRx(fifo, max);
      && r.ret == (if i == max || i == |fifo| then i else if fifo[i].ParityError? then -1 else -2)
      && |r.data| == i && forall k :: 0 <= k < i ==> r.data[k] == fifo[k].b
  {
    UartRxAfter(fifo, max, i);
    assert i < |fifo| ==> fifo[i..][0] == fifo[i];
  }

  datatype Mode = Rx | Tx

  /** input and output are the used parts of the two buffers. wire, the bytes transmitted, and
      handled, the packets answered, are history variables. */
  datatype Uart = Uart(mode: Mode, input: seq<byte>, insize: int, output: seq<byte>, outpt: nat,
                       tstamp: int, wraps: int, resetUart: bool, wire: seq<byte>, handled: seq<seq<byte>>)

  /** A receive interrupt comes with the transmit room and the replies of its moment. */
  datatype Event =
    | RxIrq(fifo: seq<RxEntry>, room: nat, reply: seq<byte> -> seq<byte>)
    | TxIrq(room: nat)
    | AudioWrap

  function Reset(u: Uart): Uart {
    u.(mode := Rx, input := [], insize := 0, output := [], outpt := 0)
  }

  /** Transmits as much as there is room for; a reply sent in full ends the exchange. */
  function SlaveTx(u: Uart, room: nat): Uart {
    if u.mode != Tx || u.outpt > |u.output| then u
    else
      var n := Min(room, |u.output| - u.outpt);
      var t := u.(wire := u.wire + u.output[u.outpt..u.outpt + n], outpt := u.outpt + n);
      if n > 0 && t.outpt >= |t.output| then Reset(t) else t
  }

  /** The reply to a complete packet is ready to be sent. */
  function Ready(u: Uart, pkt: seq<byte>, resp: seq<byte>): Uart {
    u.(mode := Tx, output := resp, outpt := 0, handled := u.handled + [pkt])
  }

  /** A packet whose bytes are complete is answered, and the reply starts at once. */
  function Answered(u: Uart, room: nat, reply: seq<byte> -> seq<byte>): Uart
    requires 0 <= u.insize <= |u.input|
  {
    var pkt := u.input[..u.insize];
    SlaveTx(Ready(u, pkt, reply(pkt)), room)
  }

  predicate ValidLength(pkt: seq<byte>) {
    pkt != [] && |pkt| == PktSize(pkt)
  }

  /** Packets are answered with packets; ResponseIsReply shows that the driver's are. */
  ghost predicate EventOk(e: Event) {
    e.RxIrq? ==> forall pkt :: ValidLength(pkt) ==> ValidLength(e.reply(pkt))
  }

  ghost predicate EventsOk(es: seq<Event>) {
    forall i :: 0 <= i < |es| ==> EventOk(es[i])
  }

  predicate NoReceive(es: seq<Event>) {
    forall i :: 0 <= i < |es| ==> !es[i].RxIrq?
  }

  /** The bytes of a receive are stored; the first of a packet gives its size. */
  function Stored(u: Uart, data: seq<byte>): Uart
    requires data != []
  {
    u.(tstamp := u.wraps, input := u.input + data, insize := if u.input == [] then PktSize(data) else u.insize)
  }

  lemma StoredSize(u: Uart, data: seq<byte>)
    requires UartInv(u) && u.mode == Rx && data != []
    ensures var s := Stored(u, data); s.insize == PktSize(s.input) >= 3
  {
  }

  function SlaveRx(u: Uart, e: Event): Uart
    requires e.RxIrq? && UartInv(u)
  {
    if u.mode == Tx then u
    else
      var r := UartRx(e.fifo, RXMAX - |u.input|);
      if r.ret > 0 then
        var s := Stored(u, r.data);
        if |s.input| >= s.insize then Answered(s, e.room, e.reply) else s
      else Reset(u).(tstamp := u.wraps, resetUart := true)
  }

  /** The audio interrupt counts time: an exchange without progress for more than two counts
      is given up. A pending receiver reset is carried out. */
  function Wrap(u: Uart): Uart {
    var t := u.(wraps := u.wraps + 1, resetUart := false);
    if u.input != [] && u.tstamp + 2 < t.wraps then Reset(t) else t
  }

  function Step(u: Uart, e: Event): Uart
    requires UartInv(u)
  {
    match e
    case RxIrq(_, _, _) => SlaveRx(u, e)
    case TxIrq(room) => SlaveTx(u, room)
    case AudioWrap => Wrap(u)
  }

  // ----- the invariant

  predicate Idle(u: Uart) {
    u.mode == Rx && u.input == [] && u.insize == 0 && u.output == [] && u.outpt == 0
  }

  predicate Receiving(u: Uart) {
    u.mode == Rx && 0 < |u.input| < u.insize <= MAXPKT && u.insize == PktSize(u.input) && u.output == [] && u.outpt == 0
  }

  predicate Sending(u: Uart) {
    && u.mode == Tx && 0 < u.insize <= |u.input| <= RXMAX && u.insize == PktSize(u.input)
    && u.outpt < |u.output| <= MAXPKT && |u.output| == PktSize(u.output)
  }

  /** Between interrupts the machine is idle, in the middle of a packet, or in the middle of a
      reply. So a receive always has room for at least 14 bytes, and both buffers suffice. */
  predicate UartInv(u: Uart) {
    Idle(u) || Receiving(u) || Sending(u)
  }

  lemma {:induction false} StepKeepsInv(u: Uart, e: Event)
    requires EventOk(e) && UartInv(u)
    ensures UartInv(Step(u, e))
    ensures u.mode == Rx ==> RXMAX - |u.input| >= 14
  {
    if e.RxIrq? && u.mode == Rx {
      var r := UartRx(e.fifo, RXMAX - |u.input|);
      if r.ret > 0 {
        var input := u.input + r.data;
        var insize := if u.input == [] then PktSize(r.data) else u.insize;
        if |input| >= insize { assert ValidLength(input[..insize]); }
      }
    }
  }

  ghost function Run(u: Uart, es: seq<Event>): (r: Uart)
    requires UartInv(u) && EventsOk(es)
    ensures UartInv(r)
    decreases |es|
  {
    if es == [] then u
    else
      StepKeepsInv(u, es[0]);
      Run(Step(u, es[0]), es[1..])
  }

  // ----- one exchange, however it is cut up

  ghost predicate Clean(fifo: seq<RxEntry>) {
    fifo != [] && forall i :: 0 <= i < |fifo| ==> fifo[i].Data?
  }

  function Bytes(fifo: seq<RxEntry>): seq<byte> {
    if fifo == [] then [] else (if fifo[0].Data? then [fifo[0].b] else []) + Bytes(fifo[1..])
  }

  lemma {:induction false} CleanRead(fifo: seq<RxEntry>, max: nat)
    requires Clean(fifo) && |fifo| <= max
    ensures UartRx(fifo, max) == RxResult(|fifo|, Bytes(fifo)) && |Bytes(fifo)| == |fifo|
    decreases |fifo|
  {
    if |fifo| > 1 {
      CleanRead(fifo[1..], max - 1);
    } else {
      assert Bytes(fifo[1..]) == [];
    }
  }

  function Chunk(e: Event): seq<byte> {
    if e.RxIrq? then Bytes(e.fifo) else []
  }

  function Chunks(es: seq<Event>): seq<byte> {
    if es == [] then [] else Chunk(es[0]) + Chunks(es[1..])
  }

  /** Receives are clean and non-empty, and no timeout fires. */
  ghost predicate Quiet(u: Uart, es: seq<Event>)
    requires UartInv(u) && EventsOk(es)
    decreases |es|
  {
    if es == [] then true
    else
      StepKeepsInv(u, es[0]);
      && (es[0].RxIrq? ==> Clean(es[0].fifo))
      && (es[0].AudioWrap? && u.input != [] ==> u.wraps + 1 <= u.tstamp + 2)
      && Quiet(Step(u, es[0]), es[1..])
  }

  lemma {:induction false} RunUnfolds(u: Uart, es: seq<Event>)
    requires UartInv(u) && EventsOk(es) && es != [] && Quiet(u, es)
    ensures UartInv(Step(u, es[0])) && Run(u, es) == Run(Step(u, es[0]), es[1..])
    ensures Quiet(Step(u, es[0]), es[1..])
    ensures EventOk(es[0]) && EventsOk(es[1..]) && (es[0].RxIrq? ==> Clean(es[0].fifo))
    ensures es[0].AudioWrap? && u.input != [] ==> u.wraps + 1 <= u.tstamp + 2
  {
    StepKeepsInv(u, es[0]);
  }

  function Room(e: Event): nat {
    if e.TxIrq? then e.room else 0
  }

  function Rooms(es: seq<Event>): nat {
    if es == [] then 0 else Room(es[0]) + Rooms(es[1..])
  }

  lemma {:induction false} NoBytesNoReceive(es: seq<Event>)
    requires Chunks(es) == [] && EventsOk(es) && forall i :: 0 <= i < |es| ==> (es[i].RxIrq? ==> Clean(es[i].fifo))
    ensures NoReceive(es)
    decreases |es|
  {
    if es != [] {
      if es[0].RxIrq? { CleanRead(es[0].fifo, |es[0].fifo|); }
      NoBytesNoReceive(es[1..]);
    }
  }

  lemma {:induction false} QuietIsClean(u: Uart, es: seq<Event>)
    requires UartInv(u) && EventsOk(es) && Quiet(u, es)
    ensures forall i :: 0 <= i < |es| ==> (es[i].RxIrq? ==> Clean(es[i].fifo))
    decreases |es|
  {
    if es != [] {
      StepKeepsInv(u, es[0]);
      QuietIsClean(Step(u, es[0]), es[1..]);
    }
  }

  /** What a machine has come to that had sent part of resp and found room for total bytes more. */
  ghost predicate SentOn(u: Uart, r: Uart, resp: seq<byte>, from: nat, total: nat)
    requires from <= |resp|
  {
    && r.handled == u.handled
    && r.wire == u.wire + resp[from..Min(from + total, |resp|)]
    && (if from + total < |resp| then Sending(r) && r.output == resp && r.outpt == from + total else Idle(r))
  }

  lemma {:induction false} IdleStaysIdle(u: Uart, es: seq<Event>)
    requires Idle(u) && EventsOk(es) && NoReceive(es)
    ensures Idle(Run(u, es)) && Run(u, es).wire == u.wire && Run(u, es).handled == u.handled
    decreases |es|
  {
    if es != [] { IdleStaysIdle(Step(u, es[0]), es[1..]); }
  }

  lemma TransmitOnce(u: Uart, room: nat)
    requires Sending(u)
    ensures SentOn(u, SlaveTx(u, room), u.output, u.outpt, room)
  {
    if room == 0 { assert u.wire + u.output[u.outpt..u.outpt] == u.wire; }
  }

  lemma SendingAfter(u: Uart, m: Uart, room: nat)
    requires Sending(u) && SentOn(u, m, u.output, u.outpt, room)
    ensures if u.outpt + room < |u.output| then Sending(m) && m.output == u.output && m.outpt == u.outpt + room else Idle(m)
  {
  }

  lemma SentOnTransitive(u: Uart, m: Uart, r: Uart, resp: seq<byte>, from: nat, a: nat, b: nat)
    requires from + a < |resp| && SentOn(u, m, resp, from, a) && SentOn(m, r, resp, from + a, b)
    ensures SentOn(u, r, resp, from, a + b)
  {
    assert resp[from..from + a] + resp[from + a..Min(from + a + b, |resp|)] == resp[from..Min(from + a + b, |resp|)];
  }

  lemma SentOnIdle(u: Uart, m: Uart, r: Uart, resp: seq<byte>, from: nat, a: nat, b: nat)
    requires from <= |resp| <= from + a && SentOn(u, m, resp, from, a)
    requires Idle(r) && r.wire == m.wire && r.handled == m.handled
    ensures SentOn(u, r, resp, from, a + b)
  {
  }

  lemma {:induction false} TransmitStep(u: Uart, e: Event, room: nat)
    requires Sending(u) && !e.RxIrq? && room == (if e.TxIrq? then e.room else 0)
    requires e.AudioWrap? ==> u.wraps + 1 <= u.tstamp + 2
    ensures SentOn(u, Step(u, e), u.output, u.outpt, room)
  {
    TransmitOnce(u, room);
    if e.AudioWrap? { assert u.wire + u.output[u.outpt..u.outpt] == u.wire; }
  }

  lemma {:induction false} TransmitFirst(u: Uart, es: seq<Event>)
    requires Sending(u) && EventsOk(es) && NoReceive(es) && Quiet(u, es) && es != []
    ensures var m, rest := Step(u, es[0]), es[1..];
      && UartInv(m) && EventsOk(rest) && NoReceive(rest)
      && Quiet(m, rest) && Run(u, es) == Run(m, rest) && SentOn(u, m, u.output, u.outpt, Room(es[0]))
      && Rooms(es) == Room(es[0]) + Rooms(rest)
  {
    RunUnfolds(u, es);
    TransmitStep(u, es[0], Room(es[0]));
    hide Step, Run, Quiet, SentOn, EventOk, UartInv;
  }

  /** A reply leaves completely and once, whatever the stalls. */
  lemma {:induction false} TransmitRun(u: Uart, es: seq<Event>)
    requires Sending(u) && EventsOk(es) && NoReceive(es) && Quiet(u, es)
    ensures SentOn(u, Run(u, es), u.output, u.outpt, Rooms(es))
    decreases |es|, 1
  {
    if es == [] {
      assert u.wire + u.output[u.outpt..u.outpt] == u.wire;
    } else {
      TransmitFirst(u, es);
      SendingAfter(u, Step(u, es[0]), Room(es[0]));
      TransmitRest(u, es, Step(u, es[0]));
    }
  }

  lemma SendingBounds(u: Uart)
    requires Sending(u)
    ensures u.outpt < |u.output|
  {
  }

  lemma {:induction false} TransmitRest(u: Uart, es: seq<Event>, m: Uart)
    requires Sending(u) && es != [] && EventsOk(es[1..]) && NoReceive(es[1..])
    requires UartInv(m) && Quiet(m, es[1..]) && SentOn(u, m, u.output, u.outpt, Room(es[0]))
    requires if u.outpt + Room(es[0]) < |u.output| then Sending(m) && m.output == u.output && m.outpt == u.outpt + Room(es[0])
             else Idle(m)
    ensures SentOn(u, Run(m, es[1..]), u.output, u.outpt, Room(es[0]) + Rooms(es[1..]))
    decreases |es|, 0
  {
    hide Step, Run, Quiet, SentOn, EventsOk, NoReceive, UartInv, Rooms, Room, PktSize, Idle, Clean, Sending;
    var room, rest := Room(es[0]), es[1..];
    SendingBounds(u);
    if u.outpt + room < |u.output| {
      TransmitRun(m, rest);
      SentOnTransitive(u, m, Run(m, rest), u.output, u.outpt, room, Rooms(rest));
    } else {
      IdleStaysIdle(m, rest);
      SentOnIdle(u, m, Run(m, rest), u.output, u.outpt, room, Rooms(rest));
    }
  }

  // ----- receiving

  /** The number of the event that completes a packet of which need bytes are missing. */
  function Completing(es: seq<Event>, need: nat): nat {
    if es == [] || |Chunk(es[0])| >= need then 0 else 1 + Completing(es[1..], need - |Chunk(es[0])|)
  }

  /** The machine is waiting for the rest of pkt, having stored the first n bytes. */
  predicate Awaits(u: Uart, pkt: seq<byte>, n: nat)
    requires n <= |pkt|
  {
    UartInv(u) && u.mode == Rx && u.input == pkt[..n]
  }

  lemma {:induction false} ReceiveChunk(u: Uart, e: Event, pkt: seq<byte>, n: nat)
    requires ValidLength(pkt) && n < |pkt| && Awaits(u, pkt, n)
    requires e.RxIrq? && EventOk(e) && Clean(e.fifo) && n + |Bytes(e.fifo)| <= |pkt|
    requires Bytes(e.fifo) == pkt[n..n + |Bytes(e.fifo)|]
    ensures var k, r := n + |Bytes(e.fifo)|, Step(u, e);
      && n < k
      && (k < |pkt| ==> Awaits(r, pkt, k) && r.wire == u.wire && r.handled == u.handled)
      && (k == |pkt| ==>
            var s := r; var resp := e.reply(pkt);
            && s.handled == u.handled + [pkt]
            && s.wire == u.wire + resp[..Min(e.room, |resp|)]
            && (if e.room < |resp| then Sending(s) && s.output == resp && s.outpt == e.room else Idle(s)))
  {
    CleanRead(e.fifo, |e.fifo|);
    CleanRead(e.fifo, RXMAX - |u.input|);
    var k := n + |Bytes(e.fifo)|;
    assert u.input + Bytes(e.fifo) == pkt[..k];
    hide UartRx, Clean, EventOk, Bytes;
    StoredPrefix(u, Bytes(e.fifo), pkt, k);
    if k == |pkt| {
      assert pkt[..|pkt|] == pkt;
      AnswerGoesOut(Stored(u, Bytes(e.fifo)), e.room, e.reply, pkt);
    }
  }

  lemma StoredPrefix(u: Uart, data: seq<byte>, pkt: seq<byte>, k: nat)
    requires ValidLength(pkt) && UartInv(u) && u.mode == Rx && data != [] && |u.input| < k <= |pkt|
    requires u.input + data == pkt[..k]
    ensures var s := Stored(u, data);
      && s.mode == Rx && s.input == pkt[..k] && s.insize == |pkt| && s.output == [] && s.outpt == 0
      && (k < |pkt| ==> UartInv(s))
  {
    assert u.input == [] ==> data == pkt[..k];
    assert pkt[..k][0] == pkt[0];
  }

  lemma AnswerGoesOut(s: Uart, room: nat, reply: seq<byte> -> seq<byte>, pkt: seq<byte>)
    requires ValidLength(pkt) && ValidLength(reply(pkt)) && s.input == pkt && s.insize == |pkt| <= MAXPKT
    ensures var resp, r := reply(pkt), Answered(s, room, reply);
      && r.handled == s.handled + [pkt]
      && r.wire == s.wire + resp[..Min(room, |resp|)]
      && (if room < |resp| then Sending(r) && r.output == resp && r.outpt == room else Idle(r))
  {
    assert pkt[..|pkt|] == pkt;
  }

  /** Transmit interrupts and the passing of time do not disturb a receive. */
  lemma {:induction false} WaitStep(u: Uart, e: Event, pkt: seq<byte>, n: nat)
    requires n < |pkt| && Awaits(u, pkt, n) && !e.RxIrq?
    requires e.AudioWrap? && u.input != [] ==> u.wraps + 1 <= u.tstamp + 2
    ensures var r := Step(u, e); Awaits(r, pkt, n) && r.wire == u.wire && r.handled == u.handled
  {
  }

  /** What one exchange comes to: the packet was answered once, with the reply of the moment it
      was complete, and the bytes written are the reply as far as there was room. */
  ghost predicate Exchanged(u: Uart, r: Uart, pkt: seq<byte>, resp: seq<byte>, total: nat) {
    && r.handled == u.handled + [pkt]
    && r.wire == u.wire + resp[..Min(total, |resp|)]
    && (if total < |resp| then Sending(r) else Idle(r))
  }

  lemma CutFront(pkt: seq<byte>, n: nat, a: seq<byte>, b: seq<byte>)
    requires n < |pkt| && pkt[..n] + (a + b) == pkt
    ensures var k := n + |a|; k <= |pkt| && a == pkt[n..k] && pkt[..k] + b == pkt && (k == |pkt| ==> b == [])
  {
    assert |pkt| == n + |a| + |b|;
    var k := n + |a|;
    assert forall i :: 0 <= i < |a| ==> a[i] == (pkt[..n] + (a + b))[n + i];
    assert forall i :: 0 <= i < |b| ==> b[i] == (pkt[..n] + (a + b))[k + i];
  }

  lemma {:induction false} CutChunk(es: seq<Event>, pkt: seq<byte>, n: nat)
    requires n < |pkt| && pkt[..n] + Chunks(es) == pkt
    ensures es != []
    ensures var k := n + |Chunk(es[0])|;
      k <= |pkt| && Chunk(es[0]) == pkt[n..k] && pkt[..k] + Chunks(es[1..]) == pkt && (k == |pkt| ==> Chunks(es[1..]) == [])
  {
    assert |Chunks(es)| == |pkt| - n > 0;
    CutFront(pkt, n, Chunk(es[0]), Chunks(es[1..]));
  }

  /** The exchange of pkt over es, n bytes being in already. */
  ghost predicate ExchangedBy(u: Uart, es: seq<Event>, pkt: seq<byte>, n: nat)
    requires UartInv(u) && EventsOk(es) && n <= |pkt|
  {
    var c := Completing(es, |pkt| - n);
    && c < |es| && es[c].RxIrq?
    && Exchanged(u, Run(u, es), pkt, es[c].reply(pkt), es[c].room + Rooms(es[c + 1..]))
  }

  lemma {:induction false} ExchangedLater(u: Uart, es: seq<Event>, pkt: seq<byte>, n: nat, k: nat)
    requires UartInv(u) && EventsOk(es) && es != [] && UartInv(Step(u, es[0]))
    requires n <= k < |pkt| && k == n + |Chunk(es[0])| && Run(u, es) == Run(Step(u, es[0]), es[1..])
    requires Step(u, es[0]).wire == u.wire && Step(u, es[0]).handled == u.handled
    requires ExchangedBy(Step(u, es[0]), es[1..], pkt, k)
    ensures ExchangedBy(u, es, pkt, n)
  {
    hide Step, Run, UartInv;
    var c := Completing(es[1..], |pkt| - k);
    assert Completing(es, |pkt| - n) == c + 1;
    assert es[c + 1] == es[1..][c] && es[c + 2..] == es[1..][c + 1..];
  }

  /** Chunking independence and exactly-once reply: however a valid-length packet is split over
      receive interrupts and whatever stalls the transmitter, the packet is answered once, and
      what is written is its reply, completely if there is room in all for that many bytes. */
  lemma {:induction false} ExchangeOnce(u: Uart, es: seq<Event>, pkt: seq<byte>, n: nat)
    requires ValidLength(pkt) && n < |pkt| && Awaits(u, pkt, n)
    requires EventsOk(es) && Quiet(u, es) && pkt[..n] + Chunks(es) == pkt
    ensures ExchangedBy(u, es, pkt, n)
    decreases |es|
  {
    hide Step, Run, Quiet, Chunks, Exchanged;
    CutChunk(es, pkt, n);
    var e, m, rest := es[0], Step(u, es[0]), es[1..];
    QuietIsClean(u, es);
    RunUnfolds(u, es);
    var k := n + |Chunk(e)|;
    if e.RxIrq? { ReceiveChunk(u, e, pkt, n); } else { WaitStep(u, e, pkt, n); }
    if k < |pkt| {
      ExchangeOnce(m, rest, pkt, k);
      ExchangedLater(u, es, pkt, n, k);
    } else {
      NoBytesNoReceive(rest);
      assert es[0 + 1..] == rest;
      FinishExchange(u, m, e, rest, pkt);
    }
  }

  lemma {:induction false} FinishExchange(u: Uart, m: Uart, e: Event, rest: seq<Event>, pkt: seq<byte>)
    requires ValidLength(pkt) && e.RxIrq? && EventOk(e) && UartInv(m)
    requires EventsOk(rest) && NoReceive(rest) && Quiet(m, rest)
    requires var resp := e.reply(pkt);
      && m.handled == u.handled + [pkt] && m.wire == u.wire + resp[..Min(e.room, |resp|)]
      && (if e.room < |resp| then Sending(m) && m.output == resp && m.outpt == e.room else Idle(m))
    ensures Exchanged(u, Run(m, rest), pkt, e.reply(pkt), e.room + Rooms(rest))
  {
    hide Step, Run, Quiet, UartInv, SentOn, EventOk, EventsOk, NoReceive, Rooms, PktSize, Sending, Idle, Clean, ValidLength, Exchanged;
    var resp := e.reply(pkt);
    if e.room < |resp| {
      TransmitRun(m, rest);
      FinishSending(u, m, Run(m, rest), pkt, resp, e.room, Rooms(rest));
    } else {
      IdleStaysIdle(m, rest);
      FinishIdle(u, m, Run(m, rest), pkt, resp, e.room, Rooms(rest));
    }
  }

  lemma {:induction false} FinishIdle(u: Uart, m: Uart, r: Uart, pkt: seq<byte>, resp: seq<byte>, a: nat, b: nat)
    requires |resp| <= a && m.handled == u.handled + [pkt] && m.wire == u.wire + resp[..Min(a, |resp|)]
    requires Idle(r) && r.wire == m.wire && r.handled == m.handled
    ensures Exchanged(u, r, pkt, resp, a + b)
  {
  }

  lemma {:induction false} FinishSending(u: Uart, m: Uart, r: Uart, pkt: seq<byte>, resp: seq<byte>, a: nat, b: nat)
    requires a < |resp| && m.handled == u.handled + [pkt] && m.wire == u.wire + resp[..a] && SentOn(m, r, resp, a, b)
    ensures Exchanged(u, r, pkt, resp, a + b)
  {
    hide Sending, Idle;
    var x := Min(a + b, |resp|);
    SlicesJoin(u.wire, resp, a, x);
  }

  lemma SlicesJoin(w: seq<byte>, s: seq<byte>, i: nat, j: nat)
    requires i <= j <= |s|
    ensures w + s[..i] + s[i..j] == w + s[..j]
  {
    assert s[..i] + s[i..j] == s[..j];
  }

  // ----- incomplete packets

  /** The data is bytes n to k of the packet. */
  predicate Part(pkt: seq<byte>, n: nat, k: nat, data: seq<byte>) {
    n <= k <= |pkt| && data == pkt[n..k]
  }

  /** The machine waits for the rest of a packet, however its beginning is split: nothing is
      answered and nothing written. */
  lemma {:induction false} StillAwaits(u: Uart, es: seq<Event>, pkt: seq<byte>, n: nat, k: nat)
    requires ValidLength(pkt) && k < |pkt| && n < |pkt| && Awaits(u, pkt, n)
    requires EventsOk(es) && Quiet(u, es) && Part(pkt, n, k, Chunks(es))
    ensures var r := Run(u, es); Awaits(r, pkt, k) && r.handled == u.handled && r.wire == u.wire
    decreases |es|
  {
    if es != [] {
      StillFirst(u, es, pkt, n, k);
      hide Step, Run, Quiet, Chunks, Chunk, Clean, Awaits, EventsOk, ValidLength, UartInv, Part;
      StillAwaits(Step(u, es[0]), es[1..], pkt, n + |Chunk(es[0])|, k);
    }
  }

  lemma {:induction false} ChunksUnfold(es: seq<Event>)
    requires es != []
    ensures Chunks(es) == Chunk(es[0]) + Chunks(es[1..])
  {
  }

  lemma AwaitsIsInv(u: Uart, pkt: seq<byte>, n: nat)
    requires n <= |pkt| && Awaits(u, pkt, n)
    ensures UartInv(u)
  {
  }

  lemma {:induction false} StillFirst(u: Uart, es: seq<Event>, pkt: seq<byte>, n: nat, k: nat)
    requires ValidLength(pkt) && k < |pkt| && n < |pkt| && Awaits(u, pkt, n) && es != []
    requires EventsOk(es) && Quiet(u, es) && Part(pkt, n, k, Chunks(es))
    ensures var m, rest, j := Step(u, es[0]), es[1..], n + |Chunk(es[0])|;
      && j < |pkt| && Awaits(m, pkt, j) && EventsOk(rest) && Quiet(m, rest) && Part(pkt, j, k, Chunks(rest))
      && m.handled == u.handled && m.wire == u.wire && Run(u, es) == Run(m, rest)
  {
    hide Step, Run, Quiet, Chunks, Chunk, Clean, Awaits, EventOk, EventsOk, ValidLength, UartInv, Part;
    var e, rest := es[0], es[1..];
    ChunksUnfold(es);
    AwaitsIsInv(u, pkt, n);
    RunUnfolds(u, es);
    CutPart(pkt, n, k, Chunk(e), Chunks(rest));
    PartReceived(u, e, pkt, n);
  }

  lemma PartReceived(u: Uart, e: Event, pkt: seq<byte>, n: nat)
    requires ValidLength(pkt) && n + |Chunk(e)| < |pkt| && Awaits(u, pkt, n) && EventOk(e) && (e.RxIrq? ==> Clean(e.fifo))
    requires Part(pkt, n, n + |Chunk(e)|, Chunk(e))
    requires e.AudioWrap? && u.input != [] ==> u.wraps + 1 <= u.tstamp + 2
    ensures var r := Step(u, e); Awaits(r, pkt, n + |Chunk(e)|) && r.handled == u.handled && r.wire == u.wire
  {
    hide Step, Awaits, EventOk, Clean, ValidLength, Sending, Idle, UartInv, Bytes, PktSize;
    AwaitsIsInv(u, pkt, n);
    if e.RxIrq? {
      ChunkReceived(u, e, pkt, n);
    } else {
      WaitStep(u, e, pkt, n);
    }
  }

  lemma ChunkReceived(u: Uart, e: Event, pkt: seq<byte>, n: nat)
    requires ValidLength(pkt) && e.RxIrq? && n + |Bytes(e.fifo)| < |pkt| && Awaits(u, pkt, n) && EventOk(e) && Clean(e.fifo)
    requires Bytes(e.fifo) == pkt[n..n + |Bytes(e.fifo)|]
    ensures UartInv(u)
    ensures var r := Step(u, e); Awaits(r, pkt, n + |Bytes(e.fifo)|) && r.handled == u.handled && r.wire == u.wire
  {
    hide Step, Awaits, EventOk, Clean, ValidLength, Sending, Idle, UartInv, Bytes, PktSize;
    AwaitsIsInv(u, pkt, n);
    ReceiveChunk(u, e, pkt, n);
  }

  lemma CutPart(pkt: seq<byte>, n: nat, k: nat, a: seq<byte>, b: seq<byte>)
    requires Part(pkt, n, k, a + b)
    ensures n + |a| <= k && Part(pkt, n, n + |a|, a) && Part(pkt, n + |a|, k, b)
  {
    assert |a + b| == k - n;
    assert a == (a + b)[..|a|] && b == (a + b)[|a|..];
  }

  /** A packet whose first byte is changed to announce more bytes than were sent is not answered:
      the receiver waits until more bytes come or it gives up. */
  lemma LongerWaits(u: Uart, es: seq<Event>, pkt: seq<byte>, v: byte)
    requires Idle(u) && ValidLength(pkt) && v % 16 > pkt[0] % 16
    requires EventsOk(es) && Quiet(u, es) && Chunks(es) == pkt[0 := v]
    ensures var r := Run(u, es); Receiving(r) && r.input == pkt[0 := v] && r.handled == u.handled && r.wire == u.wire
  {
    var whole := pkt[0 := v] + Zeros(v % 16 - pkt[0] % 16);
    assert whole[0] == v && whole[..|pkt|] == pkt[0 := v];
    StillAwaits(u, es, whole, 0, |pkt|);
  }

  // ----- more than a packet

  /** A receive takes up to 32 bytes. What follows a complete packet in it is not looked at: the
      packet alone is answered. */
  lemma SurplusIgnored(u: Uart, e: Event)
    requires Idle(u) && e.RxIrq? && EventOk(e) && Clean(e.fifo) && |e.fifo| <= 32
    requires Bytes(e.fifo) != [] && PktSize(Bytes(e.fifo)) <= |Bytes(e.fifo)|
    ensures var pkt, r := Bytes(e.fifo)[..PktSize(Bytes(e.fifo))], Step(u, e);
      && r.handled == u.handled + [pkt]
      && (if e.room < |e.reply(pkt)| then Sending(r) && r.input == Bytes(e.fifo) && r.output == e.reply(pkt) else Idle(r))
  {
    CleanRead(e.fifo, RXMAX);
    hide UartRx, Clean, Bytes;
    var data := Bytes(e.fifo);
    var pkt := data[..PktSize(data)];
    assert ValidLength(pkt);
    assert u.input + data == data;
  }

  /** A longer fill of the FIFO is read up to the 32nd byte, the rest being left for later. */
  lemma LongReceive(fifo: seq<RxEntry>)
    requires Clean(fifo) && 32 <= |fifo|
    ensures UartRx(fifo, RXMAX).ret == 32
  {
    UartRxEnds(fifo, 32, 32);
  }

  // ----- giving up

  /** A count of the audio clock gives the exchange up exactly when two counts have passed since
      its last bytes; until then it leaves the exchange as it is. */
  lemma TimeoutIff(u: Uart)
    requires (Receiving(u) || Sending(u)) && u.tstamp <= u.wraps
    ensures Idle(Wrap(u)) <==> 2 <= u.wraps - u.tstamp
    ensures u.wraps - u.tstamp < 2 ==> Wrap(u) == u.(wraps := u.wraps + 1, resetUart := false)
    ensures Wrap(u).handled == u.handled && Wrap(u).wire == u.wire
  {
  }

  /** A receive with an error, or without a byte, gives it up at once and has the receiver reset. */
  lemma BadReceiveResets(u: Uart, e: Event)
    requires UartInv(u) && u.mode == Rx && e.RxIrq? && UartRx(e.fifo, RXMAX - |u.input|).ret <= 0
    ensures var r := Step(u, e); Idle(r) && r.resetUart && r.handled == u.handled && r.wire == u.wire
  {
  }

  /** Bytes are stamped with the count at which they came, and a reply keeps the stamp. */
  lemma StepKeepsClock(u: Uart, e: Event)
    requires UartInv(u) && u.tstamp <= u.wraps
    ensures var r := Step(u, e);
      && r.tstamp <= r.wraps && r.wraps == u.wraps + (if e.AudioWrap? then 1 else 0)
      && r.tstamp == if e.RxIrq? && u.mode == Rx then u.wraps else u.tstamp
  {
  }

  function Wraps(es: seq<Event>): nat {
    if es == [] then 0 else (if es[0].AudioWrap? then 1 else 0) + Wraps(es[1..])
  }

  lemma SilentStep(u: Uart, e: Event)
    requires UartInv(u) && u.tstamp <= u.wraps && EventOk(e) && !e.RxIrq?
    ensures var r := Step(u, e);
      && UartInv(r) && r.tstamp <= r.wraps && (Idle(u) ==> Idle(r))
      && (Idle(r) || r.wraps - r.tstamp == u.wraps - u.tstamp + (if e.AudioWrap? then 1 else 0))
      && (e.AudioWrap? && 2 <= u.wraps - u.tstamp ==> Idle(r))
  {
    StepKeepsInv(u, e);
    StepKeepsClock(u, e);
  }

  /** Three counts, those since the last bytes included, without a received byte end every exchange, whatever the transmitter does, and
      the machine is ready for a whole new packet. */
  lemma {:induction false} SilenceEnds(u: Uart, es: seq<Event>, pkt: seq<byte>)
    requires UartInv(u) && u.tstamp <= u.wraps && EventsOk(es) && NoReceive(es)
    requires Idle(u) || (1 <= Wraps(es) && 3 <= Wraps(es) + (u.wraps - u.tstamp))
    ensures Idle(Run(u, es)) && Awaits(Run(u, es), pkt, 0)
    decreases |es|
  {
    if es != [] {
      hide Step, EventOk, Idle;
      SilentStep(u, es[0]);
      SilenceEnds(Step(u, es[0]), es[1..], pkt);
    }
  }

  // ----- the driver's replies

  /** The driver's reply function while the device data stays as it is. */
  function DriverReply(dev: Device, after: seq<byte>): seq<byte> -> seq<byte>
    requires |dev.status| == 16 && |after| >= 14
  {
    pkt => if ValidLength(pkt) then Response(dev, after, pkt) else []
  }

  lemma ResponseIsReply(fifo: seq<RxEntry>, room: nat, dev: Device, after: seq<byte>)
    requires DeviceOk(dev) && |after| == 14
    ensures EventOk(RxIrq(fifo, room, DriverReply(dev, after)))
  {
    forall pkt | ValidLength(pkt) ensures ValidLength(DriverReply(dev, after)(pkt)) {
      ReplyIsValid(dev, after, pkt);
    }
  }
}
