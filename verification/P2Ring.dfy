/** The packet buffer between the protocol driver and its readers: 128 slots that
    are overwritten without notice when readers fall behind. */
module P2Ring {
  import opened Errno
  import opened P2Packet

  const SLOTS := 128
  const SLOT_DATA := 32
  const SLOT_BYTES := 48

  /** A slot's data is 32 bytes long; a shorter packet leaves the old tail in place. */
  datatype Slot = Slot(tstamp: int, data: seq<byte>)

  // ----- the law of the buffer, on the history of pushed packets

  /** A packet and the time it was pushed. */
  datatype Packet = Packet(tstamp: int, data: seq<byte>)

  /** All packets pushed since the buffer was reset, and how many of them the reader has
      passed, counting those it lost. */
  datatype Log = Log(pushed: seq<Packet>, pos: nat)

  ghost predicate LogOk(l: Log) { l.pos <= |l.pushed| }

  /** The packets that look unread: what the two pointers say, modulo the slots. */
  function Pending(l: Log): nat
    requires l.pos <= |l.pushed|
  {
    (|l.pushed| - l.pos) % SLOTS
  }

  /** The first packet the next read returns, and how many it returns with room for max. */
  function ReadFrom(l: Log): nat
    requires l.pos <= |l.pushed|
  {
    |l.pushed| - Pending(l)
  }

  function ReadCount(l: Log, max: nat): nat
    requires l.pos <= |l.pushed|
  {
    if Pending(l) <= max then Pending(l) else max
  }

  function AfterRead(l: Log, max: nat): Log
    requires l.pos <= |l.pushed|
  {
    l.(pos := ReadFrom(l) + ReadCount(l, max))
  }

  datatype Op = Push(pkt: Packet) | Read(max: nat)

  function StepLog(l: Log, op: Op): (r: Log)
    requires l.pos <= |l.pushed|
    ensures r.pos <= |r.pushed|
  {
    match op
    case Push(pkt) => l.(pushed := l.pushed + [pkt])
    case Read(max) => AfterRead(l, max)
  }

  /** The numbers, in push order, of the packets an operation hands to the reader. */
  function Delivered(l: Log, op: Op): seq<int>
    requires l.pos <= |l.pushed|
  {
    if op.Read? then seq(ReadCount(l, op.max), i requires 0 <= i => ReadFrom(l) + i) else []
  }

  function RunLog(l: Log, ops: seq<Op>): (r: Log)
    requires l.pos <= |l.pushed|
    ensures r.pos <= |r.pushed|
    decreases |ops|
  {
    if ops == [] then l else RunLog(StepLog(l, ops[0]), ops[1..])
  }

  function RunDelivered(l: Log, ops: seq<Op>): seq<int>
    requires l.pos <= |l.pushed|
    decreases |ops|
  {
    if ops == [] then [] else Delivered(l, ops[0]) + RunDelivered(StepLog(l, ops[0]), ops[1..])
  }

  /** Entry i follows its predecessor, or start, after a whole number of turns of the buffer. */
  ghost predicate ContinuesAt(ns: seq<int>, start: int, i: nat)
    requires i < |ns|
  {
    var expected := if i == 0 then start else ns[i - 1] + 1;
    expected <= ns[i] && (ns[i] - expected) % SLOTS == 0
  }

  /** ns continues from packet number start, skipping only whole turns of the buffer. */
  ghost predicate Continues(ns: seq<int>, start: int) {
    forall i :: 0 <= i < |ns| ==> ContinuesAt(ns, start, i)
  }

  lemma ReadSkipsWholeTurns(l: Log)
    requires LogOk(l)
    ensures l.pos <= ReadFrom(l) && (ReadFrom(l) - l.pos) % SLOTS == 0
    ensures ReadFrom(l) == l.pos <==> |l.pushed| - l.pos < SLOTS
  {
  }

  lemma DeliveredContinues(l: Log, op: Op)
    requires LogOk(l)
    ensures Continues(Delivered(l, op), l.pos)
    ensures Delivered(l, op) != [] ==> StepLog(l, op).pos == Delivered(l, op)[|Delivered(l, op)| - 1] + 1
    ensures Delivered(l, op) == [] ==>
      l.pos <= StepLog(l, op).pos && (StepLog(l, op).pos - l.pos) % SLOTS == 0
  {
    ReadSkipsWholeTurns(l);
  }

  lemma ContinuesFromEarlier(ns: seq<int>, start: int, earlier: int)
    requires Continues(ns, start) && earlier <= start && (start - earlier) % SLOTS == 0
    ensures Continues(ns, earlier)
  {
    forall i | 0 <= i < |ns| ensures ContinuesAt(ns, earlier, i) {
      assert ContinuesAt(ns, start, i);
    }
  }

  lemma ContinuesJoin(a: seq<int>, b: seq<int>, start: int)
    requires a != [] && Continues(a, start) && Continues(b, a[|a| - 1] + 1)
    ensures Continues(a + b, start)
  {
    forall i | 0 <= i < |a + b| ensures ContinuesAt(a + b, start, i) {
      if i < |a| {
        assert ContinuesAt(a, start, i);
      } else {
        assert ContinuesAt(b, a[|a| - 1] + 1, i - |a|);
      }
    }
  }

  /** Over any sequence of pushes and reads, the packets delivered come in push order, none
      twice, and each overrun loses an exact multiple of the number of slots. */
  lemma {:induction false} ReadsInOrder(l: Log, ops: seq<Op>)
    requires LogOk(l)
    ensures Continues(RunDelivered(l, ops), l.pos)
    decreases |ops|
  {
    if ops != [] {
      var r := StepLog(l, ops[0]);
      DeliveredContinues(l, ops[0]);
      ReadsInOrder(r, ops[1..]);
      var d, rest := Delivered(l, ops[0]), RunDelivered(r, ops[1..]);
      if d == [] {
        ContinuesFromEarlier(rest, r.pos, l.pos);
        assert d + rest == rest;
      } else {
        ContinuesJoin(d, rest, l.pos);
      }
    }
  }

  /** The packets pushed by a run. */
  function Pushes(ops: seq<Op>): seq<Packet> {
    if ops == [] then [] else (if ops[0].Push? then [ops[0].pkt] else []) + Pushes(ops[1..])
  }

  /** Every pushed packet is there to be read, in the order of the pushes, and reads take nothing
      away that comes later. */
  lemma {:induction false} RunPushes(l: Log, ops: seq<Op>)
    requires LogOk(l)
    ensures RunLog(l, ops).pushed == l.pushed + Pushes(ops)
    decreases |ops|
  {
    if ops != [] { RunPushes(StepLog(l, ops[0]), ops[1..]); }
  }

  /** A read returns less than it has room for only when it empties the ring. So 127 slots of
      room always empty it, and a read of nothing says that nothing is outstanding. */
  lemma ReadDrains(l: Log, max: nat)
    requires LogOk(l)
    ensures var d, r := Delivered(l, Read(max)), StepLog(l, Read(max));
      && |d| <= max && (|d| < max ==> r.pos == |l.pushed|)
      && (127 <= max ==> r.pos == |l.pushed|)
      && (0 < max ==> (d == [] <==> (|l.pushed| - l.pos) % 128 == 0))
      && r.pushed == l.pushed
  {
  }

  /** Packets start..end. */
  function Span(start: nat, end: nat): seq<int>
    requires start <= end
  {
    seq(end - start, i requires 0 <= i => start + i)
  }

  /** At every read at most 127 packets are outstanding. */
  predicate KeepsUp(l: Log, ops: seq<Op>)
    requires l.pos <= |l.pushed|
    decreases |ops|
  {
    ops == [] || ((ops[0].Read? ==> |l.pushed| - l.pos < SLOTS) && KeepsUp(StepLog(l, ops[0]), ops[1..]))
  }

  /** The buffer is a lossless FIFO exactly when the reader keeps up: then, and only then, the
      packets delivered are all the packets from the first to the reader's position. */
  lemma {:induction false} LosslessIff(l: Log, ops: seq<Op>)
    requires LogOk(l)
    ensures l.pos <= RunLog(l, ops).pos
    ensures |RunDelivered(l, ops)| <= RunLog(l, ops).pos - l.pos
    ensures |RunDelivered(l, ops)| == RunLog(l, ops).pos - l.pos <==> KeepsUp(l, ops)
    ensures KeepsUp(l, ops) ==> RunDelivered(l, ops) == Span(l.pos, RunLog(l, ops).pos)
    decreases |ops|
  {
    if ops != [] {
      LosslessIff(StepLog(l, ops[0]), ops[1..]);
      ReadSkipsWholeTurns(l);
    }
  }

  // ----- the buffer itself

  class PacketRing {
    const buf: array<Slot>
    var read: int
    var write: int
    ghost var log: Log

    ghost predicate Valid()
      reads this, buf
    {
      && buf.Length == SLOTS && LogOk(log)
      && write == |log.pushed| % SLOTS && read == log.pos % SLOTS
      && (forall i :: 0 <= i < SLOTS ==> |buf[i].data| == SLOT_DATA)
      && (forall i :: 0 <= i < |log.pushed| ==> |log.pushed[i].data| <= SLOT_DATA)
      && (forall i :: 0 <= i < |log.pushed| && |log.pushed| - SLOTS <= i ==>
            Carries(buf[i % SLOTS], log.pushed[i]))
    }

    constructor ()
      ensures Valid() && fresh(buf) && log == Log([], 0)
    {
      buf := new Slot[SLOTS](_ => Slot(0, seq(SLOT_DATA, _ => 0)));
      read, write := 0, 0;
      log := Log([], 0);
    }

    /** Opening the device empties the buffer. */
    method Reset()
      requires Valid()
      modifies this
      ensures Valid() && log == Log([], 0)
    {
      read := 0;
      write := 0;
      log := Log([], 0);
    }

    method PushPkt(pkt: seq<byte>, now: int)
      requires Valid() && |pkt| <= SLOT_DATA
      modifies this, buf
      ensures Valid() && log == StepLog(old(log), Push(Packet(now, pkt)))
    {
      var wp := write;
      ghost var n := |log.pushed|;
      forall i | n - SLOTS < i < n ensures i % SLOTS != wp { SameSlotIff(i, n - i); }
      buf[wp] := Slot(now, pkt + buf[wp].data[|pkt|..]);
      NextSlot(n);
      wp := wp + 1;
      if wp >= SLOTS { wp := 0; }
      write := wp;
      log := log.(pushed := log.pushed + [Packet(now, pkt)]);
    }

    /** A non-blocking read into room for count bytes. Only the bytes of each packet itself
        are meaningful; the rest of a slot is left over from earlier packets. */
    method ReadPkts(count: nat) returns (ret: int, got: seq<Slot>)
      requires Valid()
      modifies this
      ensures Valid() && log == StepLog(old(log), Read(count / SLOT_BYTES))
      ensures ret == if Pending(old(log)) == 0 then -11 else |got| * 48
      ensures |got| == ReadCount(old(log), count / SLOT_BYTES)
      ensures forall i :: 0 <= i < |got| ==> Carries(got[i], old(log).pushed[ReadFrom(old(log)) + i])
    {
      got := [];
      ghost var l := log;
      ReadSkipsWholeTurns(l);
      PointersMeetIff(l, 0);
      if read == write {
        log := AfterRead(log, count / SLOT_BYTES);
        return -EAGAIN, [];
      }
      var rp, total := read, 0;
      while rp != write
        invariant unchanged(this)
        invariant |got| <= Pending(l) && rp == (ReadFrom(l) + |got|) % SLOTS
        invariant total == |got| * SLOT_BYTES && total <= count
        invariant forall i :: 0 <= i < |got| ==> Carries(got[i], l.pushed[ReadFrom(l) + i])
        decreases Pending(l) - |got|
      {
        PointersMeetIff(l, |got|);
        if total + SLOT_BYTES > count { break; }
        NextSlot(ReadFrom(l) + |got|);
        got := got + [buf[rp]];
        total := total + SLOT_BYTES;
        rp := rp + 1;
        if rp >= SLOTS { rp := 0; }
      }
      PointersMeetIff(l, |got|);
      read := rp;
      log := AfterRead(log, count / SLOT_BYTES);
      ret := total;
    }
  }

  /** The slot holds the packet in its first bytes. */
  predicate Carries(s: Slot, pkt: Packet) {
    |pkt.data| <= |s.data| && s.data[..|pkt.data|] == pkt.data && s.tstamp == pkt.tstamp
  }

  lemma NextSlot(x: nat)
    ensures (x + 1) % SLOTS == if x % SLOTS + 1 >= SLOTS then 0 else x % SLOTS + 1
  {
  }

  lemma SameSlotIff(x: int, d: int)
    requires 0 <= d < SLOTS
    ensures x % SLOTS == (x + d) % SLOTS <==> d == 0
  {
  }

  lemma TurnsApart(x: int, q: int)
    ensures (x + q * SLOTS) % SLOTS == x % SLOTS
  {
  }

  lemma PointersMeetIff(l: Log, n: nat)
    requires LogOk(l) && n <= Pending(l)
    ensures (ReadFrom(l) + n) % SLOTS == |l.pushed| % SLOTS <==> n == Pending(l)
    ensures ReadFrom(l) % SLOTS == l.pos % SLOTS
  {
    SameSlotIff(ReadFrom(l) + n, Pending(l) - n);
    TurnsApart(l.pos, (|l.pushed| - l.pos) / SLOTS);
  }
}
