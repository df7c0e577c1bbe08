/** What each reply tells, from the request's bytes: which stored value it carries and where, which
    code names it, and that it tells nothing else. */
module P2Replies {
  import opened P2Packet

  /** A command as the slave's dispatcher writes it: the high nibble of the first byte, then the second. */
  function Command(pkt: seq<byte>): int
    requires |pkt| >= 3
  {
    pkt[0] as int / 16 * 0x1000 + pkt[1] as int
  }

  /** What the device stores. */
  datatype Field = DeviceId | GenTimecode | GenUserbits | CurTimecode | CurUserbits | InPoint | OutPoint
                 | AudioIn | AudioOut | Preroll | Speed

  function Stored(d: Device, f: Field): int {
    match f
    case DeviceId => d.id
    case GenTimecode => d.tcgen.timecode
    case GenUserbits => d.tcgen.userbits
    case CurTimecode => d.tc.timecode
    case CurUserbits => d.tc.userbits
    case InPoint => d.inPoint.timecode
    case OutPoint => d.outPoint.timecode
    case AudioIn => d.audioIn.timecode
    case AudioOut => d.audioOut.timecode
    case Preroll => d.preroll.timecode
    case Speed => d.speed
  }

  function Replaced(d: Device, f: Field, v: int): Device {
    match f
    case DeviceId => d.(id := v)
    case GenTimecode => d.(tcgen := d.tcgen.(timecode := v))
    case GenUserbits => d.(tcgen := d.tcgen.(userbits := v))
    case CurTimecode => d.(tc := d.tc.(timecode := v))
    case CurUserbits => d.(tc := d.tc.(userbits := v))
    case InPoint => d.(inPoint := d.inPoint.(timecode := v))
    case OutPoint => d.(outPoint := d.outPoint.(timecode := v))
    case AudioIn => d.(audioIn := d.audioIn.(timecode := v))
    case AudioOut => d.(audioOut := d.audioOut.(timecode := v))
    case Preroll => d.(preroll := d.preroll.(timecode := v))
    case Speed => d.(speed := v)
  }

  /** The values a field can take; the speed is sent as one byte. */
  predicate InRange(f: Field, v: int) {
    0 <= v < (if f == DeviceId then 0x1_0000 else if f == Speed then 0x100 else 0x1_0000_0000)
  }

  /** The requests that ask for a field. The type byte of a timecode sense names the timecode in
      its low nibble and the user bits in its high one, with the same number for both. */
  predicate Asks(pkt: seq<byte>, f: Field)
    requires |pkt| >= 3
  {
    var low, high := pkt[2] % 16, pkt[2] / 16;
    match f
    case DeviceId => Command(pkt) == 0x0011
    case GenTimecode => Command(pkt) == 0x600A && low == 1 && high <= 1
    case GenUserbits => Command(pkt) == 0x600A && high == 1 && low <= 1
    case CurTimecode => Command(pkt) == 0x600C && ((high == 0 && 1 <= low <= 4) || (high == low && 1 <= low <= 3))
    case CurUserbits => Command(pkt) == 0x600C && 1 <= high <= 3 && (low == 0 || low == high)
    case InPoint => Command(pkt) == 0x6010
    case OutPoint => Command(pkt) == 0x6011
    case AudioIn => Command(pkt) == 0x6012
    case AudioOut => Command(pkt) == 0x6013
    case Preroll => Command(pkt) == 0x6031
    case Speed => Command(pkt) == 0x602E
  }

  predicate Valid(pkt: seq<byte>) {
    |pkt| >= 3 && |pkt| == PktSize(pkt) && ChecksumOk(pkt)
  }

  /** The field's value as the reply to such a request gives it. User bits follow the timecode if
      both are sent. */
  function Decoded(r: seq<byte>, f: Field): int
    requires |r| >= 3 && |r| == PktSize(r)
  {
    if f == Speed then r[2]
    else if f == DeviceId && |r| == 5 then 0x100 * (r[2] as int) + r[3] as int
    else if |r| == 11 && (f == GenUserbits || f == CurUserbits) then Value4(r[6..10])
    else if |r| == 7 || |r| == 11 then Value4(r[2..6])
    else -1
  }

  predicate IsUserbits(f: Field) { f == GenUserbits || f == CurUserbits }

  /** A request for a timecode or user bits is a query for that field. */
  lemma AsksIsQuery(d: Device, pkt: seq<byte>, f: Field)
    requires |pkt| >= 3 && f != DeviceId && f != Speed
    ensures var q := QueryOf(d, pkt[0] / 16, pkt[1], pkt[2]);
      Asks(pkt, f) ==>
        && q.Query? && q.part != (if IsUserbits(f) then Timecode else Userbits)
        && Stored(d, f) == if IsUserbits(f) then q.source.userbits else q.source.timecode
  {
  }

  /** The device type and the speed. */
  lemma PlainReplies(d: Device, after: seq<byte>, pkt: seq<byte>)
    requires DeviceOk(d) && |after| >= 14 && Valid(pkt)
    ensures var r := Response(d, after, pkt);
      && (Asks(pkt, DeviceId) ==> |r| == 5 && 0x100 * (r[2] as int) + r[3] as int == d.id)
      && (Asks(pkt, Speed) && InRange(Speed, d.speed) ==> |r| == 4 && r[2] as int == d.speed)
  {
    hide ChecksumOk, Sum;
  }

  /** A request for a field is answered with that field's value. */
  lemma ReplyCarries(d: Device, after: seq<byte>, pkt: seq<byte>, f: Field)
    requires DeviceOk(d) && InRange(f, Stored(d, f)) && |after| >= 14 && Valid(pkt) && Asks(pkt, f)
    ensures var r := Response(d, after, pkt); 3 <= |r| == PktSize(r) && Decoded(r, f) == Stored(d, f)
  {
    hide ChecksumOk, Response, QueryOf, Asks, Value4;
    ReplyIsValid(d, after, pkt);
    if f == DeviceId || f == Speed {
      PlainReplies(d, after, pkt);
    } else {
      AsksIsQuery(d, pkt, f);
      QueryIsAnswered(d, after, pkt);
    }
  }

  lemma QueryIgnores(d: Device, pkt: seq<byte>, f: Field, v: int)
    requires |pkt| >= 3 && !Asks(pkt, f)
    ensures var q, q' := QueryOf(d, pkt[0] / 16, pkt[1], pkt[2]), QueryOf(Replaced(d, f, v), pkt[0] / 16, pkt[1], pkt[2]);
      q.Query? == q'.Query? && (q.Query? ==> QueryBody(q) == QueryBody(q'))
  {
    hide Bytes4;
  }

  lemma BodyIgnores(d: Device, after: seq<byte>, pkt: seq<byte>, f: Field, v: int)
    requires |d.status| == 16 && |after| >= 14 && |pkt| >= 3 && !Asks(pkt, f)
    ensures |Replaced(d, f, v).status| == 16
    ensures Body(Replaced(d, f, v), after, pkt) == Body(d, after, pkt)
  {
    hide QueryOf, QueryBody;
    QueryIgnores(d, pkt, f, v);
  }

  /** A request for no field is answered alike whatever the device stores in it. */
  lemma ReplyIgnores(d: Device, after: seq<byte>, pkt: seq<byte>, f: Field, v: int)
    requires DeviceOk(d) && DeviceOk(Replaced(d, f, v)) && |after| >= 14 && pkt != [] && |pkt| == PktSize(pkt)
    requires ChecksumOk(pkt) ==> !Asks(pkt, f)
    ensures Response(Replaced(d, f, v), after, pkt) == Response(d, after, pkt)
  {
    hide ChecksumOk, Sum, Body, Asks, Replaced;
    if ChecksumOk(pkt) { BodyIgnores(d, after, pkt, f, v); }
  }

  lemma ReplacedStores(d: Device, f: Field, v: int)
    requires DeviceOk(d) && InRange(f, v)
    ensures Stored(Replaced(d, f, v), f) == v && DeviceOk(Replaced(d, f, v))
  {
  }

  /** Every reply tells exactly what was asked for: replacing one stored value by another changes the
      reply if and only if the packet is valid and asks for it, and the reply then gives the new value. */
  lemma ReplyTellsIff(d: Device, after: seq<byte>, pkt: seq<byte>, f: Field, v: int)
    requires DeviceOk(d) && InRange(f, Stored(d, f)) && InRange(f, v) && v != Stored(d, f)
    requires |after| >= 14 && pkt != [] && |pkt| == PktSize(pkt)
    ensures DeviceOk(Replaced(d, f, v))
    ensures var r, r' := Response(d, after, pkt), Response(Replaced(d, f, v), after, pkt);
      && (r != r' <==> ChecksumOk(pkt) && Asks(pkt, f))
      && (r != r' ==> |r'| == |r| == PktSize(r') == PktSize(r) && Decoded(r, f) == Stored(d, f) && Decoded(r', f) == v)
  {
    ReplacedStores(d, f, v);
    hide Response, Asks, Decoded, ChecksumOk, DeviceOk;
    if ChecksumOk(pkt) && Asks(pkt, f) {
      ReplyCarries(d, after, pkt, f);
      ReplyCarries(Replaced(d, f, v), after, pkt, f);
      ReplyLength(d, Replaced(d, f, v), after, pkt);
    } else {
      ReplyIgnores(d, after, pkt, f, v);
    }
  }

  /** The length of a reply depends on the request alone. */
  lemma ReplyLength(d: Device, d': Device, after: seq<byte>, pkt: seq<byte>)
    requires DeviceOk(d) && DeviceOk(d') && |after| >= 14 && pkt != [] && |pkt| == PktSize(pkt)
    ensures |Response(d, after, pkt)| == |Response(d', after, pkt)|
  {
    hide ChecksumOk, Sum, LowByte;
  }

  // ----- the codes

  /** The code that names a timecode in a reply, by the number of its source: 4 for LTC or either,
      6 for VITC, 0 for the timer. User bits have the next code. */
  function SourceCode(source: int): int {
    if source == 2 then 6 else if source == 4 then 0 else 4
  }

  /** The code byte of the reply to a request for a field. */
  function ReplyCode(pkt: seq<byte>, f: Field): int
    requires |pkt| >= 3
  {
    var low, high := pkt[2] % 16, pkt[2] / 16;
    match f
    case GenTimecode => 8
    case GenUserbits => if low == 0 then 9 else 8
    case CurTimecode => SourceCode(low)
    case CurUserbits => if low == 0 then SourceCode(high) + 1 else SourceCode(high)
    case _ => pkt[1] as int
  }

  /** Every answer names what it carries, and is sent as a reply: with a 7, or a 1 for the type. */
  lemma ReplyIsNamed(d: Device, after: seq<byte>, pkt: seq<byte>, f: Field)
    requires DeviceOk(d) && |after| >= 14 && Valid(pkt) && Asks(pkt, f)
    ensures var r := Response(d, after, pkt);
      |r| >= 3 && r[1] as int == ReplyCode(pkt, f) && r[0] / 16 == if f == DeviceId then 1 else 7
  {
    hide ChecksumOk, Sum, Bytes4;
  }

  /** The other replies: the fixed refusal of a bad checksum, the timer mode, and the
      acknowledgement of everything that is neither a request for a field nor for the status. */
  lemma OtherReplies(d: Device, after: seq<byte>, pkt: seq<byte>)
    requires DeviceOk(d) && |after| >= 14 && pkt != [] && |pkt| == PktSize(pkt)
    ensures var r := Response(d, after, pkt);
      && (!ChecksumOk(pkt) ==> r == [0x11, 0x12, 0x04, 0x27])
      && (ChecksumOk(pkt) && Command(pkt) == 0x6036 ==> r == [0x71, 0x36, 0x00, 0xA7])
      && (ChecksumOk(pkt) && Command(pkt) != 0x6036 && Command(pkt) != 0x6020 && (forall f :: !Asks(pkt, f)) ==>
            r == [0x10, 0x01, 0x11])
  {
    SumTwo(0x10, 0x01);
    SumThree(0x71, 0x36, 0x00);
    hide ChecksumOk, Sum, Bytes4;
    if ChecksumOk(pkt) && Command(pkt) != 0x6036 && Command(pkt) != 0x6020 && (forall f: Field :: !Asks(pkt, f)) {
      NothingAsked(d, after, pkt);
    }
  }

  lemma NothingAsked(d: Device, after: seq<byte>, pkt: seq<byte>)
    requires |d.status| == 16 && |after| >= 14 && |pkt| >= 3
    requires Command(pkt) != 0x6036 && Command(pkt) != 0x6020 && forall f :: !Asks(pkt, f)
    ensures Body(d, after, pkt) == [0x10, 0x01]
  {
    hide Bytes4;
    assert !Asks(pkt, DeviceId) && !Asks(pkt, GenTimecode) && !Asks(pkt, GenUserbits) && !Asks(pkt, CurTimecode)
        && !Asks(pkt, CurUserbits) && !Asks(pkt, InPoint) && !Asks(pkt, OutPoint) && !Asks(pkt, AudioIn)
        && !Asks(pkt, AudioOut) && !Asks(pkt, Preroll) && !Asks(pkt, Speed);
  }

  /** A status request is answered with the bytes it names. */
  lemma StatusIsSent(d: Device, after: seq<byte>, pkt: seq<byte>)
    requires DeviceOk(d) && |after| == 14 && Valid(pkt) && Command(pkt) == 0x6020
    ensures var r, n := Response(d, after, pkt), pkt[2] % 16;
      && |r| == n + 3 && r[0] as int == 0x70 + n && r[1] == 0x20
      && forall j :: 2 <= j < n + 2 && pkt[2] as int / 16 + j < 18 ==> r[j] == d.status[pkt[2] as int / 16 + j - 2]
  {
    hide ChecksumOk, Sum, Bytes4;
  }

  // ----- what programs are told

  /** The commands the slave keeps to itself. */
  const OWN := {0x0011, 0x600A, 0x600C, 0x6010, 0x6011, 0x6012, 0x6013, 0x602E, 0x6031, 0x6036}
  const EDITS := {0x2064, 0x2065}

  /** Programs get every packet as it is, except the commands the slave answers on its own, and the
      two edit commands, which reach them with the current timecode. */
  lemma ForwardedIff(d: Device, pkt: seq<byte>)
    requires DeviceOk(d) && |pkt| >= 3
    ensures Forwarded(d, pkt) == [pkt] || Command(pkt) in OWN + EDITS
    ensures Forwarded(d, pkt) == [] <==> Command(pkt) in OWN
    ensures Command(pkt) in EDITS ==>
      |Forwarded(d, pkt)| == 1 &&
      var p := Forwarded(d, pkt)[0];
      && |p| == 6 && p[0] == 0x24 && p[1] == pkt[1] && Value4(p[2..6]) == d.tc.timecode
  {
    if Command(pkt) in EDITS {
      Bytes4RoundTrip(d.tc.timecode);
      assert Forwarded(d, pkt)[0][2..6] == Bytes4(d.tc.timecode);
    }
  }
}
