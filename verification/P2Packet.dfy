/** Sony 9-pin packets: checksums, and the reply to each command. A packet's first
    byte holds its data length in the low nibble; the last byte is the checksum. */
module P2Packet {
  type byte = b: int | 0 <= b < 256

  const MAXPKT := 18

  function PktSize(pkt: seq<byte>): int
    requires pkt != []
  {
    pkt[0] % 16 + 3
  }

  function Sum(data: seq<byte>): int {
    if data == [] then 0 else Sum(data[..|data| - 1]) + data[|data| - 1]
  }

  /** The checksum verifies against the length the packet itself announces. */
  predicate ChecksumOk(pkt: seq<byte>)
    requires pkt != [] && PktSize(pkt) <= |pkt|
  {
    Sum(pkt[..PktSize(pkt) - 1]) % 256 == pkt[PktSize(pkt) - 1]
  }

  lemma {:induction false} SumUpdate(data: seq<byte>, k: nat, v: byte)
    requires k < |data|
    ensures Sum(data[k := v]) == Sum(data) - data[k] + v
    decreases |data|
  {
    var n := |data| - 1;
    if k < n {
      SumUpdate(data[..n], k, v);
      assert data[k := v][..n] == data[..n][k := v];
    } else {
      assert data[k := v][..n] == data[..n];
    }
  }

  /** Changing any one byte of a valid packet is detected, as long as the low nibble of the
      first byte, the announced length, stays. */
  lemma OneByteChangeRejected(pkt: seq<byte>, k: nat, v: byte)
    requires pkt != [] && |pkt| == PktSize(pkt) && ChecksumOk(pkt)
    requires k < |pkt| && v != pkt[k] && (k == 0 ==> v % 16 == pkt[0] % 16)
    ensures !ChecksumOk(pkt[k := v])
  {
    var n := |pkt| - 1;
    var p := pkt[k := v];
    if k < n {
      SumUpdate(pkt[..n], k, v);
      assert p[..n] == pkt[..n][k := v];
      DifferModulo(Sum(pkt[..n]), v - pkt[k]);
    } else {
      assert p[..n] == pkt[..n];
    }
  }

  lemma DifferModulo(a: int, d: int)
    requires -256 < d < 256 && d != 0
    ensures (a + d) % 256 != a % 256
  {
  }

  /** The length nibble is not protected: this valid packet stays valid when it changes. */
  lemma LengthChangeCanPass()
    ensures var pkt: seq<byte> := [0x11, 0xFF, 0x0F, 0x1F];
      ChecksumOk(pkt) && |pkt| == PktSize(pkt) && ChecksumOk(pkt[0 := 0x10])
  {
    var pkt: seq<byte> := [0x11, 0xFF, 0x0F, 0x1F];
    assert pkt[..3] == [0x11, 0xFF, 0x0F] && pkt[0 := 0x10][..2] == [0x10, 0xFF];
    SumThree(0x11, 0xFF, 0x0F);
    SumTwo(0x10, 0xFF);
  }

  lemma SumTwo(x: byte, y: byte)
    ensures Sum([x, y]) == x + y
  {
    assert [x, y][..1] == [x] && [x][..0] == [];
    assert Sum([x]) == Sum([]) + x;
  }

  lemma SumThree(x: byte, y: byte, z: byte)
    ensures Sum([x, y, z]) == x + y + z
  {
    assert [x, y, z][..2] == [x, y];
    SumTwo(x, y);
  }

  function Zeros(n: nat): (z: seq<byte>)
    ensures |z| == n
  {
    seq(n, _ => 0)
  }

  lemma {:induction false} SumZeros(n: nat)
    ensures Sum(Zeros(n)) == 0
  {
    if n > 0 {
      SumZeros(n - 1);
      assert Zeros(n)[..n - 1] == Zeros(n - 1);
    }
  }

  /** A valid packet with header h, whose byte at the checksum place of the shorter length that v
      announces is v. */
  function Disguised(h: byte, v: byte): (pkt: seq<byte>)
    requires v % 16 < h % 16
    ensures |pkt| == h % 16 + 3 && pkt[0] == h
  {
    Zeros(h % 16 + 3)[0 := h][v % 16 + 2 := v][h % 16 + 2 := (h + v) % 256]
  }

  lemma SumOfTwo(n: nat, h: byte, k: nat, v: byte)
    requires 0 < k < n
    ensures Sum(Zeros(n)[0 := h][k := v]) == h + v && Sum(Zeros(n)[0 := h]) == h
  {
    SumZeros(n);
    SumUpdate(Zeros(n), 0, h);
    SumUpdate(Zeros(n)[0 := h], k, v);
  }

  lemma DisguisedIsValid(h: byte, v: byte)
    requires v % 16 < h % 16
    ensures ChecksumOk(Disguised(h, v))
  {
    var pkt, n, k := Disguised(h, v), h % 16 + 2, v % 16 + 2;
    SumOfTwo(n, h, k, v);
    assert pkt[..n] == Zeros(n)[0 := h][k := v];
    hide Sum;
  }

  lemma DisguisedPasses(h: byte, v: byte)
    requires v % 16 < h % 16
    ensures ChecksumOk(Disguised(h, v)[0 := v])
  {
    var pkt, k := Disguised(h, v), v % 16 + 2;
    SumOfTwo(k, v, 1, 0);
    assert pkt[0 := v][..k] == Zeros(k)[0 := v];
    hide Sum;
  }

  /** Exactly when the checksum protects the first byte: a change of it to v, announcing no more
      bytes than were sent, is detected in every valid packet if and only if it leaves the length
      alone. A longer announced length leaves the receiver waiting; see SlaveUart.LongerWaits. */
  lemma HeaderChangeIff(h: byte, v: byte)
    requires v != h && v % 16 <= h % 16
    ensures v % 16 == h % 16 <==>
      forall pkt: seq<byte> | pkt != [] && pkt[0] == h && |pkt| == PktSize(pkt) && ChecksumOk(pkt) :: !ChecksumOk(pkt[0 := v])
  {
    if v % 16 == h % 16 {
      forall pkt: seq<byte> | pkt != [] && pkt[0] == h && |pkt| == PktSize(pkt) && ChecksumOk(pkt)
        ensures !ChecksumOk(pkt[0 := v])
      {
        OneByteChangeRejected(pkt, 0, v);
      }
    } else {
      DisguisedIsValid(h, v);
      DisguisedPasses(h, v);
      hide ChecksumOk, Disguised;
      assert |Disguised(h, v)| == PktSize(Disguised(h, v));
    }
  }

  // ----- what the device knows

  /** A timecode in its packed 32-bit form, with its 32 user bits. */
  datatype Smpte = Smpte(timecode: int, userbits: int)

  datatype Device = Device(id: int, status: seq<byte>, tcgen: Smpte, tc: Smpte, inPoint: Smpte, outPoint: Smpte,
                           audioIn: Smpte, audioOut: Smpte, preroll: Smpte, speed: int)

  predicate SmpteOk(s: Smpte) {
    0 <= s.timecode < 0x1_0000_0000 && 0 <= s.userbits < 0x1_0000_0000
  }

  predicate DeviceOk(d: Device) {
    && 0 <= d.id < 0x1_0000 && |d.status| == 16
    && SmpteOk(d.tcgen) && SmpteOk(d.tc) && SmpteOk(d.inPoint) && SmpteOk(d.outPoint)
    && SmpteOk(d.audioIn) && SmpteOk(d.audioOut) && SmpteOk(d.preroll)
  }

  // ----- replies

  function LowByte(v: int): byte { v % 256 }

  /** Four bytes, least significant first. */
  function Bytes4(v: int): seq<byte> {
    [LowByte(v), LowByte(v / 0x100), LowByte(v / 0x1_0000), LowByte(v / 0x100_0000)]
  }

  function Value4(b: seq<byte>): int
    requires |b| == 4
  {
    (b[0] as int) + 0x100 * (b[1] as int) + 0x1_0000 * (b[2] as int) + 0x100_0000 * (b[3] as int)
  }

  lemma Bytes4RoundTrip(v: int)
    requires 0 <= v < 0x1_0000_0000
    ensures Value4(Bytes4(v)) == v
  {
    var a, b, c := v / 0x100, v / 0x1_0000, v / 0x100_0000;
    assert v == 0x100 * a + v % 256 && a == 0x100 * b + a % 256 && b == 0x100 * c + b % 256 && c % 256 == c;
  }

  /** Which stored value a timecode request asks for, and how it is reported. */
  datatype Part = Timecode | Userbits | Both
  datatype Query = NoQuery | Query(code: byte, source: Smpte, part: Part)

  /** The requests answered with timecode or user bits, by high nibble, second byte and type. */
  function QueryOf(d: Device, hi: int, cmd: byte, kind: byte): Query {
    if hi != 6 then NoQuery
    else if cmd == 0x0A then
      if kind == 0x01 then Query(0x08, d.tcgen, Timecode)
      else if kind == 0x10 then Query(0x09, d.tcgen, Userbits)
      else if kind == 0x11 then Query(0x08, d.tcgen, Both)
      else NoQuery
    else if cmd == 0x0C then
      if kind == 0x01 || kind == 0x03 then Query(0x04, d.tc, Timecode)
      else if kind == 0x02 then Query(0x06, d.tc, Timecode)
      else if kind == 0x04 then Query(0x00, d.tc, Timecode)
      else if kind == 0x10 || kind == 0x30 then Query(0x05, d.tc, Userbits)
      else if kind == 0x20 then Query(0x07, d.tc, Userbits)
      else if kind == 0x11 || kind == 0x33 then Query(0x04, d.tc, Both)
      else if kind == 0x22 then Query(0x06, d.tc, Both)
      else NoQuery
    else if cmd == 0x10 then Query(cmd, d.inPoint, Timecode)
    else if cmd == 0x11 then Query(cmd, d.outPoint, Timecode)
    else if cmd == 0x12 then Query(cmd, d.audioIn, Timecode)
    else if cmd == 0x13 then Query(cmd, d.audioOut, Timecode)
    else if cmd == 0x31 then Query(cmd, d.preroll, Timecode)
    else NoQuery
  }

  const ACK: seq<byte> := [0x10, 0x01]
  const NAK: seq<byte> := [0x11, 0x12, 0x04, 0x27]

  function QueryBody(q: Query): seq<byte>
    requires q.Query?
  {
    match q.part
    case Timecode => [0x74, q.code] + Bytes4(q.source.timecode)
    case Userbits => [0x74, q.code] + Bytes4(q.source.userbits)
    case Both => [0x78, q.code] + Bytes4(q.source.timecode) + Bytes4(q.source.userbits)
  }

  /** The reply to a valid packet, before its checksum. after is the memory that follows the
      device's 16 status bytes: a status request may run past them. */
  function Body(d: Device, after: seq<byte>, pkt: seq<byte>): seq<byte>
    requires |d.status| == 16 && |after| >= 14 && |pkt| >= 3
  {
    var hi, cmd, kind := pkt[0] / 16, pkt[1], pkt[2];
    var q := QueryOf(d, hi, cmd, kind);
    if q.Query? then QueryBody(q)
    else if hi == 0 && cmd == 0x11 then [0x12, 0x11, LowByte(d.id / 0x100), LowByte(d.id)]
    else if hi == 6 && cmd == 0x20 then
      [0x70 + kind % 16, 0x20] + (d.status + after)[kind / 16..kind / 16 + kind % 16]
    else if hi == 6 && cmd == 0x2E then [0x71, 0x2E, LowByte(d.speed)]
    else if hi == 6 && cmd == 0x36 then [0x71, 0x36, 0x00]
    else ACK
  }

  predicate IsEdit(pkt: seq<byte>)
    requires |pkt| >= 3
  {
    pkt[0] / 16 == 2 && (pkt[1] == 0x64 || pkt[1] == 0x65)
  }

  /** Requests the driver answers on its own; the status request is forwarded all the same. */
  predicate Private(pkt: seq<byte>)
    requires |pkt| >= 3
  {
    var hi, cmd := pkt[0] / 16, pkt[1];
    || (hi == 0 && cmd == 0x11)
    || (hi == 6 && (cmd == 0x0A || cmd == 0x0C || 0x10 <= cmd <= 0x13 || cmd == 0x2E || cmd == 0x31 || cmd == 0x36))
  }

  /** What is handed on to user programs: an edit command carries the current timecode instead
      of its own data. */
  function Forwarded(d: Device, pkt: seq<byte>): seq<seq<byte>>
    requires |pkt| >= 3
  {
    if IsEdit(pkt) then [[0x24, pkt[1]] + Bytes4(d.tc.timecode)]
    else if Private(pkt) then []
    else [pkt]
  }

  function Response(d: Device, after: seq<byte>, pkt: seq<byte>): seq<byte>
    requires |d.status| == 16 && |after| >= 14 && pkt != [] && |pkt| == PktSize(pkt)
  {
    if !ChecksumOk(pkt) then NAK
    else
      var body := Body(d, after, pkt);
      body + [LowByte(Sum(body))]
  }

  lemma BodyShape(d: Device, after: seq<byte>, pkt: seq<byte>)
    requires DeviceOk(d) && |after| >= 14 && |pkt| >= 3
    ensures var b := Body(d, after, pkt); 2 <= |b| == b[0] % 16 + 2 <= 17
  {
  }

  lemma NakIsValid()
    ensures |NAK| == PktSize(NAK) && ChecksumOk(NAK)
  {
    assert NAK[..3] == [0x11, 0x12, 0x04];
    SumThree(0x11, 0x12, 0x04);
  }

  /** Every reply is a well formed packet: its length nibble matches its length, and its
      checksum verifies. */
  lemma ReplyIsValid(d: Device, after: seq<byte>, pkt: seq<byte>)
    requires DeviceOk(d) && |after| >= 14 && pkt != [] && |pkt| == PktSize(pkt)
    ensures var r := Response(d, after, pkt);
      3 <= |r| <= MAXPKT && |r| == PktSize(r) && ChecksumOk(r)
  {
    if !ChecksumOk(pkt) {
      NakIsValid();
    } else {
      BodyShape(d, after, pkt);
      var b, r := Body(d, after, pkt), Response(d, after, pkt);
      assert r[..|b|] == b;
    }
  }

  /** A timecode request is answered with exactly the stored values, least significant byte first. */
  lemma QueryIsAnswered(d: Device, after: seq<byte>, pkt: seq<byte>)
    requires DeviceOk(d) && |after| >= 14 && pkt != [] && |pkt| == PktSize(pkt) && ChecksumOk(pkt)
    requires QueryOf(d, pkt[0] / 16, pkt[1], pkt[2]).Query?
    ensures var q, r := QueryOf(d, pkt[0] / 16, pkt[1], pkt[2]), Response(d, after, pkt);
      && |r| == (if q.part == Both then 11 else 7) && r[0] / 16 == 7 && r[1] == q.code
      && Value4(r[2..6]) == (if q.part == Userbits then q.source.userbits else q.source.timecode)
      && (q.part == Both ==> Value4(r[6..10]) == q.source.userbits)
  {
    var q, r := QueryOf(d, pkt[0] / 16, pkt[1], pkt[2]), Response(d, after, pkt);
    Bytes4RoundTrip(q.source.timecode);
    Bytes4RoundTrip(q.source.userbits);
    assert r[2..6] == Bytes4(if q.part == Userbits then q.source.userbits else q.source.timecode);
    if q.part == Both { assert r[6..10] == Bytes4(q.source.userbits); }
  }

  predicate IsStatusRequest(pkt: seq<byte>)
    requires |pkt| >= 3
  {
    pkt[0] / 16 == 6 && pkt[1] == 0x20
  }

  function StatusRange(pkt: seq<byte>): (nat, nat)
    requires |pkt| >= 3
  {
    (pkt[2] / 16, pkt[2] % 16)
  }

  /** Inside the 16 status bytes, the reply is the requested bytes whatever follows them. */
  lemma StatusInside(d: Device, after: seq<byte>, pkt: seq<byte>)
    requires DeviceOk(d) && |after| == 14 && |pkt| >= 3 && IsStatusRequest(pkt)
    requires StatusRange(pkt).0 + StatusRange(pkt).1 <= 16
    ensures var (s, n) := StatusRange(pkt); Body(d, after, pkt) == [0x70 + n, 0x20] + d.status[s..s + n]
  {
    var (s, n) := StatusRange(pkt);
    assert (d.status + after)[s..s + n] == d.status[s..s + n];
  }

  /** Beyond them, the last byte of the reply is whatever follows. */
  lemma StatusBeyond(d: Device, after: seq<byte>, pkt: seq<byte>)
    requires DeviceOk(d) && |after| == 14 && |pkt| >= 3 && IsStatusRequest(pkt)
    requires StatusRange(pkt).0 + StatusRange(pkt).1 > 16
    ensures var (s, n) := StatusRange(pkt);
      |Body(d, after, pkt)| == n + 2 && Body(d, after, pkt)[n + 1] == after[s + n - 17]
  {
  }

  /** A status reply does not depend on what follows the status bytes in memory exactly when
      the requested range ends within them. */
  lemma StatusReplyIff(d: Device, pkt: seq<byte>)
    requires DeviceOk(d) && |pkt| >= 3 && IsStatusRequest(pkt)
    ensures (forall a, b | |a| == |b| == 14 :: Body(d, a, pkt) == Body(d, b, pkt)) <==>
      StatusRange(pkt).0 + StatusRange(pkt).1 <= 16
  {
    hide Body;
    var (s, n) := StatusRange(pkt);
    if StatusRange(pkt).0 + StatusRange(pkt).1 <= 16 {
      forall a, b | |a| == |b| == 14 ensures Body(d, a, pkt) == Body(d, b, pkt) {
        StatusInside(d, a, pkt);
        StatusInside(d, b, pkt);
      }
    } else {
      var a, b: seq<byte> := seq(14, _ => 0), seq(14, _ => 1);
      StatusBeyond(d, a, pkt);
      StatusBeyond(d, b, pkt);
      assert Body(d, a, pkt)[n + 1] != Body(d, b, pkt)[n + 1];
    }
  }
}
