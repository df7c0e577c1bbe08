/** The snapshot loops of the timecode boards: a board goes on counting while it is read, and a
    validation byte, read before and after, tells whether it did. */
module LtcSnapshot {
  import opened Errno

  const READ_TRIES := 15

  /** What one update of a generator or a reader puts into its registers. */
  datatype Sample = Sample(tcode: nat, ubits: nat, flags: nat)

  /** A unit of the board. at gives the number of updates made by the n-th access to the board;
      update k sets the validation byte to first + k. */
  datatype Unit = Unit(first: nat, samples: nat -> Sample, at: nat -> nat)

  /** The board as the driver sees it. An access can fail, and then reads as 0. */
  datatype Board = Board(gen: Unit, ltc: Unit, status: nat -> nat, rate: nat -> nat, answers: nat -> bool)

  function Validation(u: Unit, n: nat): nat { (u.first + u.at(n)) % 256 }

  function Held(u: Unit, n: nat): Sample { u.samples(u.at(n)) }

  /** The value of a register at the n-th access. */
  function Register(b: Board, n: nat, off: nat): nat {
    if !b.answers(n) then 0
    else if off == 0x0C then b.status(n)
    else if off == 0x0D then b.rate(n)
    else if off == 0x10 then Held(b.ltc, n).tcode
    else if off == 0x14 then Held(b.ltc, n).ubits
    else if off == 0x18 then Held(b.ltc, n).flags
    else if off == 0x1A then Validation(b.ltc, n)
    else if off == 0x40 then Held(b.gen, n).tcode
    else if off == 0x44 then Held(b.gen, n).ubits
    else if off == 0x4B then Validation(b.gen, n)
    else 0
  }

  function Bit(v: nat, mask: nat): bool
    requires mask > 0
  {
    v / mask % 2 == 1
  }

  function Fps(rate: nat): nat {
    if Bit(rate, 0x10) then 25 else if Bit(rate, 0x40) then 24 else 30
  }

  /** The frame rate is 25, 24 or 30, by bits 4 and 6 of the rate register. */
  lemma FpsIff(rate: nat)
    ensures Fps(rate) == 25 <==> 16 <= rate % 32
    ensures Fps(rate) == 24 <==> rate % 32 < 16 && 64 <= rate % 128
    ensures Fps(rate) == 30 <==> rate % 32 < 16 && rate % 128 < 64
  {
    BitIff(rate, 0x10);
    BitIff(rate, 0x40);
  }

  lemma BitIff(v: nat, mask: nat)
    requires mask == 0x10 || mask == 0x40
    ensures Bit(v, mask) <==> mask <= v % (2 * mask)
  {
  }

  datatype Reading = Invalid | Smpte(timecode: nat, userbits: nat, fps: nat)

  // ----- attempts

  datatype Side = Gen | Ltc

  function UnitOf(b: Board, side: Side): Unit { if side == Gen then b.gen else b.ltc }

  /** An attempt on the generator makes 4 accesses, one on the reader 5, the first and the last
      of the validation byte, the second and the third of timecode and user bits. */
  function Length(side: Side): nat { if side == Gen then 4 else 5 }

  function ValidationReg(side: Side): nat { if side == Gen then 0x4B else 0x1A }

  function TimecodeReg(side: Side): nat { if side == Gen then 0x40 else 0x10 }

  /** The first access of attempt t of a loop that began at access n. */
  function Begin(side: Side, n: nat, t: nat): nat { if side == Gen then n + 4 * t else n + 5 * t }

  lemma BeginNext(side: Side, n: nat, t: nat)
    ensures Begin(side, n, 0) == n && Begin(side, n, t + 1) == Begin(side, n, t) + Length(side)
  {
  }

  predicate Accepted(b: Board, side: Side, m: nat) {
    Register(b, m, ValidationReg(side)) == Register(b, m + Length(side) - 1, ValidationReg(side))
  }

  /** The number of the first accepted attempt from attempt t on. */
  function FirstAccepted(b: Board, side: Side, n: nat, t: nat): (r: nat)
    requires t <= READ_TRIES
    ensures t <= r <= READ_TRIES && (r < READ_TRIES ==> Accepted(b, side, Begin(side, n, r)))
    decreases READ_TRIES - t
  {
    if t == READ_TRIES || Accepted(b, side, Begin(side, n, t)) then t else FirstAccepted(b, side, n, t + 1)
  }

  lemma {:induction false} FirstIsLeast(b: Board, side: Side, n: nat, t: nat, k: nat)
    requires t <= k < READ_TRIES && Accepted(b, side, Begin(side, n, k))
    ensures FirstAccepted(b, side, n, t) <= k
    decreases k - t
  {
    if t < k { FirstIsLeast(b, side, n, t + 1, k); }
  }

  lemma NextAttempt(b: Board, side: Side, n: nat, t: nat, m: nat)
    requires t < READ_TRIES && m == Begin(side, n, t)
    ensures FirstAccepted(b, side, n, t) == if Accepted(b, side, m) then t else FirstAccepted(b, side, n, t + 1)
  {
  }

  /** What a loop that began at access n comes to. */
  predicate LoopResult(b: Board, side: Side, n: nat, ret: int, tc: Reading) {
    var t := FirstAccepted(b, side, n, 0);
    var m := Begin(side, n, t);
    if t == READ_TRIES then ret == -EAGAIN && tc == Invalid
    else ret == 0 && tc == Smpte(Register(b, m + 1, TimecodeReg(side)), Register(b, m + 2, TimecodeReg(side) + 4),
                                 Fps(Register(b, m + Length(side), 0x0D)))
  }

  /** The number of accesses a loop makes, the frame rate included. */
  function Accesses(b: Board, side: Side, n: nat): nat {
    var t := FirstAccepted(b, side, n, 0);
    Length(side) * t + (if t == READ_TRIES then 0 else Length(side) + 1)
  }

  // ----- what an accepted attempt read

  ghost predicate Counting(u: Unit) {
    forall i, j :: i <= j ==> u.at(i) <= u.at(j)
  }

  /** The accesses of an attempt are answered. */
  ghost predicate Answered(b: Board, side: Side, m: nat) {
    forall k :: m <= k < m + Length(side) ==> b.answers(k)
  }

  function Updates(b: Board, side: Side, m: nat): int {
    UnitOf(b, side).at(m + Length(side) - 1) - UnitOf(b, side).at(m)
  }

  /** If its reads of the byte are answered an attempt is accepted exactly when the updates made during it
      are a whole number of cycles of the byte. */
  lemma AcceptedIffCycles(b: Board, side: Side, m: nat)
    requires b.answers(m) && b.answers(m + Length(side) - 1)
    ensures Accepted(b, side, m) <==> Updates(b, side, m) % 256 == 0
  {
  }

  /** During an attempt the board answers, and makes fewer updates than the byte has values. */
  ghost predicate Fair(b: Board, side: Side, m: nat) {
    Counting(UnitOf(b, side)) && Answered(b, side, m) && Updates(b, side, m) < 256
  }

  /** A fair attempt is accepted exactly when no update was made during it; then everything it
      read belongs to one update. */
  lemma AcceptedIsOneSample(b: Board, side: Side, m: nat)
    requires Fair(b, side, m)
    ensures Accepted(b, side, m) <==> Updates(b, side, m) == 0
    ensures Accepted(b, side, m) ==>
      forall k :: m <= k < m + Length(side) ==> UnitOf(b, side).at(k) == UnitOf(b, side).at(m)
  {
    assert b.answers(m) && b.answers(m + Length(side) - 1);
    AcceptedIffCycles(b, side, m);
    var u := UnitOf(b, side);
    assert u.at(m) <= u.at(m + Length(side) - 1);
    forall k | Updates(b, side, m) == 0 && m <= k < m + Length(side) ensures u.at(k) == u.at(m) {
      assert u.at(m) <= u.at(k) <= u.at(m + Length(side) - 1);
    }
  }

  // ----- exactly when an attempt can be trusted

  /** The same schedule of updates and failures, with other contents. */
  function Refilled(b: Board, side: Side, first: nat, samples: nat -> Sample): Board {
    var u := Unit(first, samples, UnitOf(b, side).at);
    if side == Gen then b.(gen := u) else b.(ltc := u)
  }

  /** Timecode and user bits of the attempt at m are those of one update. */
  ghost predicate OfOneUpdate(b: Board, side: Side, m: nat) {
    exists v: nat :: ReadsAre(b, side, m, UnitOf(b, side).samples(v))
  }

  predicate ReadsAre(b: Board, side: Side, m: nat, s: Sample) {
    Register(b, m + 1, TimecodeReg(side)) == s.tcode && Register(b, m + 2, TimecodeReg(side) + 4) == s.ubits
  }

  /** The validation byte is read and shows that updates were made, or timecode and user bits are
      read between the same two updates. */
  predicate Trusted(b: Board, side: Side, m: nat) {
    var z := m + Length(side) - 1;
    || (b.answers(m) && b.answers(z) && Updates(b, side, m) % 256 != 0)
    || (b.answers(m + 1) && b.answers(m + 2) && UnitOf(b, side).at(m + 1) == UnitOf(b, side).at(m + 2))
  }

  lemma TrustedReads(b: Board, side: Side, m: nat)
    requires Trusted(b, side, m) && Accepted(b, side, m)
    ensures ReadsAre(b, side, m, Held(UnitOf(b, side), m + 1))
  {
  }

  lemma TrustedIsOfOneUpdate(b: Board, side: Side, m: nat)
    requires Trusted(b, side, m) && Accepted(b, side, m)
    ensures OfOneUpdate(b, side, m)
  {
    TrustedReads(b, side, m);
    assert UnitOf(b, side).samples(UnitOf(b, side).at(m + 1)) == Held(UnitOf(b, side), m + 1);
  }

  /** A first validation byte with which a failed access goes unnoticed. */
  function Unnoticed(b: Board, side: Side, m: nat): nat {
    var z := m + Length(side) - 1;
    var n := if b.answers(m) then m else z;
    256 * UnitOf(b, side).at(n) - UnitOf(b, side).at(n)
  }

  lemma UntrustedIsAccepted(b: Board, side: Side, m: nat, samples: nat -> Sample)
    requires !Trusted(b, side, m)
    ensures Accepted(Refilled(b, side, Unnoticed(b, side, m), samples), side, m)
  {
    var c := Refilled(b, side, Unnoticed(b, side, m), samples);
    var z := m + Length(side) - 1;
    assert UnitOf(c, side).at(m) == UnitOf(b, side).at(m) && UnitOf(c, side).at(z) == UnitOf(b, side).at(z);
    if b.answers(m) && b.answers(z) {
      AcceptedIffCycles(c, side, m);
    } else {
      var n := if b.answers(m) then m else z;
      assert Validation(UnitOf(c, side), n) == 256 * UnitOf(b, side).at(n) % 256 == 0;
    }
  }

  function Numbered(v: nat): Sample { Sample(v + 1, v + 1, 0) }

  lemma UntrustedMixes(b: Board, side: Side, m: nat)
    requires !(b.answers(m + 1) && b.answers(m + 2) && UnitOf(b, side).at(m + 1) == UnitOf(b, side).at(m + 2))
    requires forall v :: UnitOf(b, side).samples(v) == Numbered(v)
    ensures !OfOneUpdate(b, side, m)
  {
  }

  /** Exactly when the two equal validation bytes are worth anything: whatever the board holds,
      an accepted attempt has timecode and user bits of one update. */
  lemma TrustedIff(b: Board, side: Side, m: nat)
    ensures Trusted(b, side, m) <==> forall first: nat, samples: nat -> Sample ::
      Accepted(Refilled(b, side, first, samples), side, m) ==> OfOneUpdate(Refilled(b, side, first, samples), side, m)
  {
    hide Accepted, OfOneUpdate;
    if Trusted(b, side, m) {
      forall first: nat, samples: nat -> Sample | Accepted(Refilled(b, side, first, samples), side, m)
        ensures OfOneUpdate(Refilled(b, side, first, samples), side, m)
      {
        TrustedIsOfOneUpdate(Refilled(b, side, first, samples), side, m);
      }
    } else {
      var c := Refilled(b, side, Unnoticed(b, side, m), Numbered);
      UntrustedIsAccepted(b, side, m, Numbered);
      UntrustedMixes(c, side, m);
    }
  }

  /** A fair attempt can be trusted. */
  lemma FairIsTrusted(b: Board, side: Side, m: nat)
    requires Fair(b, side, m)
    ensures Trusted(b, side, m)
  {
    var u := UnitOf(b, side);
    assert u.at(m) <= u.at(m + 1) <= u.at(m + 2) <= u.at(m + Length(side) - 1);
    assert b.answers(m) && b.answers(m + 1) && b.answers(m + 2) && b.answers(m + Length(side) - 1);
  }

  // ----- the loops

  /** The attempts the loop makes are fair. */
  ghost predicate FairLoop(b: Board, side: Side, n: nat) {
    forall t: nat :: t < READ_TRIES && t <= FirstAccepted(b, side, n, 0) ==> Fair(b, side, Begin(side, n, t))
  }

  /** If its attempts are fair a loop succeeds exactly when no update came during one of them, and
      then timecode and user bits are those of one update; it fails exactly with -EAGAIN. */
  lemma LoopIsSnapshot(b: Board, side: Side, n: nat, ret: int, tc: Reading)
    requires FairLoop(b, side, n) && LoopResult(b, side, n, ret, tc)
    ensures ret == 0 || (ret == -EAGAIN && tc == Invalid)
    ensures ret == 0 <==> exists t: nat :: t < 15 && Updates(b, side, Begin(side, n, t)) == 0
    ensures ret == 0 ==> tc.Smpte? && exists v: nat ::
      var u := UnitOf(b, side);
      && u.at(n) <= v <= u.at(n + Accesses(b, side, n))
      && tc.timecode == u.samples(v).tcode && tc.userbits == u.samples(v).ubits
  {
    hide Register, Accepted, FirstAccepted, Fps;
    var r := FirstAccepted(b, side, n, 0);
    forall t: nat | t < READ_TRIES && t <= r
      ensures Accepted(b, side, Begin(side, n, t)) <==> Updates(b, side, Begin(side, n, t)) == 0
    {
      AcceptedIsOneSample(b, side, Begin(side, n, t));
    }
    if r < READ_TRIES {
      var m, u := Begin(side, n, r), UnitOf(b, side);
      assert Updates(b, side, m) == 0;
      LoopIsTrusted(b, side, n, ret, tc);
      assert u.at(n) <= u.at(m + 1) <= u.at(n + Accesses(b, side, n));
    } else {
      forall t: nat | t < READ_TRIES ensures Updates(b, side, Begin(side, n, t)) != 0 {
        if Updates(b, side, Begin(side, n, t)) == 0 { FirstIsLeast(b, side, n, 0, t); }
      }
    }
  }

  /** Whatever else happens, a loop whose accepted attempt can be trusted returns timecode and
      user bits of one update. */
  lemma LoopIsTrusted(b: Board, side: Side, n: nat, ret: int, tc: Reading)
    requires LoopResult(b, side, n, ret, tc) && ret == 0
    requires var m := Begin(side, n, FirstAccepted(b, side, n, 0)); Fair(b, side, m) || Trusted(b, side, m)
    ensures var s := Held(UnitOf(b, side), Begin(side, n, FirstAccepted(b, side, n, 0)) + 1);
      tc.Smpte? && tc.timecode == s.tcode && tc.userbits == s.ubits
  {
    var m := Begin(side, n, FirstAccepted(b, side, n, 0));
    hide LoopResult, Accepted, FirstAccepted, ReadsAre, Fair, Trusted, Held, Begin, UnitOf;
    LoopReads(b, side, n, ret, tc);
    if Fair(b, side, m) { FairIsTrusted(b, side, m); }
    TrustedReads(b, side, m);
    ReadsOnce(b, side, m, Sample(tc.timecode, tc.userbits, 0), Held(UnitOf(b, side), m + 1));
  }

  lemma LoopReads(b: Board, side: Side, n: nat, ret: int, tc: Reading)
    requires LoopResult(b, side, n, ret, tc) && ret == 0
    ensures FirstAccepted(b, side, n, 0) < READ_TRIES
    ensures tc.Smpte? && ReadsAre(b, side, Begin(side, n, FirstAccepted(b, side, n, 0)), Sample(tc.timecode, tc.userbits, 0))
  {
    hide Register, Accepted, FirstAccepted, Fps, Begin;
  }

  lemma ReadsOnce(b: Board, side: Side, m: nat, s: Sample, s': Sample)
    requires ReadsAre(b, side, m, s) && ReadsAre(b, side, m, s')
    ensures s.tcode == s'.tcode && s.ubits == s'.ubits
  {
    hide Register;
  }

  /** A board that never answers passes for one that stands still: the read succeeds with
      a timecode that is no sample's. */
  lemma SilentBoardPasses(n: nat)
    ensures var u := Unit(0, _ => Sample(1, 1, 1), _ => 0);
      var b := Board(u, u, _ => 0x10, _ => 0, _ => false);
      LoopResult(b, Gen, n, 0, Smpte(0, 0, 30)) && forall v: nat :: u.samples(v).tcode != 0
  {
  }

  lemma LoopResultIs(b: Board, side: Side, n: nat, t: nat, ret: int, tc: Reading)
    requires t == FirstAccepted(b, side, n, 0)
    requires var m := Begin(side, n, t);
      if t == READ_TRIES then ret == -EAGAIN && tc == Invalid
      else ret == 0 && tc == Smpte(Register(b, m + 1, TimecodeReg(side)), Register(b, m + 2, TimecodeReg(side) + 4),
                                   Fps(Register(b, m + Length(side), 0x0D)))
    ensures LoopResult(b, side, n, ret, tc)
    ensures n + Accesses(b, side, n) == Begin(side, n, t) + (if t == READ_TRIES then 0 else Length(side) + 1)
  {
    hide Register, FirstAccepted, Fps;
  }

  /** After a whole cycle of updates within an attempt, timecode and user bits of different
      updates pass for one. */
  lemma CycleTears(n: nat)
    ensures var u := Unit(0, (v: nat) => Sample(v, v, 0), k => if k < n + 2 then 0 else 256);
      var b := Board(u, u, _ => 0x10, _ => 0, _ => true);
      LoopResult(b, Gen, n, 0, Smpte(0, 256, 30)) && forall v: nat :: u.samples(v).tcode == u.samples(v).ubits
  {
  }

  // ----- the driver

  /** The driver's handle on a board; now counts the accesses made. */
  class Card {
    const board: Board
    var now: nat

    constructor (board: Board)
      ensures this.board == board && now == 0
    {
      this.board, now := board, 0;
    }

    method ReadReg(off: nat) returns (v: nat)
      modifies this`now
      ensures now == old(now) + 1 && v == Register(board, old(now), off)
    {
      v := Register(board, now, off);
      now := now + 1;
    }

    /** One attempt on the generator. */
    method TryGen() returns (ok: bool, tcode: nat, ubits: nat)
      modifies this`now
      ensures now == old(now) + 4 && ok == Accepted(board, Gen, old(now))
      ensures tcode == Register(board, old(now) + 1, 0x40) && ubits == Register(board, old(now) + 2, 0x44)
    {
      var d1 := ReadReg(0x4B);
      tcode := ReadReg(0x40);
      ubits := ReadReg(0x44);
      var d2 := ReadReg(0x4B);
      ok := d1 == d2;
    }

    /** One attempt on the reader. */
    method TryLtc() returns (ok: bool, tcode: nat, ubits: nat)
      modifies this`now
      ensures now == old(now) + 5 && ok == Accepted(board, Ltc, old(now))
      ensures tcode == Register(board, old(now) + 1, 0x10) && ubits == Register(board, old(now) + 2, 0x14)
    {
      var d1 := ReadReg(0x1A);
      tcode := ReadReg(0x10);
      ubits := ReadReg(0x14);
      var flags := ReadReg(0x18);
      var d2 := ReadReg(0x1A);
      ok := d1 == d2;
    }

    /** Reads the generator. */
    method ReadTcGen() returns (ret: int, tc: Reading)
      modifies this`now
      ensures LoopResult(board, Gen, old(now), ret, tc) && now == old(now) + Accesses(board, Gen, old(now))
    {
      tc := Invalid;
      var ok, tcode, ubits, t := false, 0, 0, 0;
      ghost var n, f := now, FirstAccepted(board, Gen, now, 0);
      BeginNext(Gen, n, 0);
      hide Register, FirstAccepted, Fps, Bit, Accepted, LoopResult, Accesses, Begin;
      while t < READ_TRIES
        invariant t <= READ_TRIES && f == FirstAccepted(board, Gen, n, t) && now == Begin(Gen, n, t)
      {
        NextAttempt(board, Gen, n, t, now);
        ok, tcode, ubits := TryGen();
        if ok { break; }
        BeginNext(Gen, n, t);
        t := t + 1;
      }
      if t == READ_TRIES {
        ret := -EAGAIN;
      } else {
        var rate := ReadReg(0x0D);
        tc := Smpte(tcode, ubits, Fps(rate));
        ret := 0;
      }
      LoopResultIs(board, Gen, n, f, ret, tc);
    }

    /** Reads the timecode input, if there is a signal. */
    method Read() returns (ret: int, tc: Reading)
      modifies this`now
      ensures var n := old(now);
        if Bit(Register(board, n, 0x0C), 0x10)
        then LoopResult(board, Ltc, n + 1, ret, tc) && now == n + 1 + Accesses(board, Ltc, n + 1)
        else ret == -ENOTCONN && tc == Invalid && now == n + 1
    {
      hide Register, FirstAccepted, Fps, Bit, Accepted, LoopResult, Accesses, Begin;
      tc := Invalid;
      var valid := ReadReg(0x0C);
      if !Bit(valid, 0x10) { return -ENOTCONN, Invalid; }
      var ok, tcode, ubits, t := false, 0, 0, 0;
      ghost var n, f := now, FirstAccepted(board, Ltc, now, 0);
      BeginNext(Ltc, n, 0);
      while t < READ_TRIES
        invariant t <= READ_TRIES && f == FirstAccepted(board, Ltc, n, t) && now == Begin(Ltc, n, t)
      {
        NextAttempt(board, Ltc, n, t, now);
        ok, tcode, ubits := TryLtc();
        if ok { break; }
        BeginNext(Ltc, n, t);
        t := t + 1;
      }
      if t == READ_TRIES {
        ret := -EAGAIN;
      } else {
        var rate := ReadReg(0x0D);
        tc := Smpte(tcode, ubits, Fps(rate));
        ret := 0;
      }
      LoopResultIs(board, Ltc, n, f, ret, tc);
    }
  }
}
