/** The speed accumulator loses nothing, and the timecode generator and the start
    trigger follow it over whole runs. */
module RateControl {
  import opened StreamTypes
  import opened PageFlow
  import opened StreamSpec
  import opened Ownership

  const INT_MAX := 0x7fff_ffff

  predicate IsInt32(v: int) { -0x8000_0000 <= v <= INT_MAX }
  predicate IsUint32(v: int) { 0 <= v <= 0xffff_ffff }

  /** Setspeed keeps every requested speed within the limit exactly when the limit, an
      unsigned module parameter, is representable as a signed int. */
  lemma ClampInRangeIff(maxSpeed: int)
    requires IsUint32(maxSpeed)
    ensures (forall speed | IsInt32(speed) :: 0 <= ClampSpeed(speed, maxSpeed) <= maxSpeed) <==> maxSpeed <= INT_MAX
  {
    if maxSpeed > INT_MAX {
      assert IsInt32(-1) && ClampSpeed(-1, maxSpeed) < 0;
    }
  }

  /** A speed in range is stored as it is, anything else as the limit. */
  lemma ClampIs(speed: int, maxSpeed: int)
    requires IsInt32(speed) && 0 <= maxSpeed <= INT_MAX
    ensures ClampSpeed(speed, maxSpeed) == if 0 <= speed <= maxSpeed then speed else maxSpeed
  {
  }

  predicate Exact(rest: int, speed: int) {
    ToI32(rest + speed) == rest + speed
  }

  /** The accumulator can never wrap exactly when the limit leaves room for a remainder. */
  lemma AccumulatorFitsIff(maxSpeed: int)
    requires 0 <= maxSpeed <= INT_MAX
    ensures (forall rest, speed | 0 <= rest < SPEED_DIVISOR && 0 <= speed <= maxSpeed :: Exact(rest, speed))
            <==> maxSpeed <= INT_MAX - (SPEED_DIVISOR - 1)
  {
    if maxSpeed > INT_MAX - (SPEED_DIVISOR - 1) {
      assert !Exact(SPEED_DIVISOR - 1, maxSpeed);
    }
  }

  predicate SpeedFits(speed: int) {
    0 <= speed <= INT_MAX - (SPEED_DIVISOR - 1)
  }

  predicate RateOk(r: Rate) {
    0 <= r.spdct < SPEED_DIVISOR && SpeedFits(r.speed)
  }

  lemma OneTick(r: Rate)
    requires RateOk(r)
    ensures SpeedFrames(r) == (r.spdct + r.speed) / SPEED_DIVISOR
    ensures SpeedRest(r).spdct == (r.spdct + r.speed) % SPEED_DIVISOR
    ensures RateOk(SpeedRest(r)) && 0 <= SpeedFrames(r)
    ensures r.speed <= 3000000 ==> SpeedFrames(r) <= 3
  {
    assert ToI32(r.spdct + r.speed) == r.spdct + r.speed;
  }

  /** One count for any stored values, also negative or overflown ones: frames and remainder make up
      the signed 32-bit sum, and the remainder has its sign and is less than one frame. */
  lemma AnyTick(r: Rate)
    ensures var x, n, rest := ToI32(r.spdct + r.speed), SpeedFrames(r), SpeedRest(r).spdct;
      && n * 1000000 + rest == x && -1000000 < rest < 1000000 && (0 <= x ==> 0 <= rest) && (x <= 0 ==> rest <= 0)
    ensures SpeedRest(r).speed == r.speed
  {
  }

  /** The accumulator is a signed 32-bit integer. */
  lemma SumWraps(r: Rate)
    ensures var x := ToI32(r.spdct + r.speed); IsInt32(x) && (x - (r.spdct + r.speed)) % 0x1_0000_0000 == 0
  {
  }

  /** Taking whole frames out early does not change the total. */
  lemma SplitDivision(a: int, b: int)
    ensures (a + b) / SPEED_DIVISOR == a / SPEED_DIVISOR + (a % SPEED_DIVISOR + b) / SPEED_DIVISOR
    ensures (a + b) % SPEED_DIVISOR == (a % SPEED_DIVISOR + b) % SPEED_DIVISOR
  {
    assert a == SPEED_DIVISOR * (a / SPEED_DIVISOR) + a % SPEED_DIVISOR;
  }

  function Total(xs: seq<int>): int {
    if xs == [] then 0 else xs[0] + Total(xs[1..])
  }

  /** The frames counted and the accumulator after ticking through the given speeds. */
  function TickFrames(rest: int, speeds: seq<int>): int
    decreases |speeds|
  {
    if speeds == [] then 0
    else
      var r := Rate(rest, speeds[0]);
      SpeedFrames(r) + TickFrames(SpeedRest(r).spdct, speeds[1..])
  }

  function TickRest(rest: int, speeds: seq<int>): int
    decreases |speeds|
  {
    if speeds == [] then rest else TickRest(SpeedRest(Rate(rest, speeds[0])).spdct, speeds[1..])
  }

  /** No drift: whatever the speeds, the frames counted are the whole part of their sum. */
  lemma {:induction false} NoDrift(rest: int, speeds: seq<int>)
    requires 0 <= rest < SPEED_DIVISOR && forall i :: 0 <= i < |speeds| ==> SpeedFits(speeds[i])
    ensures TickFrames(rest, speeds) == (rest + Total(speeds)) / SPEED_DIVISOR
    ensures TickRest(rest, speeds) == (rest + Total(speeds)) % SPEED_DIVISOR
    decreases |speeds|
  {
    if speeds != [] {
      var r := Rate(rest, speeds[0]);
      OneTick(r);
      NoDrift(SpeedRest(r).spdct, speeds[1..]);
      SplitDivision(rest + speeds[0], Total(speeds[1..]));
    }
  }

  // ----- the timecode generator of a capture stream

  /** A frame for which a running capture stream counts its speed. */
  predicate Ticks(w: World, e: Event)
    requires Sane(w.s)
  {
    && e.FrameIrq? && !e.io.field
    && !CaptureDrops(Released(w.s, e.io))
  }

  ghost predicate CaptureClock(w: World) {
    && Sane(w.s) && w.s.cfg.flags.capture && !w.s.cfg.flags.playback
    && w.s.ctl.running && w.s.clock.tcgRunning && w.s.clock.tcg.At? && RateOk(w.s.rate)
    && 0 <= w.s.cfg.maxSpeed <= INT_MAX - (SPEED_DIVISOR - 1)
  }

  /** Anything except starting over, stopping, or setting the generator. */
  predicate ClockUse(e: Event) {
    && !e.InitStream? && !e.StopRun? && !e.UserTimecode? && !e.UserTcgRunning?
    && (e.UserSpeed? ==> IsInt32(e.speed))
  }

  lemma {:induction false} IncManyAdds(tc: Timecode, n: int)
    requires tc.At? && 0 <= n
    ensures IncMany(tc, n) == At(tc.frame + n)
    decreases n
  {
    if n > 0 { IncManyAdds(tc, n - 1); }
  }

  /** One frame of a running capture stream. */
  lemma CaptureTick(w: World, io: FrameIO)
    requires CaptureClock(w) && !io.field
    ensures var r, e := Step(w, FrameIrq(io)), FrameIrq(io);
      && CaptureClock(r)
      && (Ticks(w, e) ==>
            && r.s.clock.tcg.frame == w.s.clock.tcg.frame + SpeedFrames(w.s.rate)
            && r.s.rate == SpeedRest(w.s.rate) && r.s.ctl.drop == w.s.ctl.drop)
      && (!Ticks(w, e) ==>
            && r.s.clock.tcg.frame == w.s.clock.tcg.frame + 1
            && r.s.rate == w.s.rate && r.s.ctl.drop.count == w.s.ctl.drop.count + 1)
  {
    OneTick(w.s.rate);
    var b, f := BeginFrame(w.s, io), Released(w.s, io);
    hide Freeup, CaptureFrames, SpeedFrames, SpeedRest, CaptureDrops, RateOk;
    EngineTicks(f.(ctl := f.ctl.(atrig := false)));
    assert Step(w, FrameIrq(io)).s == EndFrame(Engine(f));
    hide Engine, Capture, Playback;
  }

  /** The clock, the accumulator and the drops after a capture stream's part of a frame. */
  lemma EngineTicks(s: State)
    requires Sane(s) && s.cfg.flags.capture && s.clock.tcg.At? && 0 <= SpeedFrames(s.rate)
    ensures var r, n := Capture(s), SpeedFrames(s.rate);
      && r.cfg == s.cfg && r.ctl.running == s.ctl.running
      && r.clock == s.clock.(tcg := if CaptureDrops(s) then s.clock.tcg else At(s.clock.tcg.frame + n - 1))
      && r.rate == (if CaptureDrops(s) then s.rate else SpeedRest(s.rate))
      && r.ctl.drop.count == s.ctl.drop.count + (if CaptureDrops(s) then 1 else 0)
      && (!CaptureDrops(s) ==> r.ctl.drop == s.ctl.drop)
  {
    hide SpeedFrames, SpeedRest, CaptureFrames;
    if SpeedFrames(s.rate) > 0 { IncManyAdds(s.clock.tcg, SpeedFrames(s.rate) - 1); }
  }

  lemma OtherClockStep(w: World, e: Event)
    requires CaptureClock(w) && ClockUse(e) && (e.FrameIrq? ==> e.io.field)
    ensures var r := Step(w, e);
      && CaptureClock(r) && r.s.clock.tcg == w.s.clock.tcg && r.s.rate.spdct == w.s.rate.spdct
      && r.s.ctl.drop == w.s.ctl.drop
  {
    if e.UserSpeed? { ClampIs(e.speed, w.s.cfg.maxSpeed); }
  }

  /** The speeds in force at the frames of a run that were not dropped. */
  function Speeds(w: World, es: seq<Event>): int
    requires Sane(w.s)
    decreases |es|
  {
    if es == [] then 0
    else (if Ticks(w, es[0]) then w.s.rate.speed else 0) + Speeds(Step(w, es[0]), es[1..])
  }

  /** Over any run of a running capture stream the generator advances by the whole part
      of the accumulated speeds, plus one for each dropped frame. */
  lemma {:induction false} TimecodeFollowsSpeed(w: World, es: seq<Event>)
    requires CaptureClock(w) && forall i :: 0 <= i < |es| ==> ClockUse(es[i])
    ensures var r, total := Run(w, es).s, w.s.rate.spdct + Speeds(w, es);
      && r.clock.tcg == At(w.s.clock.tcg.frame + total / SPEED_DIVISOR + (r.ctl.drop.count - w.s.ctl.drop.count))
      && r.rate.spdct == total % SPEED_DIVISOR
    decreases |es|
  {
    if es != [] {
      var e, r := es[0], Step(w, es[0]);
      if e.FrameIrq? && !e.io.field {
        CaptureTick(w, e.io);
        OneTick(w.s.rate);
        SplitDivision(w.s.rate.spdct + w.s.rate.speed, Speeds(r, es[1..]));
      } else {
        OtherClockStep(w, e);
      }
      TimecodeFollowsSpeed(r, es[1..]);
    }
  }

  // ----- the start trigger

  /** Calls that neither start, stop nor re-arm the stream. */
  predicate TriggerUse(e: Event) {
    !e.InitStream? && !e.StopRun? && !e.StartRun? && !e.UserTrig?
  }

  lemma EngineKeepsControl(s: State)
    requires Sane(s)
    ensures var r := Engine(s);
      && r.ctl.running == s.ctl.running && r.ctl.trigger == s.ctl.trigger && r.clock.frameId == s.clock.frameId
  {
  }

  lemma TriggerStep(w: World, e: Event, trig: int)
    requires Sane(w.s) && TriggerUse(e) && 0 <= w.s.clock.frameId && trig != 0
    requires w.s.ctl.running == (w.s.clock.frameId >= trig)
    requires w.s.ctl.trigger == if w.s.clock.frameId >= trig then 0 else trig
    ensures var r := Step(w, e).s;
      && r.clock.frameId >= w.s.clock.frameId
      && r.ctl.running == (r.clock.frameId >= trig)
      && r.ctl.trigger == if r.clock.frameId >= trig then 0 else trig
  {
    if e.FrameIrq? && !e.io.field {
      EngineKeepsControl(Released(w.s, e.io));
    }
  }

  /** An accepted trigger starts the stream at exactly the requested frame, once. */
  lemma TriggerFiresOnTime(w: World, es: seq<Event>, trig: int)
    requires Sane(w.s) && 0 <= w.s.clock.frameId && !w.s.ctl.running && SetTrig(w.s, trig).ret == 0
    requires forall i :: 0 <= i < |es| ==> TriggerUse(es[i])
    ensures var r := Run(Step(w, UserTrig(trig)), es).s;
      && r.ctl.running == (r.clock.frameId >= trig)
      && r.ctl.trigger == if r.clock.frameId >= trig then 0 else trig
  {
    TriggerRun(Step(w, UserTrig(trig)), es, trig);
  }

  lemma {:induction false} TriggerRun(w: World, es: seq<Event>, trig: int)
    requires Sane(w.s) && 0 <= w.s.clock.frameId && trig != 0
    requires w.s.ctl.running == (w.s.clock.frameId >= trig)
    requires w.s.ctl.trigger == if w.s.clock.frameId >= trig then 0 else trig
    requires forall i :: 0 <= i < |es| ==> TriggerUse(es[i])
    ensures var r := Run(w, es).s;
      && r.ctl.running == (r.clock.frameId >= trig)
      && r.ctl.trigger == if r.clock.frameId >= trig then 0 else trig
    decreases |es|
  {
    if es != [] {
      TriggerStep(w, es[0], trig);
      TriggerRun(Step(w, es[0]), es[1..], trig);
    }
  }

  /** On the frame its trigger names the stream starts running, but no page is loaded or captured
      yet: the handler looked before the trigger. */
  lemma TriggerFrameMovesNothing(w: World, io: FrameIO)
    requires Sane(w.s) && !w.s.ctl.running && !io.field
    requires w.s.ctl.trigger != 0 && w.s.ctl.trigger == w.s.clock.frameId + 1
    ensures var r := Step(w, FrameIrq(io)).s;
      && r.ctl.running && r.ctl.trigger == 0 && r.clock.tcgRunning && r.ctl.atrig == w.s.cfg.flags.audio
      && r.ctl.drop == w.s.ctl.drop && r.rate == w.s.rate && r.flow == Freeup(w.s.flow, io)
  {
    hide Freeup;
  }
}
