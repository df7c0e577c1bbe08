/** What each stream operation does to the stream, as functions on values. */
module StreamSpec {
  import opened Errno
  import opened PageList
  import opened PagePool
  import opened StreamTypes
  import opened PageFlow

  const SPEED_DIVISOR := 1000000

  datatype Flags = Flags(capture: bool, playback: bool, audio: bool)
  datatype Config = Config(flags: Flags, pagect: int, chans: int, tcsource: int, maxSpeed: int)
  datatype Rate = Rate(spdct: int, speed: int)
  datatype Drop = Drop(count: int, id: int, tc: Timecode)
  datatype Control = Control(running: bool, trigger: int, atrig: bool, drop: Drop)

  datatype State = State(cfg: Config, rate: Rate, ctl: Control, flow: Flow, clock: Clock)
  datatype Outcome = Outcome(state: State, ret: int)

  ghost predicate Sane(s: State) {
    Shaped(s.flow) && 0 <= s.cfg.chans <= MAXCHANS && s.cfg.pagect <= MAXPAGES
  }

  // ----- stream setup

  function Clear(s: State): State {
    s.(cfg := s.cfg.(pagect := 0, chans := 0), rate := Rate(0, SPEED_DIVISOR),
       ctl := s.ctl.(running := false, trigger := 0, drop := s.ctl.drop.(count := 0, id := 0)),
       flow := s.flow.(pool := EmptyPool(), last := [ZERO_LAST, ZERO_LAST], skipped := []))
  }

  function Init(s: State, pagect: int, flags: Flags, chans: int, tcsource: int): State {
    Clear(s).(cfg := Config(flags, if pagect > MAXPAGES then MAXPAGES else pagect,
                            if chans < 1 then 1 else if chans > MAXCHANS then MAXCHANS else chans,
                            tcsource, s.cfg.maxSpeed))
  }

  function Start(s: State): State {
    s.(ctl := s.ctl.(trigger := 0, atrig := s.cfg.flags.audio, running := true),
       clock := s.clock.(tcgRunning := true))
  }

  function Stop(s: State): State {
    s.(ctl := s.ctl.(trigger := 0, atrig := false, running := false),
       clock := s.clock.(tcgRunning := false))
  }

  // ----- speed

  /** The value setspeed stores: the comparison with the limit is unsigned. */
  function ClampSpeed(speed: int, maxSpeed: int): int {
    if ToU32(speed) > maxSpeed then ToI32(maxSpeed) else speed
  }

  function SetSpeed(s: State, speed: int): State {
    s.(rate := s.rate.(speed := ClampSpeed(speed, s.cfg.maxSpeed)))
  }

  /** The whole frames in the accumulator after adding one speed. */
  function SpeedFrames(r: Rate): int {
    CDiv(ToI32(r.spdct + r.speed), SPEED_DIVISOR)
  }

  function SpeedRest(r: Rate): Rate {
    r.(spdct := ToI32(r.spdct + r.speed) - SpeedFrames(r) * SPEED_DIVISOR)
  }

  function SpeedCount(s: State): Outcome {
    Outcome(s.(rate := SpeedRest(s.rate)), SpeedFrames(s.rate))
  }

  /** The first half of the start ioctl; it then waits for a frame before Start. */
  function StartCheck(s: State): Outcome {
    if s.ctl.running then Outcome(s, -EBUSY) else Outcome(s.(rate := Rate(0, SPEED_DIVISOR)), 0)
  }

  function SetTrig(s: State, trig: int): Outcome {
    if s.clock.frameId >= trig then Outcome(s, -EINVAL)
    else Outcome(s.(ctl := s.ctl.(trigger := trig)), 0)
  }

  // ----- frame engine

  function RecordDrop(s: State): State {
    s.(ctl := s.ctl.(drop := Drop(s.ctl.drop.count + 1, s.clock.frameId, s.clock.tcg)))
  }

  /** Takes over timecode and private data of the shown page and clears its metadata. */
  function Shown(s: State, newp: int): State
    requires Sane(s) && IsValidPage(newp)
  {
    var m := s.flow.meta[newp];
    var c := s.clock;
    s.(clock := c.(tcg := if m.tcInternal.At? then m.tcInternal else c.tcg, time := c.time.(priv := m.priv)),
       flow := s.flow.(meta := s.flow.meta[newp := ZERO_META]))
  }

  /** The bump and load of a playback frame, with the drop a short bump records. */
  function PlayFrames(s: State, k: int): (r: Outcome)
    requires Sane(s)
    ensures Sane(r.state) && r.state.cfg == s.cfg && (0 <= r.ret ==> IsValidPage(r.ret))
  {
    var m := BumpAndLoad(s.flow, s.cfg.chans, k);
    var t := s.(flow := m.flow);
    Outcome(if m.ret == DROPPED then RecordDrop(t) else t, m.ret)
  }

  function Playback(s: State): (r: State)
    requires Sane(s)
    ensures Sane(r) && r.cfg == s.cfg
  {
    if !s.cfg.flags.playback then s
    else if s.flow.pool.level < s.cfg.chans then RecordDrop(s)
    else
      var o := SpeedCount(s);
      if o.ret == 0 then o.state
      else
        var m := PlayFrames(o.state, o.ret - 1);
        if m.ret < 0 then m.state else Shown(m.state, m.ret)
  }

  /** n increments of the timecode generator. */
  function IncMany(tc: Timecode, n: int): Timecode
    decreases n
  {
    if n <= 0 then tc else IncMany(tc, n - 1).Inc()
  }

  /** The generator was incremented once at the start of the frame already. */
  function AdjustTcg(s: State, inc: int): State {
    s.(clock := s.clock.(tcg := if inc == 0 then s.clock.tcg.Dec() else IncMany(s.clock.tcg, inc - 1)))
  }

  predicate CaptureDrops(s: State) {
    s.cfg.pagect - s.flow.pool.level <= s.cfg.chans
  }

  function CaptureNext(s: State, inc: int): (r: State)
    requires Sane(s)
    ensures Sane(r)
  {
    s.(flow := CaptureFrames(s.flow, s.cfg.pagect, s.cfg.chans, s.clock, 0, inc).flow)
  }

  function Capture(s: State): (r: State)
    requires Sane(s)
    ensures Sane(r)
  {
    if !s.cfg.flags.capture then s
    else if CaptureDrops(s) then RecordDrop(s)
    else
      var o := SpeedCount(s);
      CaptureNext(AdjustTcg(o.state, o.ret), o.ret)
  }

  /** The start of a frame, up to the release of the previous frame's pages. */
  function BeginFrame(s: State, io: FrameIO): State {
    var id := s.clock.frameId + 1;
    var a := s.(clock := s.clock.(frameId := id, tcg := if s.clock.tcgRunning then s.clock.tcg.Inc() else s.clock.tcg));
    var b := if s.ctl.trigger != 0 && s.ctl.trigger == id then Start(a) else a;
    b.(clock := b.clock.(time := b.clock.time.(id := id, line := io.line, timer := io.timer)))
  }

  function EndFrame(s: State): State {
    s.(clock := s.clock.(time := s.clock.time.(tcg := s.clock.tcg)))
  }

  /** The state after the previous frame's pages are released. */
  function Released(s: State, io: FrameIO): (r: State)
    requires Sane(s)
    ensures Sane(r)
  {
    var b := BeginFrame(s, io);
    b.(flow := Freeup(b.flow, io))
  }

  /** What a running stream does in a frame, after the release of old pages. */
  function Engine(s: State): (r: State)
    requires Sane(s)
    ensures Sane(r)
  {
    Capture(Playback(s.(ctl := s.ctl.(atrig := false))))
  }

  /** The frame interrupt. A trigger that fires on this frame lets pages move from
      the next frame on, because running was sampled before. */
  function Frame(s: State, io: FrameIO): (r: State)
    requires Sane(s)
    ensures Sane(r)
  {
    if io.field then s
    else
      var f := Released(s, io);
      EndFrame(if s.ctl.running then Engine(f) else f)
  }

  lemma PlaybackPops(s: State)
    requires Sane(s)
    ensures PopsOnly(s.flow.pool, Playback(s).flow.pool)
  {
    BumpAndLoadPops(s.flow, s.cfg.chans, SpeedFrames(s.rate) - 1);
  }

  lemma PlaybackKeepsQueuedInUse(s: State)
    requires Sane(s) && QueuedInUse(s.flow.pool)
    ensures QueuedInUse(Playback(s).flow.pool)
  {
    PlaybackPops(s);
  }
}
