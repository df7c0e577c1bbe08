/** Setting a stream up, starting, stopping and triggering it, and what a dropped frame records. */
module StreamControl {
  import opened Errno
  import opened PageList
  import opened PagePool
  import opened StreamTypes
  import opened PageFlow
  import opened StreamSpec
  import opened Ownership
  import opened RateControl
  import opened WireRegisters

  // ----- setup

  /** A stream gets the channels and pages it asks for, cut to one or two channels and 64 pages,
      whatever was before; it does not run, has no trigger, and plays at normal speed. */
  lemma InitGivesWhatIsAsked(w: World, pagect: int, flags: Flags, chans: int, tcsource: int)
    requires Sane(w.s)
    ensures var r := Step(w, InitStream(pagect, flags, chans, tcsource)).s;
      && (1 <= chans <= 2 ==> r.cfg.chans == chans) && (chans < 1 ==> r.cfg.chans == 1) && (2 < chans ==> r.cfg.chans == 2)
      && (pagect <= 64 ==> r.cfg.pagect == pagect) && (64 < pagect ==> r.cfg.pagect == 64)
      && r.cfg.flags == flags && r.cfg.tcsource == tcsource && r.cfg.maxSpeed == w.s.cfg.maxSpeed
      && !r.ctl.running && r.ctl.trigger == 0 && r.ctl.drop == Drop(0, 0, w.s.ctl.drop.tc) && r.ctl.atrig == w.s.ctl.atrig && r.rate == Rate(0, 1000000)
      && r.clock == w.s.clock && r.flow.meta == w.s.flow.meta
      && r.flow.output == w.s.flow.output && r.flow.input == w.s.flow.input
  {
  }

  function Allocs(k: nat): seq<Event> {
    seq(k, _ => UserAlloc)
  }

  /** The first k pages are in use and no other. */
  ghost predicate FirstTaken(w: World, k: nat)
    requires Sane(w.s)
  {
    (forall i :: 0 <= i < MAXPAGES ==> (w.s.flow.pool.inuse[i] <==> i < k)) && (forall i :: i in w.held <==> 0 <= i < k)
  }

  lemma AllocTakesNext(w: World, k: nat)
    requires Sane(w.s) && FirstTaken(w, k) && k <= w.s.cfg.pagect
    ensures var r := Step(w, UserAlloc);
      && r.s.cfg == w.s.cfg && FirstTaken(r, if k < w.s.cfg.pagect then k + 1 else k)
      && (k < w.s.cfg.pagect ==> Alloc(w.s.flow, w.s.cfg.pagect).ret == k)
      && (k == w.s.cfg.pagect ==> Alloc(w.s.flow, w.s.cfg.pagect).ret == -11)
  {
    var r := FirstFree(w.s.flow.pool.inuse, 0, w.s.cfg.pagect);
    assert k < w.s.cfg.pagect ==> !w.s.flow.pool.inuse[k];
    assert r == k;
  }

  lemma {:induction false} AllocsTakeAll(w: World, k: nat, n: nat)
    requires Sane(w.s) && FirstTaken(w, k) && k <= w.s.cfg.pagect
    ensures FirstTaken(Run(w, Allocs(n)), if k + n <= w.s.cfg.pagect then k + n else w.s.cfg.pagect)
    decreases n
  {
    if n > 0 {
      AllocTakesNext(w, k);
      assert Allocs(n)[1..] == Allocs(n - 1);
      AllocsTakeAll(Step(w, UserAlloc), if k < w.s.cfg.pagect then k + 1 else k, n - 1);
    }
  }

  /** After setup exactly the pages asked for can be had, each once and in order. */
  lemma PagesOfSetup(w: World, pagect: nat, flags: Flags, chans: int, tcsource: int, n: nat)
    requires Sane(w.s) && pagect <= 64
    ensures FirstTaken(Run(Step(w, InitStream(pagect, flags, chans, tcsource)), Allocs(n)), if n <= pagect then n else pagect)
  {
    AllocsTakeAll(Step(w, InitStream(pagect, flags, chans, tcsource)), 0, n);
  }

  // ----- start and stop

  /** A start is refused exactly while the stream runs; otherwise the speed is set back first. */
  lemma StartRefusedIff(s: State)
    ensures StartCheck(s).ret != 0 <==> s.ctl.running
    ensures s.ctl.running ==> StartCheck(s) == Outcome(s, -16)
    ensures !s.ctl.running ==> StartCheck(s).state == s.(rate := Rate(0, 1000000))
  {
  }

  /** Calls that do not set the stream going or touch the generator. */
  predicate LeavesStopped(e: Event) {
    !e.StartRun? && !e.UserTrig? && !e.InitStream? && !e.UserTimecode? && !e.UserTcgRunning?
  }

  /** A stopped stream: no page moves onto the wire, nothing is dropped and the generator stands. */
  ghost predicate StillSince(s: State, r: State) {
    && !r.ctl.running && r.ctl.trigger == 0 && !r.ctl.atrig && !r.clock.tcgRunning
    && r.clock.tcg == s.clock.tcg && r.ctl.drop == s.ctl.drop && r.flow.skipped == s.flow.skipped
    && r.flow.output == s.flow.output && r.flow.input == s.flow.input && r.cfg == s.cfg
  }

  lemma StoppedStep(s: State, w: World, e: Event)
    requires Sane(w.s) && StillSince(s, w.s) && LeavesStopped(e)
    ensures StillSince(s, Step(w, e).s)
    ensures e.FrameIrq? && !e.io.field ==> LastIdle(Step(w, e).s.flow, 0)
  {
    if e.FrameIrq? {
      FreeupIdles(w.s.flow, e.io);
      FreeupSkipsNothing(w.s.flow, e.io);
      hide Freeup;
    }
  }

  lemma FreeupSkipsNothing(f: Flow, io: FrameIO)
    requires Shaped(f)
    ensures Freeup(f, io).skipped == f.skipped
  {
  }

  lemma {:induction false} StoppedRun(s: State, w: World, es: seq<Event>)
    requires Sane(w.s) && StillSince(s, w.s) && forall i :: 0 <= i < |es| ==> LeavesStopped(es[i])
    ensures StillSince(s, Run(w, es).s)
    decreases |es|
  {
    if es != [] {
      hide Step, StillSince;
      StoppedStep(s, w, es[0]);
      StoppedRun(s, Step(w, es[0]), es[1..]);
    }
  }

  /** After a stop, until it is started or triggered again, the stream puts no page on the wire and
      drops none, its trigger is forgotten, and the generator stands. */
  lemma StopHalts(w: World, es: seq<Event>)
    requires Sane(w.s) && forall i :: 0 <= i < |es| ==> LeavesStopped(es[i])
    ensures StillSince(w.s, Run(Step(w, StopRun), es).s)
  {
    StopIsStill(w);
    hide Step, StillSince;
    StoppedRun(w.s, Step(w, StopRun), es);
  }

  lemma StopIsStill(w: World)
    requires Sane(w.s)
    ensures StillSince(w.s, Step(w, StopRun).s)
  {
  }

  /** The generator goes on from the timecode it is set to, one a frame, while it is switched on. */
  lemma GeneratorRunsAsSet(w: World, tc: Timecode, on: bool, io: FrameIO)
    requires Sane(w.s) && !w.s.ctl.running && w.s.ctl.trigger == 0 && !io.field
    ensures var r := Step(Step(Step(w, UserTimecode(tc)), UserTcgRunning(on)), FrameIrq(io)).s.clock;
      && r.tcg == (if on then tc.Inc() else tc) && r.time.tcg == r.tcg
      && (tc.At? ==> r.tcg == At(if on then tc.frame + 1 else tc.frame))
  {
    hide Freeup;
  }

  // ----- the trigger

  /** A trigger is taken exactly when its frame is still to come, and then it is all that changes. */
  lemma TriggerTakenIff(s: State, trig: int)
    ensures SetTrig(s, trig).ret == 0 <==> s.clock.frameId < trig
    ensures s.clock.frameId < trig ==> SetTrig(s, trig).state == s.(ctl := s.ctl.(trigger := trig))
    ensures trig <= s.clock.frameId ==> SetTrig(s, trig) == Outcome(s, -22)
  {
  }

  /** So the very next frame can be asked for, and starts the stream. */
  lemma NextFrameStarts(w: World, io: FrameIO)
    requires Sane(w.s) && !w.s.ctl.running && !io.field && 0 <= w.s.clock.frameId
    ensures var r := Step(Step(w, UserTrig(w.s.clock.frameId + 1)), FrameIrq(io)).s;
      r.ctl.running && r.ctl.trigger == 0 && r.flow == Freeup(w.s.flow, io)
  {
    hide Freeup;
    TriggerFrameMovesNothing(Step(w, UserTrig(w.s.clock.frameId + 1)), io);
  }

  /** The audio of a stream is started in its first running frame and then no more. */
  lemma AudioStartsOnce(w: World, io: FrameIO)
    requires Sane(w.s) && !io.field
    ensures w.s.ctl.running && w.s.ctl.trigger == 0 ==> !Step(w, FrameIrq(io)).s.ctl.atrig
    ensures !w.s.ctl.running && w.s.ctl.trigger == 0 ==> Step(w, FrameIrq(io)).s.ctl.atrig == w.s.ctl.atrig
  {
    hide Freeup, CaptureFrames, PlayFrames, SpeedFrames;
    PlayFramesKeepsAudio(Released(w.s, io).(ctl := Released(w.s, io).ctl.(atrig := false)));
  }

  lemma PlayFramesKeepsAudio(s: State)
    requires Sane(s)
    ensures Playback(s).ctl.atrig == s.ctl.atrig && Capture(s).ctl.atrig == s.ctl.atrig
    ensures Capture(Playback(s)).ctl.atrig == s.ctl.atrig
  {
    hide BumpAndLoad, CaptureFrames, SpeedFrames;
  }

  // ----- drops

  /** What a drop records. */
  ghost predicate DropsNow(s: State, r: State) {
    r.ctl.drop == Drop(s.ctl.drop.count + 1, s.clock.frameId, s.clock.tcg) && r.clock.tcg == s.clock.tcg
  }

  lemma PlaybackDropRecords(s: State)
    requires Sane(s)
    ensures var r := Playback(s);
      r.clock.frameId == s.clock.frameId && r.ctl.running == s.ctl.running && (r.ctl.drop == s.ctl.drop || DropsNow(s, r))
  {
    hide BumpAndLoad, SpeedFrames;
  }

  lemma CaptureDropRecords(s: State)
    requires Sane(s)
    ensures var r := Capture(s);
      r.clock.frameId == s.clock.frameId && r.ctl.running == s.ctl.running && (r.ctl.drop == s.ctl.drop || DropsNow(s, r))
  {
    hide CaptureFrames, SpeedFrames;
  }

  /** A frame drops at most once, and a drop records the number and the timecode of its frame. */
  lemma FrameDrops(w: World, io: FrameIO)
    requires Sane(w.s) && !(w.s.cfg.flags.capture && w.s.cfg.flags.playback) && !io.field
    ensures var r := Step(w, FrameIrq(io)).s;
      && r.clock.frameId == w.s.clock.frameId + 1
      && (r.ctl.drop == w.s.ctl.drop || r.ctl.drop == Drop(w.s.ctl.drop.count + 1, r.clock.frameId, r.clock.tcg))
  {
    var f := Released(w.s, io);
    var a := f.(ctl := f.ctl.(atrig := false));
    hide Freeup, Playback, Capture;
    PlaybackDropRecords(a);
    CaptureDropRecords(a);
    PlaysOrCaptures(a);
    CaptureIsNothing(Playback(a));
  }

  lemma CaptureIsNothing(s: State)
    requires Sane(s)
    ensures !s.cfg.flags.capture ==> Capture(s) == s
  {
    hide CaptureFrames;
  }
}
