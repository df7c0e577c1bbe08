/** The card's page registers: a channel's output register holds the page shown on it, its input
    register the page captured on it, and a frame that moves no page leaves them alone. */
module WireRegisters {
  import opened Errno
  import opened PageList
  import opened StreamTypes
  import opened PageFlow
  import opened StreamSpec
  import opened Ownership

  /** Each register holds the page on the wire of its channel, or what it held before. */
  ghost predicate Follow(f: Flow, output: seq<int>, input: seq<int>)
    requires Shaped(f) && |output| == |input| == MAXCHANS
  {
    forall i :: 0 <= i < MAXCHANS ==>
      && f.output[i] == (if f.last[i].kind == Played then f.last[i].page else output[i])
      && f.input[i] == (if f.last[i].kind == Captured then f.last[i].page else input[i])
  }

  ghost predicate OnTheWire(f: Flow)
    requires Shaped(f)
  {
    Follow(f, f.output, f.input)
  }

  /** Loading a channel fails with -12 exactly on an empty queue and with -22 exactly on a page of
      another channel; capturing one fails with -12 exactly when no page is free. A failure puts
      nothing on the wire, a success the page it returns. */
  lemma ChannelOutcome(f: Flow, pagect: int, chan: nat)
    requires Shaped(f) && chan < MAXCHANS && pagect <= MAXPAGES
    ensures var o, q := PlaybackFrame(f, chan), f.pool.queue;
      && (o.ret == -12 <==> q == []) && (o.ret == -22 <==> q != [] && f.meta[q[0]].chan != chan)
      && (o.ret < 0 ==> o.flow.last == f.last && o.flow.output == f.output)
      && (0 <= o.ret ==> q != [] && o.ret == q[0] && o.flow.last == f.last[chan := LastPage(Played, q[0])])
    ensures var o, used := CaptureFrame(f, pagect, chan), f.pool.inuse;
      && (o.ret == -12 <==> forall i :: 0 <= i < pagect ==> used[i]) && (o.ret < 0 ==> o.flow == f)
      && (0 <= o.ret ==> o.ret < pagect && !used[o.ret] && o.flow.last == f.last[chan := LastPage(Captured, o.ret)])
  {
  }

  lemma {:induction false} PopManyKeepsWire(f: Flow, n: nat)
    requires Shaped(f)
    ensures var r := PopMany(f, n).flow; r.last == f.last && r.output == f.output && r.input == f.input
    decreases n
  {
    if n > 0 {
      var o := Pop(f);
      if 0 <= o.ret { PopManyKeepsWire(o.flow.(skipped := f.skipped + [o.ret]), n - 1); }
    }
  }

  lemma {:induction false} BumpKeepsWire(f: Flow, chans: nat, k: int)
    requires Shaped(f)
    ensures var r := Bump(f, chans, k).flow; r.last == f.last && r.output == f.output && r.input == f.input
    decreases k
  {
    hide PopMany, Shaped;
    if k > 0 && f.pool.level >= chans {
      PopManyKeepsWire(f, chans);
      var o := PopMany(f, chans);
      if 0 <= o.ret { BumpKeepsWire(o.flow, chans, k - 1); }
    }
  }

  lemma {:induction false} LoadFollows(f: Flow, chans: nat, n: nat, newp: int, output: seq<int>, input: seq<int>)
    requires Shaped(f) && n <= chans <= MAXCHANS && IsValidPage(newp) && LastIdle(f, n)
    requires |output| == |input| == MAXCHANS && Follow(f, output, input)
    ensures Follow(LoadFrames(f, chans, n, newp).flow, output, input)
    decreases chans - n
  {
    if n < chans {
      var o := PlaybackFrame(f, n);
      if 0 <= o.ret { LoadFollows(o.flow, chans, n + 1, if n == 0 then o.ret else newp, output, input); }
    }
  }

  lemma {:induction false} CaptureFollows(f: Flow, pagect: int, chans: nat, c: Clock, n: nat, inc: int,
                                          output: seq<int>, input: seq<int>)
    requires Shaped(f) && n <= chans <= MAXCHANS && pagect <= MAXPAGES && LastIdle(f, n)
    requires |output| == |input| == MAXCHANS && Follow(f, output, input)
    ensures Follow(CaptureFrames(f, pagect, chans, c, n, inc).flow, output, input)
    decreases chans - n
  {
    if n < chans {
      var o := CaptureFrame(f, pagect, n);
      if 0 <= o.ret {
        CaptureFollows(o.flow.(meta := f.meta[o.ret := CapturedMeta(c, n, inc)]), pagect, chans, c, n + 1, inc, output, input);
      }
    }
  }

  lemma PlaybackFollows(s: State)
    requires Sane(s) && LastIdle(s.flow, 0)
    ensures Follow(Playback(s).flow, s.flow.output, s.flow.input)
  {
    var k := SpeedFrames(s.rate) - 1;
    BumpKeepsWire(s.flow, s.cfg.chans, k);
    var b := Bump(s.flow, s.cfg.chans, k);
    hide Bump, LoadFrames, SpeedFrames;
    if 0 <= b.ret { LoadFollows(b.flow, s.cfg.chans, 0, 0, s.flow.output, s.flow.input); }
  }

  lemma StreamCaptureFollows(s: State)
    requires Sane(s) && LastIdle(s.flow, 0)
    ensures Follow(Capture(s).flow, s.flow.output, s.flow.input)
  {
    hide CaptureFrames, SpeedFrames;
    if !CaptureDrops(s) {
      var o := SpeedCount(s);
      CaptureFollows(s.flow, s.cfg.pagect, s.cfg.chans, AdjustTcg(o.state, o.ret).clock, 0, o.ret, s.flow.output, s.flow.input);
    }
  }

  lemma FreeupIdles(f: Flow, io: FrameIO)
    requires Shaped(f)
    ensures var r := Freeup(f, io); LastIdle(r, 0) && r.output == f.output && r.input == f.input
  {
  }

  /** After a frame, whether it played, captured, dropped, failed half way or did not run, each
      register holds the page its channel has on the wire, and any other register what it held. */
  lemma FrameSetsRegisters(w: World, io: FrameIO)
    requires Sane(w.s) && !(w.s.cfg.flags.capture && w.s.cfg.flags.playback) && !io.field
    ensures Follow(Step(w, FrameIrq(io)).s.flow, w.s.flow.output, w.s.flow.input)
  {
    hide Freeup, Playback, Capture;
    FreeupIdles(w.s.flow, io);
    var f := Released(w.s, io);
    var a := f.(ctl := f.ctl.(atrig := false));
    PlaybackFollows(a);
    StreamCaptureFollows(a);
    PlaysOrCaptures(a);
  }

  lemma PlaysOrCaptures(s: State)
    requires Sane(s)
    ensures !s.cfg.flags.playback ==> Playback(s) == s
    ensures s.cfg.flags.playback && !s.cfg.flags.capture ==> Capture(Playback(s)) == Playback(s)
  {
    hide PlayFrames, SpeedFrames;
  }

  /** A capture frame that is dropped, or does not run, only releases old pages. */
  lemma DroppedFrameIsIdle(w: World, io: FrameIO)
    requires Sane(w.s) && w.s.cfg.flags.capture && !w.s.cfg.flags.playback && !io.field
    requires !w.s.ctl.running || CaptureDrops(Released(w.s, io))
    ensures Step(w, FrameIrq(io)).s.flow == Freeup(w.s.flow, io)
    ensures LastIdle(Step(w, FrameIrq(io)).s.flow, 0)
  {
    hide Freeup, CaptureFrames;
    FreeupIdles(w.s.flow, io);
  }

  /** A frame that puts nothing on the wire, as a dropped one, leaves every register alone. */
  lemma IdleFrameKeepsRegisters(w: World, io: FrameIO)
    requires Sane(w.s) && !(w.s.cfg.flags.capture && w.s.cfg.flags.playback) && !io.field
    requires LastIdle(Step(w, FrameIrq(io)).s.flow, 0)
    ensures var r := Step(w, FrameIrq(io)).s.flow; r.output == w.s.flow.output && r.input == w.s.flow.input
  {
    hide Step;
    FrameSetsRegisters(w, io);
  }

  lemma StepKeepsWire(w: World, e: Event)
    requires Sane(w.s) && OnTheWire(w.s.flow) && WellBehaved(w, e)
    requires !(w.s.cfg.flags.capture && w.s.cfg.flags.playback)
    ensures var r := Step(w, e).s; OnTheWire(r.flow) && !(r.cfg.flags.capture && r.cfg.flags.playback)
  {
    if e.FrameIrq? && !e.io.field {
      FrameSetsRegisters(w, e.io);
      FrameKeepsConfig(w, e.io);
      hide Step;
    }
  }

  lemma FrameKeepsConfig(w: World, io: FrameIO)
    requires Sane(w.s)
    ensures Step(w, FrameIrq(io)).s.cfg == w.s.cfg
  {
    hide PlayFrames, CaptureFrames, Freeup;
  }

  /** In every reachable state the registers hold the pages on the wire. */
  lemma {:induction false} RunKeepsWire(w: World, es: seq<Event>)
    requires Sane(w.s) && OnTheWire(w.s.flow) && WellBehavedRun(w, es)
    requires !(w.s.cfg.flags.capture && w.s.cfg.flags.playback)
    ensures OnTheWire(Run(w, es).s.flow)
    decreases |es|
  {
    if es != [] {
      hide Step, WellBehaved, OnTheWire;
      StepKeepsWire(w, es[0]);
      RunKeepsWire(Step(w, es[0]), es[1..]);
    }
  }
}
