/** The stream part of a card, updated in place. Every method is proved to do to
    the card what a function of PageFlow or StreamSpec says. */
module CardModel {
  import opened Errno
  import opened PageList
  import opened PagePool
  import opened StreamTypes
  import opened PageFlow
  import opened StreamSpec

  class Card {
    var flags: Flags
    var pagect: int
    var chans: int
    var tcsource: int
    const maxSpeed: int
    var spdct: int
    var speed: int
    var running: bool
    var trigger: int
    var atrig: bool
    var drop: Drop
    const pages: PageFifo
    const last: array<LastPage>
    const meta: array<Meta>
    var output: seq<int>
    var input: seq<int>
    var frameId: int
    var time: FrameTime
    var tcg: Timecode
    var tcgRunning: bool
    ghost var skipped: seq<int>

    ghost function FlowNow(): Flow
      reads this, pages, pages.pagealloc, meta, last
    {
      Flow(pages.Abs(), last[..], meta[..], skipped, output, input)
    }

    ghost function Abs(): State
      reads this, pages, pages.pagealloc, meta, last
    {
      State(Config(flags, pagect, chans, tcsource, maxSpeed), Rate(spdct, speed),
            Control(running, trigger, atrig, drop), FlowNow(), Clock(frameId, time, tcg, tcgRunning))
    }

    ghost predicate Valid()
      reads this, pages, pages.pagealloc, meta, last
    {
      pages.Valid() && Sane(Abs())
    }

    /** A created card whose stream structure has been cleared once. */
    constructor (maxPlaySpeed: int)
      ensures Valid() && fresh(pages) && fresh(pages.pagealloc) && fresh(last) && fresh(meta)
      ensures maxSpeed == maxPlaySpeed && frameId == 0 && !running && skipped == []
      ensures FlowNow().pool == EmptyPool() && FlowNow().last == [ZERO_LAST, ZERO_LAST]
    {
      maxSpeed := maxPlaySpeed;
      flags := Flags(false, false, false);
      tcsource, pagect, chans, spdct, speed := 0, 0, 0, 0, SPEED_DIVISOR;
      running, atrig, tcgRunning := false, false, false;
      drop, trigger := Drop(0, 0, Invalid), 0;
      pages := new PageFifo();
      last := new LastPage[MAXCHANS](_ => ZERO_LAST);
      meta := new Meta[MAXPAGES](_ => ZERO_META);
      frameId, time, tcg := 0, ZERO_TIME, Invalid;
      output, input, skipped := [0, 0], [0, 0], [];
    }

    // ----- stream setup

    method ClearPages()
      requires Valid()
      modifies this`skipped, pages, pages.pagealloc, last
      ensures Valid()
      ensures FlowNow() == old(FlowNow()).(pool := EmptyPool(), last := [ZERO_LAST, ZERO_LAST], skipped := [])
    {
      pages.Clear();
      skipped := [];
      last[0], last[1] := ZERO_LAST, ZERO_LAST;
      assert last[..] == [ZERO_LAST, ZERO_LAST];
    }

    method ClearCounters()
      requires Valid()
      modifies this`drop, this`running, this`trigger, this`spdct, this`speed
      ensures Valid() && Abs() == old(Abs()).(
        rate := Rate(0, SPEED_DIVISOR), ctl := Control(false, 0, atrig, old(drop).(count := 0, id := 0)))
    {
      hide PageFifo.Abs, PageFifo.Valid, Shaped;
      spdct, speed := 0, SPEED_DIVISOR;
      drop := drop.(count := 0, id := 0);
      running, trigger := false, 0;
    }

    method SetParameters(pagect': int, flags': Flags, chans': int, tcsource': int)
      requires Valid() && pagect' <= MAXPAGES && 0 <= chans' <= MAXCHANS
      modifies this`pagect, this`flags, this`chans, this`tcsource
      ensures Valid() && Abs() == old(Abs()).(cfg := Config(flags', pagect', chans', tcsource', maxSpeed))
    {
      hide PageFifo.Abs, PageFifo.Valid, Shaped;
      flags, pagect := flags', pagect';
      chans, tcsource := chans', tcsource';
    }

    method StreamClear()
      requires Valid()
      modifies this, pages, pages.pagealloc, last
      ensures Valid() && Abs() == Clear(old(Abs()))
    {
      SetParameters(0, flags, 0, tcsource);
      ClearCounters();
      ClearPages();
    }

    method StreamInit(pagect': int, flags': Flags, chans': int, tcsource': int)
      requires Valid()
      modifies this, pages, pages.pagealloc, last
      ensures Valid() && Abs() == Init(old(Abs()), pagect', flags', chans', tcsource')
    {
      var ch := if chans' < 1 then 1 else if chans' > MAXCHANS then MAXCHANS else chans';
      var ct := if pagect' > MAXPAGES then MAXPAGES else pagect';
      StreamClear();
      SetParameters(ct, flags', ch, tcsource');
    }

    method StreamStart()
      requires Valid()
      modifies this
      ensures Valid() && Abs() == Start(old(Abs()))
    {
      hide PageFifo.Abs, PageFifo.Valid, Shaped;
      trigger := 0;
      atrig := flags.audio;
      running := true;
      tcgRunning := true;
    }

    method StreamStop()
      requires Valid()
      modifies this
      ensures Valid() && Abs() == Stop(old(Abs()))
    {
      hide PageFifo.Abs, PageFifo.Valid, Shaped;
      trigger := 0;
      atrig := false;
      running := false;
      tcgRunning := false;
    }

    method IoctlSetSpeed(v: int)
      requires Valid()
      modifies this`speed
      ensures Valid() && Abs() == SetSpeed(old(Abs()), v)
    {
      hide PageFifo.Abs, PageFifo.Valid, Shaped;
      var s := v;
      if ToU32(s) > maxSpeed { s := ToI32(maxSpeed); }
      speed := s;
    }

    method IoctlSetTrig(trig: int) returns (ret: int)
      requires Valid()
      modifies this`trigger
      ensures Valid() && Outcome(Abs(), ret) == SetTrig(old(Abs()), trig)
    {
      hide PageFifo.Abs, PageFifo.Valid, Shaped;
      if frameId >= trig { return -EINVAL; }
      trigger := trig;
      ret := 0;
    }

    // ----- frame engine

    method StreamSpeedCount() returns (frms: int)
      requires Valid()
      modifies this`spdct
      ensures Valid() && Outcome(Abs(), frms) == SpeedCount(old(Abs()))
    {
      hide PageFifo.Abs, PageFifo.Valid, Shaped;
      spdct := ToI32(spdct + speed);
      frms := CDiv(spdct, SPEED_DIVISOR);
      spdct := spdct - frms * SPEED_DIVISOR;
    }

    method StreamDrop()
      requires Valid()
      modifies this`drop
      ensures Valid() && Abs() == RecordDrop(old(Abs()))
    {
      hide PageFifo.Abs, PageFifo.Valid, Shaped;
      drop := Drop(drop.count + 1, frameId, tcg);
    }

    method FreeupChannel(i: nat, io: FrameIO)
      requires Valid() && i < MAXCHANS && LastApart(FlowNow(), i)
      modifies pages, pages.pagealloc, meta, last
      ensures Valid() && FlowNow() == FreeupOne(old(FlowNow()), i, io)
    {
      ghost var f := FlowNow();
      var pg := last[i].page;
      if last[i].kind == Played {
        pages.Free(pg);
      }
      if last[i].kind == Captured {
        meta[pg] := meta[pg].(audioptr := io.aptr, tcSdi1 := io.sdi1, tcSdi2 := io.sdi2, tcLtc := io.ltc);
        assert meta[..] == f.meta[pg := StampedMeta(f.meta[pg], io)];
        var _ := pages.Push(pg);
      }
      last[i] := last[i].(kind := Nothing);
      assert last[..] == f.last[i := f.last[i].(kind := Nothing)];
    }

    /** Frees up what the previous frame showed or captured. */
    method StreamFreeup(io: FrameIO)
      requires Valid() && Disciplined(FlowNow())
      modifies pages, pages.pagealloc, meta, last
      ensures Valid() && FlowNow() == Freeup(old(FlowNow()), io)
    {
      FreeupChannel(0, io);
      FreeupChannel(1, io);
    }

    method StreamPlaybackFrame(chan: nat) returns (ret: int)
      requires Valid() && chan < MAXCHANS
      modifies this`output, this`skipped, pages, pages.pagealloc, last
      ensures Valid() && Moved(FlowNow(), ret) == PlaybackFrame(old(FlowNow()), chan)
    {
      ghost var f := FlowNow();
      var newp := pages.Pop();
      if newp < 0 { return -ENOMEM; }
      assert newp == f.pool.queue[0];
      if meta[newp].chan != chan {
        skipped := skipped + [newp];
        return -EINVAL;
      }
      output := output[chan := newp];
      last[chan] := LastPage(Played, newp);
      assert last[..] == f.last[chan := LastPage(Played, newp)];
      return newp;
    }

    /** Pops one page for every channel without showing it. */
    method SkipFrame() returns (ret: int)
      requires Valid()
      modifies this`skipped, pages, pages.pagealloc
      ensures Valid() && Moved(FlowNow(), ret) == PopMany(old(FlowNow()), chans)
    {
      hide PageFifo.Valid, PopMany, Shaped;
      var n := 0;
      while n < chans
        invariant 0 <= n <= chans && Valid()
        invariant PopMany(old(FlowNow()), chans) == PopMany(FlowNow(), chans - n)
      {
        ghost var f := FlowNow();
        PopManyUnfolds(f, chans - n);
        ret := pages.Pop();
        assert FlowNow() == Pop(f).flow;
        if ret < 0 { return; }
        skipped := skipped + [ret];
        n := n + 1;
      }
      assert PopMany(FlowNow(), 0) == Moved(FlowNow(), 0) by { PopManyEnds(FlowNow()); }
      ret := 0;
    }

    /** Skips bumpsize frames; a short FIFO is recorded as a drop. */
    method StreamBump(bumpsize: int) returns (ret: int)
      requires Valid()
      modifies this`skipped, this`drop, pages, pages.pagealloc
      ensures Valid() && Moved(FlowNow(), ret) == Bump(old(FlowNow()), chans, bumpsize)
      ensures drop == if ret == DROPPED then Drop(old(drop).count + 1, frameId, tcg) else old(drop)
    {
      hide PageFifo.Valid, Bump, PopMany, Shaped;
      var i := 0;
      while i < bumpsize
        invariant 0 <= i && Valid() && drop == old(drop)
        invariant Bump(old(FlowNow()), chans, bumpsize) == Bump(FlowNow(), chans, bumpsize - i)
      {
        BumpUnfolds(FlowNow(), chans, bumpsize - i);
        if pages.fifo < chans {
          StreamDrop();
          return DROPPED;
        }
        ret := SkipFrame();
        if ret < 0 { return; }
        i := i + 1;
      }
      BumpEnds(FlowNow(), chans, bumpsize - i);
      ret := 0;
    }

    /** Loads the next page of every channel; returns the page of channel 0. */
    method StreamLoad() returns (ret: int)
      requires Valid()
      modifies this`output, this`skipped, pages, pages.pagealloc, last
      ensures Valid() && Moved(FlowNow(), ret) == LoadFrames(old(FlowNow()), chans, 0, 0)
    {
      var newp := 0;
      var n := 0;
      while n < chans
        invariant 0 <= n <= chans && Valid() && IsValidPage(newp)
        invariant LoadFrames(old(FlowNow()), chans, 0, 0) == LoadFrames(FlowNow(), chans, n, newp)
      {
        ret := StreamPlaybackFrame(n);
        if ret < 0 { return; }
        if n == 0 { newp := ret; }
        n := n + 1;
      }
      ret := newp;
    }

    /** Hands timecode and private data of the shown page over, then zeroes its metadata. */
    method TakeMeta(newp: int)
      requires Valid() && IsValidPage(newp)
      modifies this`tcg, this`time, meta
      ensures Valid() && Abs() == Shown(old(Abs()), newp)
    {
      ghost var f := FlowNow();
      var tc := meta[newp].tcInternal;
      if tc.At? { tcg := tc; }
      time := time.(priv := meta[newp].priv);
      meta[newp] := ZERO_META;
      assert meta[..] == f.meta[newp := ZERO_META];
    }

    method StreamPlayFrames(bumpsize: int) returns (ret: int)
      requires Valid()
      modifies this`output, this`skipped, this`drop, pages, pages.pagealloc, last
      ensures Valid() && Outcome(Abs(), ret) == PlayFrames(old(Abs()), bumpsize)
    {
      hide Shaped, PageFifo.Abs, PageFifo.Valid;
      ret := StreamBump(bumpsize);
      if ret < 0 { return; }
      ret := StreamLoad();
    }

    method StreamPlayback()
      requires Valid()
      modifies this, pages, pages.pagealloc, last, meta
      ensures Valid() && Abs() == Playback(old(Abs()))
    {
      if !flags.playback { return; }
      if pages.fifo < chans {
        StreamDrop();
        return;
      }
      var ret := StreamSpeedCount();
      if ret == 0 { return; }
      ret := StreamPlayFrames(ret - 1);
      if ret < 0 { return; }
      TakeMeta(ret);
    }

    method StreamCaptureFrame(chan: nat) returns (ret: int)
      requires Valid() && chan < MAXCHANS && QueuedInUse(FlowNow().pool)
      modifies this`input, pages, pages.pagealloc, last
      ensures Valid() && Moved(FlowNow(), ret) == CaptureFrame(old(FlowNow()), pagect, chan)
      ensures QueuedInUse(FlowNow().pool)
    {
      hide PageFifo.Valid, FirstFree;
      ghost var f := FlowNow();
      var newp := pages.Alloc(pagect);
      if newp < 0 { return -ENOMEM; }
      input := input[chan := newp];
      last[chan] := LastPage(Captured, newp);
      assert last[..] == f.last[chan := LastPage(Captured, newp)];
      return newp;
    }

    method StreamCaptureFrames(inc: int)
      requires Valid() && QueuedInUse(FlowNow().pool)
      modifies this`input, pages, pages.pagealloc, last, meta
      ensures Valid() && Abs() == CaptureNext(old(Abs()), inc)
    {
      hide PageFifo.Abs, PageFifo.Valid;
      var n := 0;
      ghost var c := Clock(frameId, time, tcg, tcgRunning);
      while n < chans
        invariant 0 <= n <= chans && Valid() && QueuedInUse(FlowNow().pool)
        invariant CaptureFrames(old(FlowNow()), pagect, chans, c, 0, inc)
               == CaptureFrames(FlowNow(), pagect, chans, c, n, inc)
      {
        ghost var f := FlowNow();
        var ret := StreamCaptureFrame(n);
        if ret < 0 { return; }
        meta[ret] := ZERO_META.(timing := time, chan := n, inc := inc, priv := time.priv, tcInternal := tcg);
        assert meta[..] == f.meta[ret := CapturedMeta(c, n, inc)];
        n := n + 1;
      }
    }

    method BumpTimecode(inc: int)
      requires Valid()
      modifies this`tcg
      ensures Valid() && Abs() == AdjustTcg(old(Abs()), inc)
    {
      if inc == 0 {
        tcg := tcg.Dec();
      } else if inc > 0 {
        var n := 0;
        while n < inc - 1
          invariant 0 <= n <= inc - 1 && tcg == IncMany(old(tcg), n)
        {
          tcg := tcg.Inc();
          n := n + 1;
        }
      }
    }

    method StreamCapture()
      requires Valid() && QueuedInUse(FlowNow().pool)
      modifies this, pages, pages.pagealloc, last, meta
      ensures Valid() && Abs() == Capture(old(Abs()))
    {
      if !flags.capture { return; }
      if pagect - pages.fifo <= chans {
        StreamDrop();
        return;
      }
      var inc := StreamSpeedCount();
      BumpTimecode(inc);
      StreamCaptureFrames(inc);
    }

    method StartOfFrame(io: FrameIO)
      requires Valid()
      modifies this
      ensures Valid() && Abs() == BeginFrame(old(Abs()), io)
    {
      hide PageFifo.Abs, PageFifo.Valid, Shaped;
      var trig := trigger;
      frameId := frameId + 1;
      if tcgRunning { tcg := tcg.Inc(); }
      if trig != 0 && trig == frameId { StreamStart(); }
      time := time.(id := frameId, line := io.line, timer := io.timer);
    }

    /** The streams are handled only when running was set before the trigger check. */
    method RunEngine()
      requires Valid() && QueuedInUse(FlowNow().pool)
      modifies this, pages, pages.pagealloc, last, meta
      ensures Valid() && Abs() == Engine(old(Abs()))
    {
      atrig := false;
      PlaybackKeepsQueuedInUse(Abs());
      StreamPlayback();
      StreamCapture();
    }

    method EndOfFrame()
      requires Valid()
      modifies this`time
      ensures Valid() && Abs() == EndFrame(old(Abs()))
    {
      hide PageFifo.Abs, PageFifo.Valid, Shaped;
      time := time.(tcg := tcg);
    }

    /** The output vertical interrupt. */
    method HandleFrame(io: FrameIO)
      requires Valid() && Disciplined(FlowNow())
      modifies this, pages, pages.pagealloc, last, meta
      ensures Valid() && Abs() == Frame(old(Abs()), io)
    {
      if io.field { return; }
      var srun := running;
      StartOfFrame(io);
      FreeupKeepsQueuedInUse(FlowNow(), io);
      StreamFreeup(io);
      if srun { RunEngine(); }
      EndOfFrame();
    }
  }
}
