/** What a captured frame says about itself: from the interrupt that starts its capture,
    over whatever users do meanwhile, to the interrupt that queues it. */
module CaptureContents {
  import opened PageList
  import opened StreamTypes
  import opened PageFlow
  import opened StreamSpec
  import opened Ownership
  import opened CaptureOrder
  import opened CaptureSlack
  import opened WireRegisters

  /** The metadata the release of slot l puts into the queue. */
  function Stamps(meta: seq<Meta>, l: LastPage, io: FrameIO): seq<Meta>
    requires |meta| == MAXPAGES && (l.kind == Captured ==> IsValidPage(l.page))
  {
    if l.kind == Captured then [StampedMeta(meta[l.page], io)] else []
  }

  function Incoming(f: Flow, io: FrameIO): seq<Meta>
    requires Shaped(f)
  {
    Stamps(f.meta, f.last[0], io) + Stamps(f.meta, f.last[1], io)
  }

  lemma FreeupOneQueues(f: Flow, i: nat, io: FrameIO, held: set<int>)
    requires Shaped(f) && Owned(f, held) && i < MAXCHANS && NothingPlayed(f)
    ensures var r := FreeupOne(f, i, io);
      && QueuedMetas(r) == QueuedMetas(f) + Stamps(f.meta, f.last[i], io)
      && r.last[1 - i] == f.last[1 - i] && Stamps(r.meta, r.last[1 - i], io) == Stamps(f.meta, f.last[1 - i], io)
  {
    var r, q, p := FreeupOne(f, i, io), f.pool.queue, f.last[i].page;
    if f.last[i].kind == Captured {
      OwnedIsDisciplined(f, held);
      assert LastApart(f, i);
      assert Balance(f, held, p) == 0;
      assert f.last[1 - i].kind == Captured ==> f.last[1 - i].page != p;
      assert r.pool.queue == q + [p];
      forall k | 0 <= k < |q| ensures q[k] != p { CountAt(q, k); }
    }
  }

  lemma FreeupQueues(f: Flow, io: FrameIO, held: set<int>, pagect: int)
    requires Shaped(f) && Owned(f, held) && NothingPlayed(f) && LevelExact(f.pool) && UsedBelow(f.pool, pagect)
    ensures QueuedMetas(Freeup(f, io)) == QueuedMetas(f) + Incoming(f, io)
  {
    FreeupOneQueues(f, 0, io, held);
    FreeupOneKeeps(f, 0, io, held, pagect);
    FreeupOneQueues(FreeupOne(f, 0, io), 1, io, held);
  }

  /** An interrupt queues exactly the frame captured before, completed with what it reads. */
  lemma FrameQueues(w: World, io: FrameIO)
    requires OrderInv(w) && !io.field
    ensures QueuedMetas(Step(w, FrameIrq(io)).s.flow) == QueuedMetas(w.s.flow) + Incoming(w.s.flow, io)
    ensures Step(w, FrameIrq(io)).s.flow.pool.queue == Pending(w.s.flow)
  {
    hide Freeup, Engine, QueuedMetas, Incoming, Pending, PendingKeys, Sorted, UsedBelow, LevelExact;
    FrameQueuesPages(w, io);
    var b := BeginFrame(w.s, io);
    var f := Released(w.s, io);
    FreeupQueues(b.flow, io, w.held, b.cfg.pagect);
    FreeupKeepsPending(b.flow, io, w.held, b.cfg.pagect);
    FreeupKeeps(b.flow, io, w.held, b.cfg.pagect);
    if w.s.ctl.running { var m := EngineAppends(f, w.held); }
  }

  lemma FrameQueuesPages(w: World, io: FrameIO)
    requires OrderInv(w) && !io.field
    ensures Step(w, FrameIrq(io)).s.flow.pool.queue == Pending(w.s.flow)
  {
    FreeupQueuesPages(w.s.flow, io);
    hide Freeup, Pending, CaptureFrames, OrderInv;
    CapturesOnly(w);
    var f := Released(w.s, io);
    CaptureKeepsQueue(f.(ctl := f.ctl.(atrig := false)));
  }

  lemma CapturesOnly(w: World)
    requires OrderInv(w)
    ensures Sane(w.s) && w.s.cfg.flags.capture && !w.s.cfg.flags.playback && NothingPlayed(w.s.flow)
  {
  }

  lemma FreeupQueuesPages(f: Flow, io: FrameIO)
    requires Shaped(f) && NothingPlayed(f)
    ensures Freeup(f, io).pool.queue == Pending(f)
  {
  }

  lemma CaptureKeepsQueue(s: State)
    requires Sane(s)
    ensures Capture(s).flow.pool.queue == s.flow.pool.queue
  {
    if !CaptureDrops(s) {
      var o := SpeedCount(s);
      CaptureFramesKeepQueue(s.flow, s.cfg.pagect, s.cfg.chans, AdjustTcg(o.state, o.ret).clock, 0, o.ret);
    }
  }

  lemma {:induction false} CaptureFramesKeepQueue(f: Flow, pagect: int, chans: nat, c: Clock, n: nat, inc: int)
    requires Shaped(f) && n <= chans <= MAXCHANS && pagect <= MAXPAGES
    ensures CaptureFrames(f, pagect, chans, c, n, inc).flow.pool.queue == f.pool.queue
    decreases chans - n
  {
    if n < chans {
      var o := CaptureFrame(f, pagect, n);
      if 0 <= o.ret {
        CaptureFramesKeepQueue(o.flow.(meta := f.meta[o.ret := CapturedMeta(c, n, inc)]), pagect, chans, c, n + 1, inc);
      }
    }
  }

  /** Slots n..m hold captured pages in use, with this metadata. */
  ghost predicate Holds(f: Flow, n: nat, m: nat, c: Clock, inc: int)
    requires Shaped(f) && m <= MAXCHANS
  {
    forall i :: n <= i < m ==>
      && f.last[i].kind == Captured && f.pool.inuse[f.last[i].page]
      && f.meta[f.last[i].page] == CapturedMeta(c, i, inc)
  }

  lemma {:induction false} CaptureFramesFill(f: Flow, pagect: int, chans: nat, c: Clock, n: nat, inc: int)
    requires Shaped(f) && n <= chans <= MAXCHANS && pagect <= MAXPAGES && Holds(f, 0, n, c, inc)
    requires LastIdle(f, n) && 0 <= CaptureFrames(f, pagect, chans, c, n, inc).ret
    ensures Holds(CaptureFrames(f, pagect, chans, c, n, inc).flow, 0, chans, c, inc)
    ensures LastIdle(CaptureFrames(f, pagect, chans, c, n, inc).flow, chans)
    decreases chans - n
  {
    if n < chans {
      var o := CaptureFrame(f, pagect, n);
      var t := o.flow.(meta := f.meta[o.ret := CapturedMeta(c, n, inc)]);
      forall i | 0 <= i < n ensures f.last[i].page != o.ret { }
      assert Holds(t, 0, n + 1, c, inc);
      CaptureFramesFill(t, pagect, chans, c, n + 1, inc);
    }
  }

  /** The slots hold the channels of the frame just begun: its number and times, the frames it
      stands for, and the generator's timecode. */
  ghost predicate HoldsFrame(s: State, io: FrameIO, inc: int, tcg: Timecode)
    requires Sane(s)
  {
    forall i :: 0 <= i < s.cfg.chans ==>
      && s.flow.last[i].kind == Captured && s.flow.input[i] == s.flow.last[i].page
      && var m := s.flow.meta[s.flow.last[i].page];
         && m.chan == i && m.inc == inc && m.tcInternal == s.clock.tcg && m.flags == 0
         && m.priv == s.clock.time.priv && m.timing == s.clock.time.(tcg := tcg)
         && m.timing.id == s.clock.frameId && m.timing.line == io.line && m.timing.timer == io.timer
  }

  /** The frame neither drops nor runs out of pages. */
  predicate Captures(w: World, io: FrameIO)
    requires Sane(w.s)
  {
    w.s.ctl.running && !io.field && !CaptureDrops(Released(w.s, io)) && 0 <= CaptureRet(Released(w.s, io))
  }

  lemma EngineCaptures(s: State)
    requires Sane(s) && s.cfg.flags.capture && !s.cfg.flags.playback && LastIdle(s.flow, 0)
    requires !CaptureDrops(s) && 0 <= CaptureRet(s)
    ensures var r, o := Engine(s), SpeedCount(s);
      && r.cfg == s.cfg && r.clock == AdjustTcg(o.state, o.ret).clock
      && Holds(r.flow, 0, s.cfg.chans, r.clock, o.ret) && LastIdle(r.flow, s.cfg.chans)
  {
    var o := SpeedCount(s);
    CaptureFramesFill(s.flow, s.cfg.pagect, s.cfg.chans, AdjustTcg(o.state, o.ret).clock, 0, o.ret);
    hide CaptureFrames, Holds, LastIdle, IncMany;
  }

  lemma FrameCaptures(w: World, io: FrameIO)
    requires OrderInv(w) && Captures(w, io)
    ensures var r := Step(w, FrameIrq(io)).s;
      && r.clock.frameId == w.s.clock.frameId + 1 && r.cfg == w.s.cfg
      && HoldsFrame(r, io, SpeedFrames(w.s.rate), w.s.clock.time.tcg) && r.clock.time.priv == w.s.clock.time.priv && LastIdle(r.flow, r.cfg.chans)
  {
    var b := BeginFrame(w.s, io);
    FreeupKeeps(b.flow, io, w.held, b.cfg.pagect);
    var f := Released(w.s, io);
    assert f.rate == w.s.rate && f.cfg == w.s.cfg;
    EngineCaptures(f);
    assert Step(w, FrameIrq(io)).s == EndFrame(Engine(f));
    FrameSetsRegisters(w, io);
    hide Engine, Freeup, IncMany, CaptureRet, CaptureDrops;
  }

  // ----- between the interrupts

  /** User calls, and second fields. */
  predicate NoFrame(es: seq<Event>) {
    forall i :: 0 <= i < |es| ==> es[i].FrameIrq? ==> es[i].io.field
  }

  lemma {:induction false} WaitKeeps(w: World, es: seq<Event>)
    requires OrderInv(w) && CaptureRun(w, es) && NoFrame(es)
    ensures var r := Run(w, es).s;
      && r.flow.last == w.s.flow.last && r.flow.meta == w.s.flow.meta && r.cfg == w.s.cfg && r.flow.input == w.s.flow.input
    decreases |es|
  {
    if es != [] {
      StepKeepsOrder(w, es[0]);
      WaitKeeps(Step(w, es[0]), es[1..]);
    }
  }

  /** The whole frame as its readers find it. */
  ghost predicate Describes(ms: seq<Meta>, chans: nat, id: int, io: FrameIO, io2: FrameIO, inc: int, tcg: Timecode, priv: int) {
    && |ms| == chans
    && forall i {:trigger ms[i]} :: 0 <= i < chans ==>
         && ms[i].chan == i && ms[i].inc == inc && ms[i].tcInternal == tcg && ms[i].priv == ms[i].timing.priv == priv
         && ms[i].flags == 0
         && ms[i].timing.id == id && ms[i].timing.line == io.line && ms[i].timing.timer == io.timer
         && ms[i].audioptr == io2.aptr && ms[i].tcSdi1 == io2.sdi1 && ms[i].tcSdi2 == io2.sdi2 && ms[i].tcLtc == io2.ltc
  }

  lemma HeldFrameDescribes(f: Flow, s: State, io: FrameIO, io2: FrameIO, inc: int, tcg: Timecode)
    requires Sane(s) && HoldsFrame(s, io, inc, tcg) && Shaped(f) && f.last == s.flow.last && f.meta == s.flow.meta
    requires LastIdle(f, s.cfg.chans)
    ensures Describes(Incoming(f, io2), s.cfg.chans, s.clock.frameId, io, io2, inc, s.clock.tcg, s.clock.time.priv)
  {
  }

  /** A frame that is captured reaches the queue at the next frame's interrupt, whatever users do
      in between: one entry for each channel, at the end, with the number, times and timecode of
      the interrupt that began it and the inputs and audio position of the one that ended it. Each
      queued page is the one its channel's input register held all the while. */
  lemma CapturedFrameIsQueued(w: World, io: FrameIO, es: seq<Event>, io2: FrameIO)
    requires OrderInv(w) && Captures(w, io) && !io2.field
    requires CaptureRun(Step(w, FrameIrq(io)), es) && NoFrame(es)
    ensures var a := Step(w, FrameIrq(io)); var b := Run(a, es);
      var before, after := QueuedMetas(b.s.flow), QueuedMetas(Step(b, FrameIrq(io2)).s.flow);
      && before <= after
      && Describes(after[|before|..], w.s.cfg.chans, w.s.clock.frameId + 1, io, io2, SpeedFrames(w.s.rate), a.s.clock.tcg,
                   w.s.clock.time.priv)
      && b.s.flow.input == a.s.flow.input
      && Step(b, FrameIrq(io2)).s.flow.pool.queue == b.s.flow.pool.queue + a.s.flow.input[..w.s.cfg.chans]
  {
    hide Step;
    var a := Step(w, FrameIrq(io));
    var b := Run(a, es);
    StepKeepsOrder(w, FrameIrq(io));
    FrameCaptures(w, io);
    WaitKeeps(a, es);
    RunKeepsOrder(a, es);
    FrameQueues(b, io2);
    HeldFrameDescribes(b.s.flow, a.s, io, io2, SpeedFrames(w.s.rate), w.s.clock.time.tcg);
    HeldFramePages(b.s.flow, a.s, io, SpeedFrames(w.s.rate), w.s.clock.time.tcg);
  }

  lemma HeldFramePages(f: Flow, s: State, io: FrameIO, inc: int, tcg: Timecode)
    requires Sane(s) && HoldsFrame(s, io, inc, tcg) && Shaped(f) && f.last == s.flow.last && LastIdle(f, s.cfg.chans)
    ensures Pending(f) == f.pool.queue + s.flow.input[..s.cfg.chans]
  {
  }
}
