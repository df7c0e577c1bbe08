/** What whole playback runs show. */
module PlaybackRun {
  import opened Errno
  import opened PageList
  import opened StreamTypes
  import opened PageFlow
  import opened StreamSpec
  import opened Ownership
  import opened RateControl
  import opened PlaybackFlow

  ghost predicate NothingCaptured(f: Flow) {
    forall i :: 0 <= i < |f.last| ==> f.last[i].kind != Captured
  }

  // ----- channels in turn

  /** A playback stream whose queued pages belong to channels 0, 1, .. in turn. The FIFO may have
      run dry before, and the stream need not be running. */
  ghost predicate TurnInv(w: World) {
    && Inv(w) && ReadyToPlay(w.s) && NothingCaptured(w.s.flow)
    && 0 <= w.s.cfg.maxSpeed <= INT_MAX - (SPEED_DIVISOR - 1)
  }

  /** Pushed pages continue the channel pattern and queued metadata is left alone. */
  predicate TurnUse(w: World, e: Event)
    requires Sane(w.s)
  {
    && 1 <= w.s.cfg.chans
    && WellBehaved(w, e) && !e.UserPop? && (e.InitStream? ==> e.flags.playback)
    && (e.UserPush? && IsValidPage(e.page) ==> w.s.flow.meta[e.page].chan == |w.s.flow.pool.queue| % w.s.cfg.chans)
    && (e.UserMeta? && IsValidPage(e.page) ==> e.page in w.held)
    && (e.UserSpeed? ==> IsInt32(e.speed))
  }

  predicate TurnUses(w: World, es: seq<Event>)
    requires Sane(w.s)
    decreases |es|
  {
    es == [] || (TurnUse(w, es[0]) && TurnUses(Step(w, es[0]), es[1..]))
  }

  lemma InitStartsTurns(w: World, e: Event)
    requires Sane(w.s) && e.InitStream? && e.flags.playback && !e.flags.capture
    requires 0 <= w.s.cfg.maxSpeed <= INT_MAX - (SPEED_DIVISOR - 1)
    ensures TurnInv(Step(w, e)) && Step(w, e).s.flow.pool.queue == []
  {
    InitEstablishesInv(w, e);
  }

  /** Releasing shown pages touches neither the FIFO nor any metadata. */
  lemma FreeupOfPlayed(f: Flow, io: FrameIO)
    requires Shaped(f) && NothingCaptured(f)
    ensures var r := Freeup(f, io);
      && r == f.(pool := f.pool.(inuse := r.pool.inuse), last := r.last)
      && NothingCaptured(r)
  {
  }

  lemma ReleasedIsReady(w: World, io: FrameIO)
    requires TurnInv(w)
    ensures var f := Released(w.s, io);
      && ReadyToPlay(f) && NothingCaptured(f.flow) && f.cfg == w.s.cfg && f.rate == w.s.rate
      && f.ctl.drop == w.s.ctl.drop && (w.s.ctl.running ==> f.ctl.running)
      && f.flow.meta == w.s.flow.meta && f.flow.pool == w.s.flow.pool.(inuse := f.flow.pool.inuse)
  {
    FreeupOfPlayed(w.s.flow, io);
    hide Freeup;
  }

  lemma SkippedTurns(f: Flow, c: nat, m: nat)
    requires Shaped(f) && 1 <= c <= 2 && Aligned(f, c) && NothingCaptured(f) && m <= |f.pool.queue| && m % c == 0
    ensures Shaped(Skipped(f, m)) && Aligned(Skipped(f, m), c) && NothingCaptured(Skipped(f, m))
  {
    SkippedKeepsAligned(f, c, m / c);
  }

  /** Whatever a frame does to the FIFO, its pages stay in turn. */
  lemma AfterPlaybackTurns(f: Flow, c: nat, n: nat)
    requires Shaped(f) && 1 <= c <= 2 && Aligned(f, c) && LevelFits(f.pool) && NothingCaptured(f) && Distinct(f.pool.queue)
    ensures var r := AfterPlayback(f, c, n); Shaped(r) && Aligned(r, c) && NothingCaptured(r)
  {
    if f.pool.level >= c && n > 0 {
      var L, k := f.pool.level, (n - 1) * c;
      DemandFacts(L, c, n);
      if k > L {
        assert L / c * c % c == 0 by { if c == 2 {} }
        SkippedTurns(f, c, L / c * c);
      } else if n * c <= |f.pool.queue| {
        ShownAfterSkip(f, c, k);
        SkippedKeepsAligned(f, c, n);
        AlignedAfterShow(f, c, n);
      } else {
        UnderflowTurns(Skipped(f, k), |f.pool.queue| - k);
      }
    }
  }

  lemma UnderflowTurns(f: Flow, m: nat)
    requires Shaped(f) && NothingCaptured(f) && m == |f.pool.queue| < MAXCHANS
    ensures var r := Underflown(Loaded(f, m)); Shaped(r) && NothingCaptured(r) && r.pool.queue == []
  {
  }

  lemma EngineTurns(s: State)
    requires ReadyToPlay(s) && !s.cfg.flags.capture && NothingCaptured(s.flow) && Distinct(s.flow.pool.queue)
    ensures var r := Engine(s);
      && r.cfg == s.cfg && RateOk(r.rate) && Aligned(r.flow, r.cfg.chans) && NothingCaptured(r.flow)
  {
    var a := s.(ctl := s.ctl.(atrig := false));
    assert Engine(s) == Playback(a);
    hide Engine, Playback;
    OneTick(s.rate);
    PlaybackMoves(a);
    hide AfterPlayback, SpeedFrames, Aligned;
    AfterPlaybackTurns(s.flow, s.cfg.chans, SpeedFrames(s.rate));
  }

  lemma FrameTurns(w: World, io: FrameIO)
    requires TurnInv(w) && !io.field
    ensures TurnInv(Step(w, FrameIrq(io)))
  {
    StepKeepsInv(w, FrameIrq(io));
    OwnedIsDistinct(w.s.flow, w.held);
    ReleasedIsReady(w, io);
    var f := Released(w.s, io);
    if w.s.ctl.running { EngineTurns(f); }
    var r := Step(w, FrameIrq(io));
    assert r.s == EndFrame(if w.s.ctl.running then Engine(f) else f);
    hide Engine, Released, Step, Aligned;
  }

  /** The pages a step appends to the FIFO. */
  function Pushed(w: World, e: Event): seq<int> {
    if e.UserPush? && IsValidPage(e.page) then [e.page] else []
  }

  lemma OtherStepTurns(w: World, e: Event)
    requires TurnInv(w) && TurnUse(w, e) && !e.InitStream? && (e.FrameIrq? ==> e.io.field)
    ensures var r := Step(w, e);
      && TurnInv(r) && r.s.flow.pool.queue == w.s.flow.pool.queue + Pushed(w, e) && r.s.cfg == w.s.cfg
      && r.s.flow.pool.emptyPops == w.s.flow.pool.emptyPops && r.s.ctl.drop == w.s.ctl.drop
      && (w.s.ctl.running ==> r.s.rate.spdct == w.s.rate.spdct && (!e.StopRun? ==> r.s.ctl.running))
  {
    StepKeepsInv(w, e);
    var f := w.s.flow;
    if e.UserSpeed? { ClampIs(e.speed, w.s.cfg.maxSpeed); }
    if e.UserMeta? && IsValidPage(e.page) {
      forall i | 0 <= i < |f.pool.queue| ensures f.pool.queue[i] != e.page {
        QueuedIsApart(f, w.held, i);
      }
    }
  }

  lemma StepTurns(w: World, e: Event)
    requires TurnInv(w) && TurnUse(w, e)
    ensures TurnInv(Step(w, e))
  {
    hide Step;
    if e.FrameIrq? && !e.io.field {
      FrameTurns(w, e.io);
    } else if e.InitStream? {
      InitStartsTurns(w, e);
    } else {
      OtherStepTurns(w, e);
    }
  }

  /** The channels stay in turn over every run whose users push in turn: through drops,
      underflows, stops and new starts, at any speeds. */
  lemma {:induction false} RunKeepsTurns(w: World, es: seq<Event>)
    requires TurnInv(w) && TurnUses(w, es)
    ensures TurnInv(Run(w, es))
    decreases |es|
  {
    if es != [] {
      hide Step, TurnInv;
      StepTurns(w, es[0]);
      RunKeepsTurns(Step(w, es[0]), es[1..]);
    }
  }

  /** Bump and load of the coming frame meet a page of the wrong channel. */
  predicate MeetsWrongChannel(s: State)
    requires Sane(s)
  {
    BumpAndLoad(s.flow, s.cfg.chans, SpeedFrames(s.rate) - 1).ret == -EINVAL
  }

  lemma LoadsInTurn(s: State)
    requires ReadyToPlay(s) && s.cfg.chans <= s.flow.pool.level && 1 <= SpeedFrames(s.rate)
    ensures !MeetsWrongChannel(s)
  {
    hide BumpAndLoad, Aligned, SpeedFrames;
    BumpAndLoadIs(s.flow, s.cfg.chans, SpeedFrames(s.rate));
  }

  /** So no frame that gets as far as loading ever meets a page of the wrong channel. */
  lemma NoWrongChannel(w: World, es: seq<Event>, io: FrameIO)
    requires TurnInv(w) && TurnUses(w, es)
    requires Run(w, es).s.cfg.chans <= Run(w, es).s.flow.pool.level && 1 <= SpeedFrames(Run(w, es).s.rate)
    ensures !MeetsWrongChannel(Released(Run(w, es).s, io))
  {
    hide MeetsWrongChannel;
    RunKeepsTurns(w, es);
    ReleasedIsReady(Run(w, es), io);
    hide Released, Run, TurnInv, TurnUses;
    LoadsInTurn(Released(Run(w, es).s, io));
  }

  // ----- runs in which the FIFO keeps up

  /** Every frame finds the pages it asks for. */
  predicate PlaybackUse(w: World, e: Event)
    requires Sane(w.s)
  {
    && TurnUse(w, e) && !e.InitStream? && !e.StopRun?
    && (e.FrameIrq? && !e.io.field ==> w.s.cfg.chans <= w.s.flow.pool.level && Demand(w.s) <= w.s.flow.pool.level)
  }

  predicate PlaybackUses(w: World, es: seq<Event>)
    requires Sane(w.s)
    decreases |es|
  {
    es == [] || (PlaybackUse(w, es[0]) && PlaybackUses(Step(w, es[0]), es[1..]))
  }

  ghost predicate PlayInv(w: World) {
    TurnInv(w) && w.s.ctl.running
  }

  /** A stream set up for playback, filled in turn and started is ready for such a run. */
  lemma PlaybackStarts(w: World, e: Event, fill: seq<Event>)
    requires Sane(w.s) && e.InitStream? && e.flags.playback && !e.flags.capture
    requires 0 <= w.s.cfg.maxSpeed <= INT_MAX - (SPEED_DIVISOR - 1)
    requires TurnUses(Step(w, e), fill)
    ensures PlayInv(Step(Run(Step(w, e), fill), StartRun))
  {
    InitStartsTurns(w, e);
    RunKeepsTurns(Step(w, e), fill);
    var r := Run(Step(w, e), fill);
    hide Run, TurnUses;
    StepTurns(r, StartRun);
  }

  /** Each channel's register and last page are the queued page k further on, of that channel. */
  ghost predicate ShowsFrom(f: Flow, r: Flow, c: nat, k: int)
    requires Shaped(f) && Shaped(r) && c <= MAXCHANS
  {
    && 0 <= k && k + c <= |f.pool.queue|
    && forall ch {:trigger r.output[ch]} :: 0 <= ch < c ==>
         && r.output[ch] == f.pool.queue[k + ch]
         && r.last[ch] == LastPage(Played, f.pool.queue[k + ch])
         && f.meta[f.pool.queue[k + ch]].chan == ch
  }

  /** What one frame shows: the last of the due frames, if any is due. */
  ghost predicate Shows(s: State, r: State)
    requires Sane(s) && Sane(r)
  {
    var n, c := SpeedFrames(s.rate), s.cfg.chans;
    n > 0 ==> ShowsFrom(s.flow, r.flow, c, (n - 1) * c)
  }

  lemma ChannelOf(f: Flow, c: nat, k: nat, ch: nat)
    requires Shaped(f) && 1 <= c <= 2 && Aligned(f, c) && k % c == 0 && ch < c && k + ch < |f.pool.queue|
    ensures f.meta[f.pool.queue[k + ch]].chan == ch
  {
    assert (k + ch) % c == ch by { if c == 1 {} else { assert k == 2 * (k / 2); } }
  }

  /** The page movement of a frame that finds the n frames it asks for. */
  lemma AfterPlaybackShows(f: Flow, c: nat, n: nat)
    requires Shaped(f) && 1 <= c <= 2 && Aligned(f, c) && LevelFits(f.pool)
    requires c <= f.pool.level && n * c <= f.pool.level
    ensures var r := AfterPlayback(f, c, n);
      && 0 <= n * c && r.pool == f.pool.(queue := f.pool.queue[n * c..], level := f.pool.level - n * c)
      && Shaped(r) && (n > 0 ==> ShowsFrom(f, r, c, (n - 1) * c))
  {
    if n == 0 {
      assert f.pool.queue[0 * c..] == f.pool.queue;
    } else {
      DemandFacts(f.pool.level, c, n);
      ShownAfterSkip(f, c, (n - 1) * c);
    }
  }

  /** The engine part of such a frame, on a state whose shown pages were released. */
  lemma EngineShows(s: State)
    requires ReadyToPlay(s) && !s.cfg.flags.capture
    requires s.cfg.chans <= s.flow.pool.level && Demand(s) <= s.flow.pool.level
    ensures var n, c, q, r := SpeedFrames(s.rate), s.cfg.chans, s.flow.pool.queue, Engine(s);
      && 0 <= n && 0 <= n * c <= |q| && r.flow.pool.queue == q[n * c..] && r.flow.pool.emptyPops == s.flow.pool.emptyPops
      && r.ctl.drop == s.ctl.drop && r.rate == SpeedRest(s.rate) && r.ctl.running == s.ctl.running && Shows(s, r)
  {
    var a := s.(ctl := s.ctl.(atrig := false));
    assert Engine(s) == Playback(a);
    OneTick(s.rate);
    PlaybackShowsFlow(a);
    hide Engine, Playback, SpeedFrames, SpeedRest, ShowsFrom;
    PlaybackKeepsControl(a);
  }

  lemma PlaybackShowsFlow(s: State)
    requires ReadyToPlay(s) && s.cfg.chans <= s.flow.pool.level && Demand(s) <= s.flow.pool.level
    ensures var n, c, q, r := SpeedFrames(s.rate), s.cfg.chans, s.flow.pool.queue, Playback(s).flow;
      && 0 <= n && 0 <= n * c <= |q| && r.pool.queue == q[n * c..] && r.pool.emptyPops == s.flow.pool.emptyPops
      && (n > 0 ==> ShowsFrom(s.flow, r, c, (n - 1) * c))
  {
    hide Playback, AfterPlayback, SpeedFrames, ShowsFrom, Aligned;
    PlaybackMoves(s);
    AfterPlaybackShows(s.flow, s.cfg.chans, SpeedFrames(s.rate));
  }

  lemma PlaybackKeepsControl(s: State)
    requires ReadyToPlay(s) && s.cfg.chans <= s.flow.pool.level && Demand(s) <= s.flow.pool.level
    ensures var r := Playback(s); r.ctl == s.ctl && r.rate == SpeedRest(s.rate)
  {
    OneTick(s.rate);
    var n, c := SpeedFrames(s.rate), s.cfg.chans;
    if n > 0 {
      DemandFacts(s.flow.pool.level, c, n);
      BumpAndLoadIs(s.flow, c, n);
    }
    hide BumpAndLoad, SpeedFrames, SpeedRest, Aligned, Loaded, Skipped;
  }

  lemma ShownAfterSkip(f: Flow, c: nat, k: nat)
    requires Shaped(f) && 1 <= c <= 2 && k + c <= |f.pool.queue| && k % c == 0 && Aligned(f, c)
    ensures var r, q := Loaded(Skipped(f, k), c), f.pool.queue;
      && r.pool == f.pool.(queue := q[k + c..], level := f.pool.level - k - c)
      && Shaped(r) && ShowsFrom(f, r, c, k) && r.meta == f.meta
      && (forall ch :: c <= ch < MAXCHANS ==> r.last[ch] == f.last[ch])
  {
    assert f.pool.queue[k..][c..] == f.pool.queue[k + c..];
    var r := Loaded(Skipped(f, k), c);
    forall ch | 0 <= ch < c
      ensures r.output[ch] == f.pool.queue[k + ch] && f.meta[f.pool.queue[k + ch]].chan == ch
    {
      ChannelOf(f, c, k, ch);
      hide Aligned;
      assert r.output[ch] == f.pool.queue[k..][ch];
    }
  }

  /** The rest of the FIFO keeps its pattern although the shown page's metadata was zeroed. */
  lemma AlignedAfterShow(f: Flow, c: nat, n: nat)
    requires Shaped(f) && 1 <= c <= 2 && 1 <= n && 0 <= (n - 1) * c && n * c == (n - 1) * c + c <= |f.pool.queue|
    requires Distinct(f.pool.queue) && Aligned(Skipped(f, n * c), c)
    ensures var m, t := f.meta[f.pool.queue[(n - 1) * c] := ZERO_META], f.pool.queue[n * c..];
      forall i :: 0 <= i < |t| ==> m[t[i]].chan == i % c
  {
    var t := f.pool.queue[n * c..];
    forall i | 0 <= i < |t| ensures t[i] != f.pool.queue[(n - 1) * c] && f.meta[t[i]].chan == i % c {
      assert t[i] == f.pool.queue[n * c + i] == Skipped(f, n * c).pool.queue[i];
    }
  }

  lemma ShowsAlike(s: State, s': State, r: State, r': State)
    requires Sane(s) && Sane(s') && Sane(r) && Sane(r') && s.rate == s'.rate && s.cfg == s'.cfg && r.flow == r'.flow
    requires s.flow.pool.queue == s'.flow.pool.queue && s.flow.meta == s'.flow.meta && Shows(s', r')
    ensures Shows(s, r)
  {
    hide SpeedFrames;
  }

  /** A playback frame that finds its pages: it takes exactly its demand from the FIFO, shows
      the last frame of it on matching channels, and neither drops nor underflows. */
  lemma PlaybackTick(w: World, io: FrameIO)
    requires PlayInv(w) && PlaybackUse(w, FrameIrq(io)) && !io.field
    ensures var r := Step(w, FrameIrq(io));
      && PlayInv(r) && Shows(w.s, r.s)
      && 0 <= Demand(w.s) <= |w.s.flow.pool.queue| && r.s.flow.pool.queue == w.s.flow.pool.queue[Demand(w.s)..]
      && r.s.rate == SpeedRest(w.s.rate) && r.s.cfg == w.s.cfg
      && r.s.ctl.drop == w.s.ctl.drop && r.s.flow.pool.emptyPops == w.s.flow.pool.emptyPops
  {
    FrameTurns(w, io);
    ReleasedIsReady(w, io);
    var f := Released(w.s, io);
    assert Step(w, FrameIrq(io)).s == EndFrame(Engine(f));
    hide Step, Engine, Released, SpeedFrames, SpeedRest, ShowsFrom;
    EngineShows(f);
    ShowsAlike(w.s, f, EndFrame(Engine(f)), Engine(f));
  }

  /** What a shown page brings along: its timecode if it has one, and its private word. */
  ghost predicate Follows(s: State, r: State, p: int)
    requires Sane(s) && Sane(r) && IsValidPage(p)
  {
    var m := s.flow.meta[p];
    var tcg := if s.clock.tcgRunning then s.clock.tcg.Inc() else s.clock.tcg;
    && r.clock.tcg == (if m.tcInternal.At? then m.tcInternal else tcg)
    && r.clock.time.tcg == r.clock.tcg && r.clock.time.priv == m.priv
    && r.flow.meta == s.flow.meta[p := ZERO_META]
  }

  lemma PlaybackTakes(s: State)
    requires ReadyToPlay(s) && 1 <= SpeedFrames(s.rate)
    requires s.cfg.chans <= s.flow.pool.level && Demand(s) <= s.flow.pool.level
    ensures 0 <= (SpeedFrames(s.rate) - 1) * s.cfg.chans < |s.flow.pool.queue|
    ensures var p, r := s.flow.pool.queue[(SpeedFrames(s.rate) - 1) * s.cfg.chans], Playback(s);
      && r.clock == s.clock.(tcg := if s.flow.meta[p].tcInternal.At? then s.flow.meta[p].tcInternal else s.clock.tcg,
                             time := s.clock.time.(priv := s.flow.meta[p].priv))
      && r.flow.meta == s.flow.meta[p := ZERO_META]
  {
    hide PopMany, Bump, LoadFrames, BumpAndLoad, Aligned;
    DemandFacts(|s.flow.pool.queue|, s.cfg.chans, SpeedFrames(s.rate));
    LoadsLastDue(s.flow, s.cfg.chans, SpeedFrames(s.rate), (SpeedFrames(s.rate) - 1) * s.cfg.chans);
  }

  lemma LoadsLastDue(f: Flow, c: nat, n: nat, k: nat)
    requires Shaped(f) && 1 <= c <= 2 && 1 <= n && k == (n - 1) * c && k + c <= |f.pool.queue|
    requires k <= f.pool.level && c <= f.pool.level && LevelFits(f.pool) && Aligned(f, c)
    ensures var o := BumpAndLoad(f, c, n - 1); o.ret == f.pool.queue[k] && o.flow.meta == f.meta
  {
    BumpAligned(f, c, n);
    hide Bump, LoadFrames, Aligned;
    LoadAligned(Skipped(f, k), c);
    assert f.pool.queue[k..][0] == f.pool.queue[k];
  }

  /** The timecode of a playback stream is that of the page shown: a frame that finds its pages
      hands the generator and the frame time over to the last due page's metadata, which is then
      cleared, and touches no other page's. */
  lemma TimecodeFollowsPage(w: World, io: FrameIO)
    requires PlayInv(w) && PlaybackUse(w, FrameIrq(io)) && !io.field && 1 <= SpeedFrames(w.s.rate)
    ensures 0 <= (SpeedFrames(w.s.rate) - 1) * w.s.cfg.chans < |w.s.flow.pool.queue|
    ensures Follows(w.s, Step(w, FrameIrq(io)).s, w.s.flow.pool.queue[(SpeedFrames(w.s.rate) - 1) * w.s.cfg.chans])
  {
    ReleasedIsReady(w, io);
    var f := Released(w.s, io);
    var a := f.(ctl := f.ctl.(atrig := false));
    PlaybackTakes(a);
    assert Step(w, FrameIrq(io)).s == EndFrame(Playback(a));
    hide Playback, Step, Aligned, SpeedFrames;
    assert a.clock == BeginFrame(w.s, io).clock;
  }

  function Pushes(w: World, es: seq<Event>): seq<int>
    requires Sane(w.s)
    decreases |es|
  {
    if es == [] then [] else Pushed(w, es[0]) + Pushes(Step(w, es[0]), es[1..])
  }

  function FrameSpeed(w: World, e: Event): int {
    if e.FrameIrq? && !e.io.field then w.s.rate.speed else 0
  }

  /** The sum of the speeds in force at the frames of a run. */
  function FrameSpeeds(w: World, es: seq<Event>): int
    requires Sane(w.s)
    decreases |es|
  {
    if es == [] then 0 else FrameSpeed(w, es[0]) + FrameSpeeds(Step(w, es[0]), es[1..])
  }

  /** From s to r, the pages queued first and those pushed form one stream of which used were
      taken; the accumulator went through the speeds; nothing was dropped and no pop found the
      FIFO empty. */
  ghost predicate Consumed(s: State, pushed: seq<int>, speeds: int, r: State, used: int) {
    && 0 <= used <= |s.flow.pool.queue + pushed|
    && r.flow.pool.queue == (s.flow.pool.queue + pushed)[used..]
    && used == (s.rate.spdct + speeds) / SPEED_DIVISOR * s.cfg.chans
    && r.rate.spdct == (s.rate.spdct + speeds) % SPEED_DIVISOR
    && r.cfg.chans == s.cfg.chans
    && r.ctl.drop == s.ctl.drop && r.flow.pool.emptyPops == s.flow.pool.emptyPops
  }

  lemma TimesSum(m: int, n: int, c: nat)
    requires 1 <= c <= 2
    ensures (m + n) * c == m * c + n * c
  {
    if c == 1 {} else {}
  }

  lemma ConsumedTransitive(s: State, p: seq<int>, x: int, m: State, u: int, p': seq<int>, x': int, r: State, u': int)
    requires 1 <= s.cfg.chans <= 2 && Consumed(s, p, x, m, u) && Consumed(m, p', x', r, u')
    ensures Consumed(s, p + p', x + x', r, u + u')
  {
    var a := s.flow.pool.queue + p;
    assert s.flow.pool.queue + (p + p') == a + p';
    assert (a + p')[u..] == a[u..] + p';
    assert (a + p')[u..][u'..] == (a + p')[u + u'..];
    SplitDivision(s.rate.spdct + x, x');
    TimesSum((s.rate.spdct + x) / SPEED_DIVISOR, (m.rate.spdct + x') / SPEED_DIVISOR, s.cfg.chans);
  }

  lemma StepConsumes(w: World, e: Event) returns (used: int)
    requires PlayInv(w) && PlaybackUse(w, e)
    ensures PlayInv(Step(w, e)) && Consumed(w.s, Pushed(w, e), FrameSpeed(w, e), Step(w, e).s, used)
  {
    hide Step;
    OneTick(w.s.rate);
    if e.FrameIrq? && !e.io.field {
      PlaybackTick(w, e.io);
      used := Demand(w.s);
      assert w.s.flow.pool.queue + [] == w.s.flow.pool.queue;
    } else {
      OtherStepTurns(w, e);
      used := 0;
    }
  }

  lemma {:induction false} RunKeepsPlayInv(w: World, es: seq<Event>)
    requires PlayInv(w) && PlaybackUses(w, es)
    ensures PlayInv(Run(w, es))
    decreases |es|
  {
    if es != [] {
      var used := StepConsumes(w, es[0]);
      RunKeepsPlayInv(Step(w, es[0]), es[1..]);
    }
  }

  lemma ConsumedNothing(s: State)
    requires RateOk(s.rate)
    ensures Consumed(s, [], 0, s, 0)
  {
    assert s.flow.pool.queue + [] == s.flow.pool.queue;
  }

  /** No run in which the FIFO keeps up drops a frame, underflows or meets a wrong channel,
      whatever the speeds: it takes exactly chans pages of its stream for each whole frame of
      accumulated speed. */
  lemma {:induction false} PlaybackConsumes(w: World, es: seq<Event>) returns (used: int)
    requires PlayInv(w) && PlaybackUses(w, es)
    ensures Consumed(w.s, Pushes(w, es), FrameSpeeds(w, es), Run(w, es).s, used)
    decreases |es|
  {
    hide Step;
    if es == [] {
      ConsumedNothing(w.s);
      used := 0;
    } else {
      var u := StepConsumes(w, es[0]);
      var r, rest := Step(w, es[0]), es[1..];
      var u' := PlaybackConsumes(r, rest);
      ConsumedTransitive(w.s, Pushed(w, es[0]), FrameSpeed(w, es[0]), r.s, u,
                         Pushes(r, rest), FrameSpeeds(r, rest), Run(r, rest).s, u');
      used := u + u';
    }
  }

  /** The channel registers hold the frame that starts k pages into the stream. */
  ghost predicate ShowsStream(output: seq<int>, pages: seq<int>, c: nat, k: int)
    requires c <= |output|
  {
    0 <= k && k + c <= |pages| && output[..c] == pages[k..k + c]
  }

  lemma ShowsFurther(f: Flow, r: Flow, c: nat, k: nat, pages: seq<int>, used: nat)
    requires Shaped(f) && Shaped(r) && c <= MAXCHANS && ShowsFrom(f, r, c, k)
    requires used <= |pages| && f.pool.queue == pages[used..]
    ensures ShowsStream(r.output, pages, c, used + k)
  {
    forall ch | 0 <= ch < c ensures r.output[..c][ch] == pages[used + k..used + k + c][ch] {
      assert r.output[ch] == f.pool.queue[k + ch];
    }
  }

  /** No drift, end to end: after any such run, the frame that is shown next is the one whose
      number in the stream is the whole part of all accumulated speeds. */
  lemma ShownFrame(w: World, es: seq<Event>, io: FrameIO)
    requires PlayInv(w) && PlaybackUses(w, es) && !io.field
    requires PlaybackUse(Run(w, es), FrameIrq(io)) && SpeedFrames(Run(w, es).s.rate) > 0
    ensures var due := (w.s.rate.spdct + FrameSpeeds(w, es) + Run(w, es).s.rate.speed) / SPEED_DIVISOR;
      ShowsStream(Step(Run(w, es), FrameIrq(io)).s.flow.output, w.s.flow.pool.queue + Pushes(w, es),
                  w.s.cfg.chans, (due - 1) * w.s.cfg.chans)
  {
    hide Step;
    var used := PlaybackConsumes(w, es);
    RunKeepsPlayInv(w, es);
    PlaybackShows(Run(w, es), io, w.s, Pushes(w, es), FrameSpeeds(w, es), used);
  }

  lemma PlaybackShows(m: World, io: FrameIO, s: State, pushed: seq<int>, speeds: int, used: int)
    requires PlayInv(m) && PlaybackUse(m, FrameIrq(io)) && !io.field && SpeedFrames(m.s.rate) > 0
    requires Consumed(s, pushed, speeds, m.s, used)
    ensures var due := (s.rate.spdct + speeds + m.s.rate.speed) / SPEED_DIVISOR;
      ShowsStream(Step(m, FrameIrq(io)).s.flow.output, s.flow.pool.queue + pushed, s.cfg.chans, (due - 1) * s.cfg.chans)
  {
    hide Step, Consumed, ShowsStream, Shows, SpeedFrames, Aligned;
    PlaybackTick(m, io);
    NextShown(s, pushed, speeds, m.s, used, Step(m, FrameIrq(io)).s);
  }

  lemma NextShown(s: State, pushed: seq<int>, speeds: int, m: State, used: int, r: State)
    requires Consumed(s, pushed, speeds, m, used) && ReadyToPlay(m) && Sane(r) && Shows(m, r) && SpeedFrames(m.rate) > 0
    ensures var due := (s.rate.spdct + speeds + m.rate.speed) / SPEED_DIVISOR;
      ShowsStream(r.flow.output, s.flow.pool.queue + pushed, s.cfg.chans, (due - 1) * s.cfg.chans)
  {
    var c, n := s.cfg.chans, SpeedFrames(m.rate);
    DemandFacts(0, c, n);
    ShowsFurther(m.flow, r.flow, c, (n - 1) * c, s.flow.pool.queue + pushed, used);
    OneTick(m.rate);
    SplitDivision(s.rate.spdct + speeds, m.rate.speed);
    TimesSum((s.rate.spdct + speeds) / SPEED_DIVISOR, n - 1, c);
  }
}
