/** Pages that playback pops without showing are never released: they stay in use, out of
    everyone's reach, until the stream is initialised again. */
module SkippedPages {
  import opened PageList
  import opened PagePool
  import opened StreamTypes
  import opened PageFlow
  import opened StreamSpec
  import opened Ownership
  import opened CaptureSlack
  import opened PlaybackFlow

  // ----- when a frame loses a page

  lemma {:induction false} PopManySkips(f: Flow, n: nat)
    requires Shaped(f)
    ensures var r := PopMany(f, n).flow;
      f.skipped <= r.skipped && (f.skipped == r.skipped <==> n == 0 || f.pool.queue == [])
    decreases n
  {
    if n > 0 {
      var o := Pop(f);
      if 0 <= o.ret { PopManySkips(o.flow.(skipped := f.skipped + [o.ret]), n - 1); }
    }
  }

  lemma {:induction false} BumpSkips(f: Flow, chans: nat, k: int)
    requires Shaped(f) && 1 <= chans
    ensures var r := Bump(f, chans, k).flow;
      f.skipped <= r.skipped && (f.skipped == r.skipped <==> k <= 0 || f.pool.level < chans || f.pool.queue == [])
    decreases k
  {
    if k > 0 && f.pool.level >= chans {
      PopManySkips(f, chans);
      var o := PopMany(f, chans);
      hide PopMany;
      if 0 <= o.ret { BumpSkips(o.flow, chans, k - 1); }
    }
  }

  /** The pages to be loaded onto channels n onwards, as far as there are any, are of those channels. */
  ghost predicate RightChannels(f: Flow, chans: nat, n: nat)
    requires Shaped(f)
  {
    forall i :: 0 <= i < |f.pool.queue| && n + i < chans ==> f.meta[f.pool.queue[i]].chan == n + i
  }

  lemma {:induction false} LoadSkips(f: Flow, chans: nat, n: nat, newp: int)
    requires Shaped(f) && n <= chans <= MAXCHANS && IsValidPage(newp)
    ensures var r := LoadFrames(f, chans, n, newp).flow;
      f.skipped <= r.skipped && (f.skipped == r.skipped <==> RightChannels(f, chans, n))
    decreases chans - n
  {
    if n < chans {
      var o, q := PlaybackFrame(f, n), f.pool.queue;
      if 0 <= o.ret {
        LoadSkips(o.flow, chans, n + 1, if n == 0 then o.ret else newp);
        assert forall i :: 1 <= i < |q| ==> q[i] == o.flow.pool.queue[i - 1];
      }
    }
  }

  /** A playback frame loses pages: it gets past the first level check, some frame is due, the
      FIFO is not empty, and it has to skip frames or meets a page of the wrong channel. */
  ghost predicate LosesPages(s: State)
    requires Sane(s)
  {
    var n, f := SpeedFrames(s.rate), s.flow;
    && s.cfg.flags.playback && s.cfg.chans <= f.pool.level && n != 0 && f.pool.queue != []
    && (2 <= n || !RightChannels(f, s.cfg.chans, 0))
  }

  lemma BumpAndLoadSkips(f: Flow, chans: nat, n: int)
    requires Shaped(f) && 1 <= chans <= MAXCHANS && chans <= f.pool.level
    ensures var r := BumpAndLoad(f, chans, n - 1).flow;
      f.skipped <= r.skipped &&
      (r.skipped != f.skipped <==> f.pool.queue != [] && (2 <= n || !RightChannels(f, chans, 0)))
  {
    BumpSkips(f, chans, n - 1);
    BumpNothing(f, chans, n - 1);
    var b := Bump(f, chans, n - 1);
    hide Bump, LoadFrames;
    if 0 <= b.ret { LoadSkips(b.flow, chans, 0, 0); }
  }

  lemma PlaybackSkipsIff(s: State)
    requires Sane(s) && 1 <= s.cfg.chans
    ensures s.flow.skipped <= Playback(s).flow.skipped
    ensures Playback(s).flow.skipped != s.flow.skipped <==> LosesPages(s)
  {
    hide BumpAndLoad, SpeedFrames, RightChannels;
    if s.cfg.chans <= s.flow.pool.level {
      BumpAndLoadSkips(s.flow, s.cfg.chans, SpeedFrames(s.rate));
    }
  }

  lemma BumpNothing(f: Flow, chans: nat, k: int)
    requires Shaped(f)
    ensures k <= 0 ==> Bump(f, chans, k) == Moved(f, 0)
    ensures 0 < k && chans <= f.pool.level && 1 <= chans && f.pool.queue == [] ==> Bump(f, chans, k).ret < 0
  {
  }

  /** In a stream whose channels are in turn, exactly the frames that skip something lose pages. */
  lemma LosesInTurnIff(s: State)
    requires ReadyToPlay(s)
    ensures LosesPages(s) <==> s.cfg.chans <= s.flow.pool.level && 2 <= SpeedFrames(s.rate)
  {
    assert RightChannels(s.flow, s.cfg.chans, 0) by {
      forall i | 0 <= i < |s.flow.pool.queue| && i < s.cfg.chans ensures s.flow.meta[s.flow.pool.queue[i]].chan == i { }
    }
  }

  lemma EngineSkipsIff(s: State)
    requires Sane(s) && 1 <= s.cfg.chans
    ensures s.flow.skipped <= Engine(s).flow.skipped
    ensures Engine(s).flow.skipped != s.flow.skipped <==> LosesPages(s)
  {
    var a := s.(ctl := s.ctl.(atrig := false));
    PlaybackSkipsIff(a);
    CaptureKeepsCounts(Playback(a));
    hide Playback, Capture, SpeedFrames;
  }

  ghost predicate StepLoses(w: World, e: Event)
    requires Sane(w.s)
  {
    e.FrameIrq? && !e.io.field && w.s.ctl.running && LosesPages(Released(w.s, e.io))
  }

  /** Nothing else ever loses a page. */
  lemma StepSkipsIff(w: World, e: Event)
    requires Sane(w.s) && 1 <= w.s.cfg.chans && !e.InitStream?
    ensures w.s.flow.skipped <= Step(w, e).s.flow.skipped
    ensures Step(w, e).s.flow.skipped != w.s.flow.skipped <==> StepLoses(w, e)
  {
    if e.FrameIrq? && !e.io.field {
      FrameSkipsIff(w, e.io);
    } else {
      hide StepLoses;
      OtherStepsSkipNothing(w, e);
      assert !StepLoses(w, e) by { NoFrameLosesNothing(w, e); }
    }
  }

  lemma NoFrameLosesNothing(w: World, e: Event)
    requires Sane(w.s) && (e.FrameIrq? ==> e.io.field)
    ensures !StepLoses(w, e)
  {
  }

  lemma OtherStepsSkipNothing(w: World, e: Event)
    requires Sane(w.s) && !e.InitStream? && (e.FrameIrq? ==> e.io.field)
    ensures Step(w, e).s.flow.skipped == w.s.flow.skipped
  {
  }

  lemma FrameSkipsIff(w: World, io: FrameIO)
    requires Sane(w.s) && 1 <= w.s.cfg.chans && !io.field
    ensures w.s.flow.skipped <= Step(w, FrameIrq(io)).s.flow.skipped
    ensures Step(w, FrameIrq(io)).s.flow.skipped != w.s.flow.skipped <==> StepLoses(w, FrameIrq(io))
  {
    hide Engine, LosesPages, Freeup;
    var f := Released(w.s, io);
    FreeupKeepsCounts(w.s.flow, io);
    EngineSkipsIff(f);
  }

  lemma StepKeepsConfig(w: World, e: Event)
    requires Sane(w.s) && !e.InitStream?
    ensures Step(w, e).s.cfg == w.s.cfg
  {
  }

  ghost predicate RunLoses(w: World, es: seq<Event>)
    requires Sane(w.s)
    decreases |es|
  {
    es != [] && (StepLoses(w, es[0]) || RunLoses(Step(w, es[0]), es[1..]))
  }

  /** A run adds to the skipped pages exactly when one of its frames loses pages. */
  lemma {:induction false} RunSkipsIff(w: World, es: seq<Event>)
    requires Sane(w.s) && 1 <= w.s.cfg.chans && forall i :: 0 <= i < |es| ==> !es[i].InitStream?
    ensures w.s.flow.skipped <= Run(w, es).s.flow.skipped
    ensures Run(w, es).s.flow.skipped != w.s.flow.skipped <==> RunLoses(w, es)
    decreases |es|
  {
    if es != [] {
      StepSkipsIff(w, es[0]);
      StepKeepsConfig(w, es[0]);
      hide Step, StepLoses;
      RunSkipsIff(Step(w, es[0]), es[1..]);
    }
  }

  // ----- what becomes of it

  /** A page nobody can use again: in use, but neither a user's, queued, nor on the wire. */
  ghost predicate Lost(w: World, p: int)
    requires Sane(w.s)
  {
    && IsValidPage(p) && w.s.flow.pool.inuse[p] && p !in w.held && p !in w.s.flow.pool.queue
    && forall i :: 0 <= i < MAXCHANS ==> w.s.flow.last[i].kind == Nothing || w.s.flow.last[i].page != p
  }

  /** The lost pages are exactly the skipped ones. */
  lemma LostIff(w: World, p: int)
    requires Inv(w) && IsValidPage(p)
    ensures Lost(w, p) <==> p in w.s.flow.skipped
  {
    var f := w.s.flow;
    assert Balance(f, w.held, p) == 0;
    assert p in f.pool.queue <==> p in multiset(f.pool.queue);
    assert p in f.skipped <==> p in multiset(f.skipped);
    assert Lost(w, p) ==> LastClaim(f.last[0], p) == LastClaim(f.last[1], p) == 0;
  }

  lemma SkippedIsValid(w: World, i: nat)
    requires Inv(w) && i < |w.s.flow.skipped|
    ensures IsValidPage(w.s.flow.skipped[i])
  {
    var f := w.s.flow;
    assert Balance(f, w.held, f.skipped[i]) == 0;
    assert f.skipped[i] in multiset(f.skipped);
  }

  /** Whatever users and interrupts do, a page lost once is lost for the rest of the run. */
  lemma SkippedStaysLost(w: World, es: seq<Event>, p: int)
    requires Inv(w) && 1 <= w.s.cfg.chans && WellBehavedRun(w, es) && (forall k :: 0 <= k < |es| ==> !es[k].InitStream?)
    requires Lost(w, p)
    ensures Lost(Run(w, es), p)
  {
    RunKeepsInv(w, es);
    RunSkipsIff(w, es);
    LostIff(w, p);
    hide Inv, Lost;
    var i :| 0 <= i < |w.s.flow.skipped| && w.s.flow.skipped[i] == p;
    assert Run(w, es).s.flow.skipped[i] == p;
    LostIff(Run(w, es), p);
  }

  // ----- a run that loses a page

  const PLAY_ONE := InitStream(4, Flags(false, true, false), 1, 0)

  /** Two frames pushed. */
  function Filling(): seq<Event> {
    [UserAlloc, UserAlloc, UserMeta(0, ZERO_META), UserMeta(1, ZERO_META), UserPush(0), UserPush(1)]
  }

  /** Shown at twice the normal speed. */
  function FastStart(io: FrameIO): seq<Event> {
    [StartRequest, StartRun, UserSpeed(2 * SPEED_DIVISOR), FrameIrq(io)]
  }

  lemma RunCons(w: World, e: Event, es: seq<Event>)
    requires Sane(w.s)
    ensures Run(w, [e] + es) == Run(Step(w, e), es)
    ensures WellBehavedRun(w, [e] + es) <==> WellBehaved(w, e) && WellBehavedRun(Step(w, e), es)
  {
    assert ([e] + es)[1..] == es;
  }

  lemma TwoPagesTaken(w: World)
    requires Sane(w.s) && w.s.flow.pool == EmptyPool() && w.held == {} && w.s.cfg.pagect == 4
    ensures Step(Step(w, UserAlloc), UserAlloc) ==
      World(w.s.(flow := w.s.flow.(pool := EmptyPool().(inuse := EmptyPool().inuse[0 := true][1 := true]))), {0, 1})
  {
    var a := Step(w, UserAlloc);
    assert a == World(w.s.(flow := w.s.flow.(pool := EmptyPool().(inuse := EmptyPool().inuse[0 := true]))), {0});
    assert FirstFree(a.s.flow.pool.inuse, 0, 4) == FirstFree(a.s.flow.pool.inuse, 1, 4) == 1;
  }

  lemma TwoPagesPushed(w: World)
    requires Sane(w.s) && w.s.flow.pool.queue == [] && w.s.flow.pool.level == 0 && w.held == {0, 1}
    ensures var m := Step(Step(w, UserMeta(0, ZERO_META)), UserMeta(1, ZERO_META));
      var r := Step(Step(m, UserPush(0)), UserPush(1));
      && r.s.flow.pool == w.s.flow.pool.(queue := [0, 1], level := 2)
      && r.s.cfg == w.s.cfg && r.s.ctl == w.s.ctl && r.held == {}
      && m.held == {0, 1} && Step(m, UserPush(0)).held == {1}
  {
    var m := Step(Step(w, UserMeta(0, ZERO_META)), UserMeta(1, ZERO_META));
    assert m.held == {0, 1};
    assert Step(m, UserPush(0)).s.flow.pool.queue == [0];
  }

  lemma FastFrameLoses(w: World, io: FrameIO)
    requires Sane(w.s) && !io.field && !w.s.ctl.running && w.s.cfg.flags == Flags(false, true, false) && w.s.cfg.chans == 1
    requires 2 * SPEED_DIVISOR <= w.s.cfg.maxSpeed <= 0x7fff_ffff
    requires w.s.flow.pool.queue == [0, 1] && w.s.flow.pool.level == 2
    requires forall i :: 0 <= i < MAXCHANS ==> w.s.flow.last[i].kind == Nothing
    ensures StepLoses(Step(Step(Step(w, StartRequest), StartRun), UserSpeed(2 * SPEED_DIVISOR)), FrameIrq(io))
  {
    var r := Step(Step(Step(w, StartRequest), StartRun), UserSpeed(2 * SPEED_DIVISOR));
    assert r.s.rate == Rate(0, 2 * SPEED_DIVISOR) && r.s.ctl.running && r.s.cfg == w.s.cfg && r.s.flow == w.s.flow;
    assert Released(r.s, io).flow.pool == w.s.flow.pool;
  }

  lemma {:induction false} RunAppend(w: World, es: seq<Event>, more: seq<Event>)
    requires Sane(w.s)
    ensures Run(w, es + more) == Run(Run(w, es), more)
    ensures WellBehavedRun(w, es + more) <==> WellBehavedRun(w, es) && WellBehavedRun(Run(w, es), more)
    decreases |es|
  {
    if es == [] {
      assert es + more == more;
    } else {
      assert es == [es[0]] + es[1..] && es + more == [es[0]] + (es[1..] + more);
      hide Step, WellBehaved;
      RunCons(w, es[0], es[1..]);
      RunCons(w, es[0], es[1..] + more);
      RunAppend(Step(w, es[0]), es[1..], more);
    }
  }

  lemma RunTwo(w: World, a: Event, b: Event)
    requires Sane(w.s)
    ensures Run(w, [a, b]) == Step(Step(w, a), b)
    ensures WellBehavedRun(w, [a, b]) <==> WellBehaved(w, a) && WellBehaved(Step(w, a), b)
  {
    hide Step, WellBehaved;
    RunCons(w, a, [b]);
    RunCons(Step(w, a), b, []);
    assert [a] + [b] == [a, b] && [b] + [] == [b];
  }

  /** The stream after the two pages were pushed. */
  lemma FillingFills(w: World)
    requires Sane(w.s) && w.s.flow.pool == EmptyPool() && w.held == {} && w.s.cfg.pagect == 4
    ensures WellBehavedRun(w, Filling())
    ensures var r := Run(w, Filling());
      && r.s.flow.pool.queue == [0, 1] && r.s.flow.pool.level == 2 && r.s.flow.last == w.s.flow.last
      && r.s.cfg == w.s.cfg && r.s.ctl == w.s.ctl
  {
    var a := Step(Step(w, UserAlloc), UserAlloc);
    var m := Step(Step(a, UserMeta(0, ZERO_META)), UserMeta(1, ZERO_META));
    var r := Step(Step(m, UserPush(0)), UserPush(1));
    TwoPagesTaken(w);
    TwoPagesPushed(a);
    RunTwo(w, UserAlloc, UserAlloc);
    RunTwo(a, UserMeta(0, ZERO_META), UserMeta(1, ZERO_META));
    RunTwo(m, UserPush(0), UserPush(1));
    assert r.s.flow.last == w.s.flow.last;
    assert WellBehaved(w, UserAlloc) && WellBehaved(Step(w, UserAlloc), UserAlloc);
    assert WellBehaved(a, UserMeta(0, ZERO_META)) && WellBehaved(Step(a, UserMeta(0, ZERO_META)), UserMeta(1, ZERO_META));
    assert WellBehaved(m, UserPush(0)) && WellBehaved(Step(m, UserPush(0)), UserPush(1));
    hide Step, Run, WellBehaved, WellBehavedRun;
    var one, two, three := [UserAlloc, UserAlloc], [UserMeta(0, ZERO_META), UserMeta(1, ZERO_META)], [UserPush(0), UserPush(1)];
    assert Filling() == one + (two + three);
    RunAppend(w, one, two + three);
    RunAppend(a, two, three);
  }

  /** Users who behave can lose a page within one frame, from any state of the card. */
  lemma FastRunLosesPage(w: World, io: FrameIO)
    requires Sane(w.s) && !io.field && 2 * SPEED_DIVISOR <= w.s.cfg.maxSpeed <= 0x7fff_ffff
    ensures var a := Step(w, PLAY_ONE);
      && Inv(a) && WellBehavedRun(a, Filling() + FastStart(io))
      && exists p :: Lost(Run(a, Filling() + FastStart(io)), p)
  {
    var a := Step(w, PLAY_ONE);
    InitEstablishesInv(w, PLAY_ONE);
    FillingFills(a);
    var b := Run(a, Filling());
    FastFrameLoses(b, io);
    var c := Step(Step(b, StartRequest), StartRun);
    var d := Step(c, UserSpeed(2 * SPEED_DIVISOR));
    var r := Step(d, FrameIrq(io));
    StepKeepsConfig(c, UserSpeed(2 * SPEED_DIVISOR));
    StepKeepsConfig(Step(b, StartRequest), StartRun);
    StepKeepsConfig(b, StartRequest);
    assert a.s.cfg.chans == 1;
    assert WellBehaved(b, StartRequest) && WellBehaved(Step(b, StartRequest), StartRun);
    assert WellBehaved(c, UserSpeed(2 * SPEED_DIVISOR)) && WellBehaved(d, FrameIrq(io));
    hide Step, Run, WellBehaved, WellBehavedRun, Inv, Lost, Filling;
    StepSkipsIff(d, FrameIrq(io));
    assert r.s.flow.skipped != [];
    RunTwo(b, StartRequest, StartRun);
    RunTwo(c, UserSpeed(2 * SPEED_DIVISOR), FrameIrq(io));
    assert FastStart(io) == [StartRequest, StartRun] + [UserSpeed(2 * SPEED_DIVISOR), FrameIrq(io)];
    RunAppend(b, [StartRequest, StartRun], [UserSpeed(2 * SPEED_DIVISOR), FrameIrq(io)]);
    RunAppend(a, Filling(), FastStart(io));
    RunKeepsInv(a, Filling() + FastStart(io));
    SkippedIsValid(r, 0);
    LostIff(r, r.s.flow.skipped[0]);
  }
}
