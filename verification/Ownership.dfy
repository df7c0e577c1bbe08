/** Who owns each card page. A run interleaves user calls with frame interrupts;
    in every reachable state each page in use has exactly one owner. */
module Ownership {
  import opened PageList
  import opened PagePool
  import opened StreamTypes
  import opened PageFlow
  import opened StreamSpec

  /** held is the set of pages user programs were given and have not passed on. */
  datatype World = World(s: State, held: set<int>)

  datatype Event =
    | InitStream(pagect: int, flags: Flags, chans: int, tcsource: int)
    | UserAlloc
    | UserFree(page: int)
    | UserPush(page: int)
    | UserPop
    | UserMeta(page: int, meta: Meta)
    | UserSpeed(speed: int)
    | UserTrig(trig: int)
    | StartRequest
    | StartRun
    | StopRun
    | UserTimecode(tc: Timecode)
    | UserTcgRunning(on: bool)
    | FrameIrq(io: FrameIO)

  function Step(w: World, e: Event): (r: World)
    requires Sane(w.s)
    ensures Sane(r.s)
  {
    var f := w.s.flow;
    match e
    case InitStream(pagect, flags, chans, tcsource) =>
      World(Init(w.s, pagect, flags, chans, tcsource), {})
    case UserAlloc =>
      var o := Alloc(f, w.s.cfg.pagect);
      World(w.s.(flow := o.flow), if 0 <= o.ret then w.held + {o.ret} else w.held)
    case UserFree(page) => World(w.s.(flow := Free(f, page)), w.held - {page})
    case UserPush(page) =>
      var o := Push(f, page);
      World(w.s.(flow := o.flow), w.held - {page})
    case UserPop =>
      var o := Pop(f);
      World(w.s.(flow := o.flow), if 0 <= o.ret then w.held + {o.ret} else w.held)
    case UserMeta(page, meta) =>
      if IsValidPage(page) then w.(s := w.s.(flow := f.(meta := f.meta[page := meta]))) else w
    case UserSpeed(speed) => w.(s := SetSpeed(w.s, speed))
    case UserTrig(trig) => w.(s := SetTrig(w.s, trig).state)
    case StartRequest => w.(s := StreamSpec.StartCheck(w.s).state)
    case StartRun => w.(s := Start(w.s))
    case StopRun => w.(s := Stop(w.s))
    case UserTimecode(tc) => w.(s := w.s.(clock := w.s.clock.(tcg := tc)))
    case UserTcgRunning(on) => w.(s := w.s.(clock := w.s.clock.(tcgRunning := on)))
    case FrameIrq(io) => w.(s := Frame(w.s, io))
  }

  /** Users pass on only pages they hold, and a stream plays or captures but not both. */
  predicate WellBehaved(w: World, e: Event) {
    match e
    case InitStream(_, flags, _, _) => !(flags.capture && flags.playback)
    case UserFree(page) => IsValidPage(page) ==> page in w.held
    case UserPush(page) => IsValidPage(page) ==> page in w.held
    case _ => true
  }

  function Run(w: World, es: seq<Event>): (r: World)
    requires Sane(w.s)
    ensures Sane(r.s)
    decreases |es|
  {
    if es == [] then w else Run(Step(w, es[0]), es[1..])
  }

  predicate WellBehavedRun(w: World, es: seq<Event>)
    requires Sane(w.s)
    decreases |es|
  {
    es == [] || (WellBehaved(w, es[0]) && WellBehavedRun(Step(w, es[0]), es[1..]))
  }

  // ----- the owners of a page

  function LastClaim(l: LastPage, p: int): nat {
    if l.kind != Nothing && l.page == p then 1 else 0
  }

  /** The claims on page p: by users, the FIFO, the last frame and the skipped list. */
  function Claims(f: Flow, held: set<int>, p: int): nat
    requires |f.last| == MAXCHANS
  {
    (if p in held then 1 else 0) + multiset(f.pool.queue)[p] + multiset(f.skipped)[p]
    + LastClaim(f.last[0], p) + LastClaim(f.last[1], p)
  }

  function Used(pool: Pool, p: int): nat {
    if 0 <= p < |pool.inuse| && pool.inuse[p] then 1 else 0
  }

  /** Zero when page p is claimed exactly as often as it is in use. */
  function Balance(f: Flow, held: set<int>, p: int): int
    requires |f.last| == MAXCHANS
  {
    Claims(f, held, p) - Used(f.pool, p)
  }

  /** Each page in use is claimed exactly once, and no other page is claimed. */
  ghost predicate Owned(f: Flow, held: set<int>)
    requires |f.last| == MAXCHANS
  {
    forall p :: Balance(f, held, p) == 0
  }

  ghost predicate LevelExact(p: Pool) {
    p.level == |p.queue| - p.emptyPops
  }

  ghost predicate UsedBelow(p: Pool, pagect: int) {
    forall i :: 0 <= i < |p.inuse| && p.inuse[i] ==> i < pagect
  }

  ghost predicate Inv(w: World) {
    && Sane(w.s)
    && Owned(w.s.flow, w.held)
    && LevelExact(w.s.flow.pool)
    && UsedBelow(w.s.flow.pool, w.s.cfg.pagect)
    && !(w.s.cfg.flags.capture && w.s.cfg.flags.playback)
  }

  ghost predicate LastIdle(f: Flow, n: nat) {
    forall i :: n <= i < |f.last| ==> f.last[i].kind == Nothing
  }

  lemma CountAt(q: seq<int>, i: nat)
    requires i < |q|
    ensures multiset(q)[q[i]] >= 1
  {
    assert q[i] in multiset(q);
  }

  lemma DistinctOfCounts(q: seq<int>)
    requires forall p :: multiset(q)[p] <= 1
    ensures Distinct(q)
  {
    forall i, j | 0 <= i < j < |q| ensures q[i] != q[j] {
      var a, b := q[..j], q[j..];
      assert multiset(q)[q[i]] == multiset(a)[q[i]] + multiset(b)[q[i]] by { assert q == a + b; }
      CountAt(a, i);
      CountAt(b, 0);
    }
  }

  /** A queued page is in use and has no other claim. */
  lemma QueuedIsApart(f: Flow, held: set<int>, i: nat)
    requires Shaped(f) && Owned(f, held) && i < |f.pool.queue|
    ensures f.pool.inuse[f.pool.queue[i]] && f.pool.queue[i] !in held && f.pool.queue[i] !in f.skipped
    ensures LastClaim(f.last[0], f.pool.queue[i]) == LastClaim(f.last[1], f.pool.queue[i]) == 0
  {
    var p := f.pool.queue[i];
    CountAt(f.pool.queue, i);
    assert Balance(f, held, p) == 0;
    assert p in f.skipped ==> multiset(f.skipped)[p] >= 1;
  }

  lemma OwnedIsDistinct(f: Flow, held: set<int>)
    requires Shaped(f) && Owned(f, held)
    ensures Distinct(f.pool.queue) && Distinct(f.skipped)
  {
    forall p ensures multiset(f.pool.queue)[p] <= 1 && multiset(f.skipped)[p] <= 1 {
      assert Balance(f, held, p) == 0;
    }
    DistinctOfCounts(f.pool.queue);
    DistinctOfCounts(f.skipped);
  }

  lemma OwnedIsDisciplined(f: Flow, held: set<int>)
    requires Shaped(f) && Owned(f, held)
    ensures Disciplined(f)
  {
    forall i | 0 <= i < |f.pool.queue| ensures f.pool.inuse[f.pool.queue[i]] {
      QueuedIsApart(f, held, i);
    }
    forall i | 0 <= i < MAXCHANS && f.last[i].kind != Nothing
      ensures LastApart(f, i) && (f.last[1 - i].kind != Nothing ==> f.last[1 - i].page != f.last[i].page)
    {
      assert Balance(f, held, f.last[i].page) == 0;
      assert f.last[i].page in f.pool.queue ==> multiset(f.pool.queue)[f.last[i].page] >= 1;
    }
  }

  // ----- the engine neither makes nor loses a claim

  lemma HeadCount(q: seq<int>, p: int)
    requires q != []
    ensures multiset(q)[p] == multiset(q[1..])[p] + (if q[0] == p then 1 else 0)
  {
    assert q == [q[0]] + q[1..];
  }

  lemma {:induction false} PopManyBalance(f: Flow, n: nat, held: set<int>, p: int)
    requires Shaped(f)
    ensures PopMany(f, n).flow.last == f.last
    ensures Balance(PopMany(f, n).flow, held, p) == Balance(f, held, p)
    ensures LevelExact(f.pool) ==> LevelExact(PopMany(f, n).flow.pool)
    decreases n
  {
    if n > 0 && f.pool.queue != [] {
      HeadCount(f.pool.queue, p);
      PopManyBalance(Pop(f).flow.(skipped := f.skipped + [f.pool.queue[0]]), n - 1, held, p);
    }
  }

  lemma {:induction false} BumpBalance(f: Flow, chans: nat, k: int, held: set<int>, p: int)
    requires Shaped(f)
    ensures Bump(f, chans, k).flow.last == f.last
    ensures Balance(Bump(f, chans, k).flow, held, p) == Balance(f, held, p)
    ensures LevelExact(f.pool) ==> LevelExact(Bump(f, chans, k).flow.pool)
    decreases k
  {
    if k > 0 && f.pool.level >= chans {
      PopManyBalance(f, chans, held, p);
      var o := PopMany(f, chans);
      if 0 <= o.ret { BumpBalance(o.flow, chans, k - 1, held, p); }
    }
  }

  lemma PlaybackFrameBalance(f: Flow, chan: nat, held: set<int>, p: int)
    requires Shaped(f) && chan < MAXCHANS && LastIdle(f, chan)
    ensures var r := PlaybackFrame(f, chan).flow;
      && Balance(r, held, p) == Balance(f, held, p) && LastIdle(r, chan + 1)
      && (LevelExact(f.pool) ==> LevelExact(r.pool))
  {
    if f.pool.queue != [] { HeadCount(f.pool.queue, p); }
  }

  lemma {:induction false} LoadBalance(f: Flow, chans: nat, n: nat, newp: int, held: set<int>, p: int)
    requires Shaped(f) && n <= chans <= MAXCHANS && IsValidPage(newp) && LastIdle(f, n)
    ensures var r := LoadFrames(f, chans, n, newp).flow;
      Balance(r, held, p) == Balance(f, held, p) && (LevelExact(f.pool) ==> LevelExact(r.pool))
    decreases chans - n
  {
    if n < chans {
      PlaybackFrameBalance(f, n, held, p);
      var o := PlaybackFrame(f, n);
      if 0 <= o.ret { LoadBalance(o.flow, chans, n + 1, if n == 0 then o.ret else newp, held, p); }
    }
  }

  lemma BumpAndLoadBalance(f: Flow, chans: nat, k: int, held: set<int>, p: int)
    requires Shaped(f) && chans <= MAXCHANS && LastIdle(f, 0)
    ensures var r := BumpAndLoad(f, chans, k).flow;
      Balance(r, held, p) == Balance(f, held, p) && (LevelExact(f.pool) ==> LevelExact(r.pool))
  {
    BumpBalance(f, chans, k, held, p);
    var b := Bump(f, chans, k);
    if 0 <= b.ret { LoadBalance(b.flow, chans, 0, 0, held, p); }
  }

  lemma PlaybackBalance(s: State, held: set<int>, p: int)
    requires Sane(s) && LastIdle(s.flow, 0)
    ensures Balance(Playback(s).flow, held, p) == Balance(s.flow, held, p)
    ensures LevelExact(s.flow.pool) ==> LevelExact(Playback(s).flow.pool)
  {
    hide Shaped;
    BumpAndLoadBalance(s.flow, s.cfg.chans, SpeedFrames(s.rate) - 1, held, p);
  }

  lemma CaptureFrameBalance(f: Flow, pagect: int, chan: nat, held: set<int>, p: int)
    requires Shaped(f) && chan < MAXCHANS && pagect <= MAXPAGES && LastIdle(f, chan)
    ensures var r := CaptureFrame(f, pagect, chan).flow;
      && Balance(r, held, p) == Balance(f, held, p) && LastIdle(r, chan + 1)
      && r.pool == f.pool.(inuse := r.pool.inuse) && (UsedBelow(f.pool, pagect) ==> UsedBelow(r.pool, pagect))
  {
  }

  lemma {:induction false} CaptureFramesBalance(f: Flow, pagect: int, chans: nat, c: Clock, n: nat, inc: int,
                                                held: set<int>, p: int)
    requires Shaped(f) && n <= chans <= MAXCHANS && pagect <= MAXPAGES && LastIdle(f, n)
    ensures var r := CaptureFrames(f, pagect, chans, c, n, inc).flow;
      && Balance(r, held, p) == Balance(f, held, p)
      && r.pool == f.pool.(inuse := r.pool.inuse) && (UsedBelow(f.pool, pagect) ==> UsedBelow(r.pool, pagect))
    decreases chans - n
  {
    if n < chans {
      CaptureFrameBalance(f, pagect, n, held, p);
      var o := CaptureFrame(f, pagect, n);
      if 0 <= o.ret {
        CaptureFramesBalance(o.flow.(meta := f.meta[o.ret := CapturedMeta(c, n, inc)]),
                             pagect, chans, c, n + 1, inc, held, p);
      }
    }
  }

  /** Releasing a shown page relies on the page being in use. */
  lemma FreeupOneBalance(f: Flow, i: nat, io: FrameIO, held: set<int>, p: int)
    requires Shaped(f) && Owned(f, held) && i < MAXCHANS
    ensures Balance(FreeupOne(f, i, io), held, p) == 0
  {
    if f.last[i].kind == Played {
      PlayedBalance(f, i, held, p);
    } else if f.last[i].kind == Captured {
      CapturedBalance(f, i, io, held, p);
    } else {
      assert Balance(f, held, p) == 0;
    }
  }

  lemma PlayedBalance(f: Flow, i: nat, held: set<int>, p: int)
    requires Shaped(f) && Owned(f, held) && i < MAXCHANS && f.last[i].kind == Played
    ensures Balance(Free(f, f.last[i].page).(last := f.last[i := f.last[i].(kind := Nothing)]), held, p) == 0
  {
    assert Balance(f, held, p) == 0;
    assert Balance(f, held, f.last[i].page) == 0;
    hide Owned;
  }

  lemma CapturedBalance(f: Flow, i: nat, io: FrameIO, held: set<int>, p: int)
    requires Shaped(f) && Owned(f, held) && i < MAXCHANS && f.last[i].kind == Captured
    ensures Balance(FreeupOne(f, i, io), held, p) == 0
  {
    assert Balance(f, held, p) == 0;
    hide Owned;
    var q, pg := f.pool.queue, f.last[i].page;
    assert multiset(q + [pg])[p] == multiset(q)[p] + (if pg == p then 1 else 0);
  }

  lemma FreeupOneKeeps(f: Flow, i: nat, io: FrameIO, held: set<int>, pagect: int)
    requires Shaped(f) && Owned(f, held) && i < MAXCHANS && LevelExact(f.pool) && UsedBelow(f.pool, pagect)
    ensures var r := FreeupOne(f, i, io);
      && Owned(r, held) && LevelExact(r.pool) && UsedBelow(r.pool, pagect)
      && r.last == f.last[i := f.last[i].(kind := Nothing)]
  {
    forall p ensures Balance(FreeupOne(f, i, io), held, p) == 0 {
      FreeupOneBalance(f, i, io, held, p);
    }
  }

  lemma FreeupKeeps(f: Flow, io: FrameIO, held: set<int>, pagect: int)
    requires Shaped(f) && Owned(f, held) && LevelExact(f.pool) && UsedBelow(f.pool, pagect)
    ensures var r := Freeup(f, io);
      Owned(r, held) && LevelExact(r.pool) && UsedBelow(r.pool, pagect) && LastIdle(r, 0)
  {
    FreeupOneKeeps(f, 0, io, held, pagect);
    FreeupOneKeeps(FreeupOne(f, 0, io), 1, io, held, pagect);
  }

  lemma PlaybackKeeps(s: State, held: set<int>)
    requires Sane(s) && Owned(s.flow, held) && LastIdle(s.flow, 0)
    ensures Owned(Playback(s).flow, held)
  {
    forall p ensures Balance(Playback(s).flow, held, p) == 0 {
      assert Balance(s.flow, held, p) == 0;
      PlaybackBalance(s, held, p);
    }
  }

  lemma CaptureKeeps(s: State, held: set<int>)
    requires Sane(s) && Owned(s.flow, held) && LastIdle(s.flow, 0)
    requires LevelExact(s.flow.pool) && UsedBelow(s.flow.pool, s.cfg.pagect)
    ensures Owned(Capture(s).flow, held)
    ensures LevelExact(Capture(s).flow.pool) && UsedBelow(Capture(s).flow.pool, s.cfg.pagect)
  {
    var o := SpeedCount(s);
    var c := AdjustTcg(o.state, o.ret).clock;
    forall p ensures Balance(Capture(s).flow, held, p) == 0 {
      assert Balance(s.flow, held, p) == 0;
      CaptureFramesBalance(s.flow, s.cfg.pagect, s.cfg.chans, c, 0, o.ret, held, p);
    }
    CaptureFramesBalance(s.flow, s.cfg.pagect, s.cfg.chans, c, 0, o.ret, held, 0);
  }

  // ----- every step, every run

  lemma EngineKeepsInv(w: World)
    requires Inv(w) && LastIdle(w.s.flow, 0)
    ensures Inv(w.(s := Engine(w.s)))
  {
    var a := w.s.(ctl := w.s.ctl.(atrig := false));
    if a.cfg.flags.playback {
      PlaybackKeeps(a, w.held);
      PlaybackBalance(a, w.held, 0);
      PlaybackPops(a);
    } else {
      CaptureKeeps(a, w.held);
    }
  }

  lemma FrameKeepsInv(w: World, io: FrameIO)
    requires Inv(w)
    ensures Inv(Step(w, FrameIrq(io)))
  {
    if !io.field {
      var b := BeginFrame(w.s, io);
      FreeupKeeps(b.flow, io, w.held, b.cfg.pagect);
      var f := Released(w.s, io);
      if w.s.ctl.running { EngineKeepsInv(w.(s := f)); }
    }
  }

  lemma UserAllocBalance(w: World, p: int)
    requires Inv(w)
    ensures Balance(Step(w, UserAlloc).s.flow, Step(w, UserAlloc).held, p) == 0
  {
    assert Balance(w.s.flow, w.held, p) == 0;
    assert Balance(w.s.flow, w.held, Alloc(w.s.flow, w.s.cfg.pagect).ret) == 0;
  }

  lemma UserPopBalance(w: World, p: int)
    requires Inv(w)
    ensures Balance(Step(w, UserPop).s.flow, Step(w, UserPop).held, p) == 0
  {
    assert Balance(w.s.flow, w.held, p) == 0;
    if w.s.flow.pool.queue != [] {
      HeadCount(w.s.flow.pool.queue, p);
      QueuedIsApart(w.s.flow, w.held, 0);
    }
  }

  lemma UserGivesBalance(w: World, e: Event, p: int)
    requires Inv(w) && WellBehaved(w, e) && (e.UserFree? || e.UserPush?)
    ensures Balance(Step(w, e).s.flow, Step(w, e).held, p) == 0
  {
    assert Balance(w.s.flow, w.held, p) == 0;
    assert Balance(w.s.flow, w.held, e.page) == 0;
  }

  lemma StepKeepsInv(w: World, e: Event)
    requires Inv(w) && WellBehaved(w, e)
    ensures Inv(Step(w, e))
  {
    if e.FrameIrq? {
      FrameKeepsInv(w, e.io);
    } else {
      var r := Step(w, e);
      forall p ensures Balance(r.s.flow, r.held, p) == 0 {
        assert Balance(w.s.flow, w.held, p) == 0;
        match e
        case UserAlloc => UserAllocBalance(w, p);
        case UserPop => UserPopBalance(w, p);
        case UserFree(_) => UserGivesBalance(w, e, p);
        case UserPush(_) => UserGivesBalance(w, e, p);
        case _ =>
      }
    }
  }

  /** A stream initialisation starts a run in good order whatever was before. */
  lemma InitEstablishesInv(w: World, e: Event)
    requires Sane(w.s) && e.InitStream? && WellBehaved(w, e)
    ensures Inv(Step(w, e))
  {
    var r := Step(w, e);
    forall p ensures Balance(r.s.flow, r.held, p) == 0 {
      assert multiset(r.s.flow.pool.queue)[p] == multiset(r.s.flow.skipped)[p] == 0;
    }
  }

  /** In every reachable state the pages in use are partitioned among their owners,
      and the level is the FIFO length less the pops made on an empty FIFO. */
  lemma {:induction false} RunKeepsInv(w: World, es: seq<Event>)
    requires Inv(w) && WellBehavedRun(w, es)
    ensures Inv(Run(w, es))
    decreases |es|
  {
    if es != [] {
      StepKeepsInv(w, es[0]);
      RunKeepsInv(Step(w, es[0]), es[1..]);
    }
  }
}
