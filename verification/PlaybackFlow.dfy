/** What a playback frame does to the FIFO, page by page, whatever happened to the stream
    before: after a pop on an empty FIFO the level stays below the true length. */
module PlaybackFlow {
  import opened Errno
  import opened PageList
  import opened PagePool
  import opened StreamTypes
  import opened PageFlow
  import opened StreamSpec
  import opened RateControl

  /** So it is in every reachable state, by Ownership.RunKeepsInv. */
  predicate LevelFits(p: Pool) {
    p.level <= |p.queue|
  }

  /** The queued pages belong to channels 0, 1, .. in turn. */
  ghost predicate Aligned(f: Flow, chans: nat)
    requires Shaped(f) && 1 <= chans
  {
    forall i :: 0 <= i < |f.pool.queue| ==> f.meta[f.pool.queue[i]].chan == i % chans
  }

  /** f after the first n queued pages were popped without being shown. */
  function Skipped(f: Flow, n: nat): Flow
    requires n <= |f.pool.queue|
  {
    f.(pool := f.pool.(queue := f.pool.queue[n..], level := f.pool.level - n),
       skipped := f.skipped + f.pool.queue[..n])
  }

  /** f after its last pages were popped and one more pop was tried. */
  function Underflown(f: Flow): Flow {
    f.(pool := f.pool.(queue := [], level := f.pool.level - |f.pool.queue| - 1,
                       emptyPops := f.pool.emptyPops + 1))
  }

  lemma SkippedTwice(f: Flow, m: nat, n: nat)
    requires m + n <= |f.pool.queue|
    ensures Skipped(Skipped(f, m), n) == Skipped(f, m + n)
  {
    var q := f.pool.queue;
    assert q[m..][n..] == q[m + n..];
    assert q[..m] + q[m..][..n] == q[..m + n];
    assert f.skipped + q[..m] + q[m..][..n] == f.skipped + q[..m + n];
  }

  lemma {:induction false} PopManyIs(f: Flow, n: nat)
    requires Shaped(f) && n <= |f.pool.queue|
    ensures PopMany(f, n) == Moved(Skipped(f, n), 0)
    decreases n
  {
    if n == 0 {
      assert f.pool.queue[0..] == f.pool.queue && f.skipped + [] == f.skipped;
    } else {
      var t := Pop(f).flow.(skipped := f.skipped + [f.pool.queue[0]]);
      assert t == Skipped(f, 1);
      PopManyIs(t, n - 1);
      SkippedTwice(f, 1, n - 1);
    }
  }

  /** The pages a bump of k frames really skips. */
  function BumpedPages(level: int, chans: nat, k: int): nat
    requires 1 <= chans
  {
    if k <= 0 || level < 0 then 0 else if k * chans <= level then k * chans else level / chans * chans
  }

  lemma BumpedFits(level: int, chans: nat, k: int)
    requires 1 <= chans <= 2 && 0 < k
    ensures 0 <= level ==> BumpedPages(level, chans, k) <= level
    ensures chans <= level ==>
      && BumpedPages(level, chans, k) == chans + BumpedPages(level - chans, chans, k - 1)
      && BumpRet(level, chans, k) == BumpRet(level - chans, chans, k - 1)
    ensures level < chans ==> BumpedPages(level, chans, k) == 0 && BumpRet(level, chans, k) == DROPPED
  {
    if chans == 1 {
    } else {
    }
  }

  lemma SkippedNone(f: Flow)
    ensures Skipped(f, 0) == f
  {
    assert f.pool.queue[0..] == f.pool.queue && f.skipped + f.pool.queue[..0] == f.skipped;
  }

  function BumpRet(level: int, chans: nat, k: int): int {
    if k <= 0 || k * chans <= level then 0 else DROPPED
  }

  lemma BumpOnce(f: Flow, chans: nat, k: int)
    requires Shaped(f) && 1 <= chans && 0 < k && LevelFits(f.pool)
    ensures f.pool.level < chans ==> Bump(f, chans, k) == Moved(f, DROPPED)
    ensures chans <= f.pool.level ==>
      && Shaped(Skipped(f, chans)) && Bump(f, chans, k) == Bump(Skipped(f, chans), chans, k - 1)
      && Skipped(f, chans).pool.level == f.pool.level - chans
      && |Skipped(f, chans).pool.queue| == |f.pool.queue| - chans
  {
    if chans <= f.pool.level {
      PopManyIs(f, chans);
      hide PopMany;
    }
  }

  /** A bump never pops an empty FIFO: it skips k frames, or all the level admits and then drops. */
  lemma {:induction false} BumpIs(f: Flow, chans: nat, k: int)
    requires Shaped(f) && 1 <= chans <= 2 && LevelFits(f.pool)
    ensures var L := f.pool.level;
      && BumpedPages(L, chans, k) <= |f.pool.queue|
      && Bump(f, chans, k) == Moved(Skipped(f, BumpedPages(L, chans, k)), BumpRet(L, chans, k))
    decreases k
  {
    hide BumpedPages, BumpRet, Skipped, Bump, Shaped;
    var L := f.pool.level;
    SkippedNone(f);
    if k <= 0 {
      BumpNone(f, chans, k);
    } else {
      BumpedFits(L, chans, k);
      BumpOnce(f, chans, k);
      if L >= chans {
        BumpIs(Skipped(f, chans), chans, k - 1);
        SkippedTwice(f, chans, BumpedPages(L - chans, chans, k - 1));
      }
    }
  }

  lemma BumpNone(f: Flow, chans: nat, k: int)
    requires Shaped(f) && 1 <= chans && k <= 0
    ensures BumpedPages(f.pool.level, chans, k) == 0
    ensures Bump(f, chans, k) == Moved(f, BumpRet(f.pool.level, chans, k))
  {
  }

  /** f after its first chans queued pages were put on the wire. */
  function Loaded(f: Flow, chans: nat): Flow
    requires chans <= |f.pool.queue| && chans <= |f.output| == |f.last|
  {
    var q := f.pool.queue;
    f.(pool := f.pool.(queue := q[chans..], level := f.pool.level - chans),
       output := q[..chans] + f.output[chans..],
       last := seq(chans, i requires 0 <= i < chans => LastPage(Played, q[i])) + f.last[chans..])
  }

  lemma LoadedStep(f: Flow, n: nat)
    requires Shaped(f) && n < MAXCHANS && n < |f.pool.queue| && f.meta[f.pool.queue[n]].chan == n
    ensures PlaybackFrame(Loaded(f, n), n) == Moved(Loaded(f, n + 1), f.pool.queue[n])
  {
    var q := f.pool.queue;
    assert q[n..][0] == q[n] && q[n..][1..] == q[n + 1..];
    var a, b := Loaded(f, n), Loaded(f, n + 1);
    assert a.output[n := q[n]] == b.output;
    assert a.last[n := LastPage(Played, q[n])] == b.last;
  }

  lemma {:induction false} LoadIs(f: Flow, chans: nat, n: nat)
    requires Shaped(f) && n <= chans <= MAXCHANS && 1 <= chans && chans <= |f.pool.queue| && Aligned(f, chans)
    ensures Shaped(Loaded(f, n))
    ensures LoadFrames(Loaded(f, n), chans, n, if n == 0 then 0 else f.pool.queue[0]) == Moved(Loaded(f, chans), f.pool.queue[0])
    decreases chans - n
  {
    if n < chans {
      assert f.meta[f.pool.queue[n]].chan == n % chans == n;
      LoadedStep(f, n);
      LoadIs(f, chans, n + 1);
    }
  }

  lemma LoadedNone(f: Flow)
    requires |f.output| == |f.last|
    ensures Loaded(f, 0) == f
  {
    assert f.pool.queue[0..] == f.pool.queue;
    assert [] + f.output == f.output && [] + f.last == f.last;
  }

  /** When the FIFO runs dry while loading, the pages it had are on the wire and the level
      goes one below zero. */
  lemma {:induction false} LoadUnderflows(f: Flow, chans: nat, n: nat, newp: int)
    requires Shaped(f) && 1 <= chans <= MAXCHANS && n <= |f.pool.queue| < chans && Aligned(f, chans) && IsValidPage(newp)
    ensures Shaped(Loaded(f, n))
    ensures var o := LoadFrames(Loaded(f, n), chans, n, newp);
      o == Moved(Underflown(Loaded(f, |f.pool.queue|)), -ENOMEM)
    decreases |f.pool.queue| - n
  {
    if n < |f.pool.queue| {
      assert f.meta[f.pool.queue[n]].chan == n % chans == n;
      LoadedStep(f, n);
      LoadUnderflows(f, chans, n + 1, if n == 0 then f.pool.queue[0] else newp);
    }
  }

  lemma SkippedKeepsAligned(f: Flow, chans: nat, m: nat)
    requires Shaped(f) && 1 <= chans <= 2 && Aligned(f, chans) && m * chans <= |f.pool.queue|
    ensures Shaped(Skipped(f, m * chans)) && Aligned(Skipped(f, m * chans), chans)
  {
    var q, t := f.pool.queue, Skipped(f, m * chans).pool.queue;
    forall i | 0 <= i < |t| ensures f.meta[t[i]].chan == i % chans {
      assert t[i] == q[m * chans + i];
      assert (m * chans + i) % chans == i % chans by { if chans == 1 {} else { assert (2 * m + i) % 2 == i % 2; } }
    }
  }

  lemma LoadAligned(f: Flow, c: nat)
    requires Shaped(f) && 1 <= c <= 2 && Aligned(f, c)
    ensures var l := LoadFrames(f, c, 0, 0);
      if c <= |f.pool.queue| then l == Moved(Loaded(f, c), f.pool.queue[0])
      else l == Moved(Underflown(Loaded(f, |f.pool.queue|)), -ENOMEM)
  {
    LoadedNone(f);
    if c <= |f.pool.queue| { LoadIs(f, c, 0); } else { LoadUnderflows(f, c, 0, 0); }
  }

  lemma DemandFacts(level: int, chans: nat, n: nat)
    requires 1 <= chans <= 2 && 1 <= n
    ensures 0 <= (n - 1) * chans && n * chans == (n - 1) * chans + chans && (n - 1) * chans % chans == 0
    ensures level / chans * chans <= level && (0 <= level ==> 0 <= level / chans * chans)
    ensures (n - 1) * chans > level >= 0 ==>
      BumpedPages(level, chans, n - 1) == level / chans * chans && BumpRet(level, chans, n - 1) == DROPPED
    ensures (n - 1) * chans <= level ==>
      BumpedPages(level, chans, n - 1) == (n - 1) * chans && BumpRet(level, chans, n - 1) == 0
  {
    if chans == 1 {
    } else {
    }
  }

  /** The page movement of a playback frame in which n frames are due. The level says whether the
      frame is dropped at once or while skipping, the true length whether the load underflows. */
  function AfterPlayback(f: Flow, c: nat, n: nat): Flow
    requires Shaped(f) && 1 <= c <= 2 && LevelFits(f.pool)
  {
    var L, Q := f.pool.level, |f.pool.queue|;
    if L < c || n == 0 then f
    else
      DemandFacts(L, c, n);
      var k := (n - 1) * c;
      if k > L then Skipped(f, L / c * c)
      else if n * c <= Q then Loaded(Skipped(f, k), c).(meta := f.meta[f.pool.queue[k] := ZERO_META])
      else Underflown(Loaded(Skipped(f, k), Q - k))
  }

  lemma BumpAligned(f: Flow, c: nat, n: nat)
    requires Shaped(f) && 1 <= c <= 2 && 1 <= n && c <= f.pool.level && LevelFits(f.pool) && Aligned(f, c)
    ensures var L, k, b := f.pool.level, (n - 1) * c, Bump(f, c, n - 1);
      && 0 <= k && 0 <= L / c * c <= L
      && (k <= L ==> b == Moved(Skipped(f, k), 0) && Shaped(b.flow) && Aligned(b.flow, c))
      && (k > L ==> b == Moved(Skipped(f, L / c * c), DROPPED))
  {
    DemandFacts(f.pool.level, c, n);
    BumpIs(f, c, n - 1);
    hide Bump, Aligned;
    if (n - 1) * c <= f.pool.level { SkippedKeepsAligned(f, c, n - 1); }
  }

  /** The frame is shown, the load underflows, or the bump drops it. */
  lemma BumpAndLoadIs(f: Flow, c: nat, n: nat)
    requires Shaped(f) && 1 <= c <= 2 && 1 <= n && c <= f.pool.level && LevelFits(f.pool) && Aligned(f, c)
    ensures var L, Q, k, o := f.pool.level, |f.pool.queue|, (n - 1) * c, BumpAndLoad(f, c, n - 1);
      && 0 <= k && 0 <= L / c * c <= L && n * c == k + c
      && (k > L ==> o == Moved(Skipped(f, L / c * c), DROPPED))
      && (k <= L && k + c <= Q ==> o == Moved(Loaded(Skipped(f, k), c), f.pool.queue[k]))
      && (k <= L && k + c > Q ==> o == Moved(Underflown(Loaded(Skipped(f, k), Q - k)), -ENOMEM))
  {
    var k := (n - 1) * c;
    DemandFacts(f.pool.level, c, n);
    BumpAligned(f, c, n);
    hide Bump, LoadFrames, Aligned, Loaded, Underflown;
    if k <= f.pool.level {
      LoadAligned(Skipped(f, k), c);
      assert k < |f.pool.queue| ==> f.pool.queue[k..][0] == f.pool.queue[k];
    }
  }

  ghost predicate ReadyToPlay(s: State) {
    && Sane(s) && s.cfg.flags.playback && 1 <= s.cfg.chans && RateOk(s.rate)
    && LevelFits(s.flow.pool) && Aligned(s.flow, s.cfg.chans)
  }

  /** The pages the coming frame asks for. */
  function Demand(s: State): int {
    SpeedFrames(s.rate) * s.cfg.chans
  }

  /** A frame is dropped when there is no full frame to show or too few to skip. */
  predicate PlaybackDrops(level: int, c: int, n: int) {
    level < c || (n > 0 && (n - 1) * c > level)
  }

  lemma PlaybackStops(s: State)
    requires ReadyToPlay(s) && 0 <= SpeedFrames(s.rate)
    requires s.flow.pool.level < s.cfg.chans || SpeedFrames(s.rate) == 0
    ensures Playback(s).flow == s.flow == AfterPlayback(s.flow, s.cfg.chans, SpeedFrames(s.rate))
    ensures Playback(s).ctl.drop.count == s.ctl.drop.count + (if s.flow.pool.level < s.cfg.chans then 1 else 0)
    ensures Playback(s).rate == if s.flow.pool.level < s.cfg.chans then s.rate else SpeedRest(s.rate)
  {
    hide SpeedFrames, SpeedRest, Aligned, PlayFrames, Shown, Loaded, Skipped, Underflown;
  }

  lemma PlaybackGoesOn(s: State)
    requires ReadyToPlay(s) && s.cfg.chans <= s.flow.pool.level && 0 < SpeedFrames(s.rate)
    ensures Playback(s).flow == AfterPlayback(s.flow, s.cfg.chans, SpeedFrames(s.rate))
    ensures Playback(s).ctl.drop.count == s.ctl.drop.count +
      if (SpeedFrames(s.rate) - 1) * s.cfg.chans > s.flow.pool.level then 1 else 0
    ensures Playback(s).rate == SpeedRest(s.rate)
  {
    hide SpeedFrames, SpeedRest, Aligned, BumpAndLoad, Underflown;
    BumpAndLoadIs(s.flow, s.cfg.chans, SpeedFrames(s.rate));
  }

  /** The whole page movement of a playback frame, its drop count and its accumulator. */
  lemma PlaybackMoves(s: State)
    requires ReadyToPlay(s)
    ensures 0 <= SpeedFrames(s.rate)
    ensures Playback(s).flow == AfterPlayback(s.flow, s.cfg.chans, SpeedFrames(s.rate))
    ensures Playback(s).ctl.drop.count == s.ctl.drop.count +
      if PlaybackDrops(s.flow.pool.level, s.cfg.chans, SpeedFrames(s.rate)) then 1 else 0
    ensures Playback(s).rate == if s.flow.pool.level < s.cfg.chans then s.rate else SpeedRest(s.rate)
  {
    hide Playback, AfterPlayback, SpeedFrames, SpeedRest, Aligned;
    OneTick(s.rate);
    if s.cfg.chans <= s.flow.pool.level && 0 < SpeedFrames(s.rate) {
      PlaybackGoesOn(s);
    } else {
      PlaybackStops(s);
    }
  }

  /** What a frame leaves of the FIFO, and how far below its length the level is. */
  lemma AfterPlaybackPool(f: Flow, c: nat, n: nat)
    requires Shaped(f) && 1 <= c <= 2 && LevelFits(f.pool)
    ensures var L, Q, k, r := f.pool.level, |f.pool.queue|, (n - 1) * c, AfterPlayback(f, c, n).pool;
      var short := 0 < n && c <= L && k <= L && Q < k + c;
      && r.emptyPops == f.pool.emptyPops + (if short then 1 else 0)
      && |r.queue| - r.level == Q - L + (if short then 1 else 0)
  {
    if n > 0 { DemandFacts(f.pool.level, c, n); }
  }

  /** A pop on the empty FIFO, and with it a level one further below the length from then on,
      happens in a frame exactly when the level admits the frame and what it skips, but the FIFO
      has not the pages to show. */
  lemma UnderflowIff(s: State)
    requires ReadyToPlay(s)
    ensures var n, c, f, r := SpeedFrames(s.rate), s.cfg.chans, s.flow.pool, Playback(s).flow.pool;
      var short := 0 < n && c <= f.level && (n - 1) * c <= f.level && |f.queue| < n * c;
      && (r.emptyPops > f.emptyPops <==> short)
      && r.emptyPops - f.emptyPops == (|r.queue| - r.level) - (|f.queue| - f.level)
  {
    OneTick(s.rate);
    PlaybackMoves(s);
    hide Playback, AfterPlayback, SpeedFrames;
    AfterPlaybackPool(s.flow, s.cfg.chans, SpeedFrames(s.rate));
    if SpeedFrames(s.rate) > 0 { DemandFacts(0, s.cfg.chans, SpeedFrames(s.rate)); }
  }
}
