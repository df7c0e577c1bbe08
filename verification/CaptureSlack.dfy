/** When a capture frame finds a page for every channel. */
module CaptureSlack {
  import opened PageList
  import opened PagePool
  import opened StreamTypes
  import opened PageFlow
  import opened StreamSpec
  import opened Ownership
  import opened CaptureOrder

  function UsedPages(p: Pool): set<int> {
    set i | 0 <= i < |p.inuse| && p.inuse[i]
  }

  function PageSet(q: seq<int>): set<int> {
    set p | p in q
  }

  function Range(n: nat): (r: set<int>)
    ensures |r| == n && forall i :: i in r <==> 0 <= i < n
  {
    if n == 0 then {} else Range(n - 1) + {n - 1}
  }

  lemma {:induction false} PageSetSize(q: seq<int>)
    requires Distinct(q)
    ensures |PageSet(q)| == |q|
    decreases |q|
  {
    if q != [] {
      var t := q[1..];
      assert Distinct(t) by { assert forall i :: 0 <= i < |t| ==> t[i] == q[i + 1]; }
      PageSetSize(t);
      assert q[0] !in t by { assert forall i :: 0 <= i < |t| ==> t[i] == q[i + 1]; }
      assert PageSet(q) == PageSet(t) + {q[0]};
    }
  }

  /** With no page on the wire, the pages in use are the held, queued and skipped ones. */
  lemma UsedCount(f: Flow, held: set<int>)
    requires Shaped(f) && Owned(f, held) && LastIdle(f, 0)
    ensures |UsedPages(f.pool)| == |held| + |f.pool.queue| + |f.skipped|
  {
    var q, s := f.pool.queue, f.skipped;
    OwnedIsDistinct(f, held);
    PageSetSize(q);
    PageSetSize(s);
    forall p
      ensures p in UsedPages(f.pool) <==> p in held || p in PageSet(q) || p in PageSet(s)
      ensures !(p in held && p in PageSet(q)) && !(p in held && p in PageSet(s)) && !(p in PageSet(q) && p in PageSet(s))
    {
      assert Balance(f, held, p) == 0;
      assert p in q <==> multiset(q)[p] >= 1;
      assert p in s <==> multiset(s)[p] >= 1;
    }
    assert UsedPages(f.pool) == held + PageSet(q) + PageSet(s);
  }

  /** Allocation fails exactly when all pagect pages are in use. */
  lemma AllocFailsIff(f: Flow, pagect: int)
    requires Shaped(f) && pagect <= MAXPAGES && UsedBelow(f.pool, pagect)
    ensures Alloc(f, pagect).ret < 0 <==> |UsedPages(f.pool)| >= pagect
    ensures 0 <= Alloc(f, pagect).ret ==> |UsedPages(Alloc(f, pagect).flow.pool)| == |UsedPages(f.pool)| + 1
  {
    var o := Alloc(f, pagect);
    if 0 < pagect {
      if o.ret < 0 {
        assert UsedPages(f.pool) == Range(pagect);
      } else {
        assert UsedPages(o.flow.pool) == UsedPages(f.pool) + {o.ret};
        assert UsedPages(f.pool) <= Range(pagect) - {o.ret};
        SubsetSize(UsedPages(f.pool), Range(pagect) - {o.ret});
      }
    }
  }

  lemma SubsetSize(a: set<int>, b: set<int>)
    requires a <= b
    ensures |a| <= |b|
  {
    assert b == a + (b - a);
  }

  lemma {:induction false} CaptureFramesSucceedIff(f: Flow, pagect: int, chans: nat, c: Clock, n: nat, inc: int)
    requires Shaped(f) && n < chans <= MAXCHANS && pagect <= MAXPAGES && UsedBelow(f.pool, pagect)
    ensures 0 <= CaptureFrames(f, pagect, chans, c, n, inc).ret <==> |UsedPages(f.pool)| + (chans - n) <= pagect
    decreases chans - n
  {
    AllocFailsIff(f, pagect);
    var o := CaptureFrame(f, pagect, n);
    if 0 <= o.ret && n + 1 < chans {
      CaptureFramesSucceedIff(o.flow.(meta := f.meta[o.ret := CapturedMeta(c, n, inc)]), pagect, chans, c, n + 1, inc);
    }
  }

  /** The outcome of loading the channels of a frame once it is not dropped. */
  function CaptureRet(s: State): int
    requires Sane(s)
  {
    var o := SpeedCount(s);
    CaptureFrames(s.flow, s.cfg.pagect, s.cfg.chans, AdjustTcg(o.state, o.ret).clock, 0, o.ret).ret
  }

  /** A capture frame gets a page for every channel exactly when the held, queued and
      skipped pages leave room for them. */
  lemma CaptureSucceedsIff(w: World)
    requires Inv(w) && LastIdle(w.s.flow, 0) && 1 <= w.s.cfg.chans
    ensures 0 <= CaptureRet(w.s) <==>
      |w.held| + |w.s.flow.pool.queue| + |w.s.flow.skipped| + w.s.cfg.chans <= w.s.cfg.pagect
  {
    UsedCount(w.s.flow, w.held);
    var o := SpeedCount(w.s);
    CaptureFramesSucceedIff(w.s.flow, w.s.cfg.pagect, w.s.cfg.chans, AdjustTcg(o.state, o.ret).clock, 0, o.ret);
  }

  /** The drop test, written for a general slack: the source uses slack 0 of `<=`. */
  predicate DropsWithin(s: State, room: int) {
    s.cfg.pagect - s.flow.pool.level <= room
  }

  /** Exactly when a frame that is not dropped fails half way, in any state a run can reach, and
      for any slack in the drop test. The source's own test has the slack chans. */
  lemma HalfFailsIff(w: World, room: int)
    requires Inv(w) && LastIdle(w.s.flow, 0) && 1 <= w.s.cfg.chans
    ensures CaptureDrops(w.s) == DropsWithin(w.s, w.s.cfg.chans)
    ensures !DropsWithin(w.s, room) && CaptureRet(w.s) < 0 <==>
      && room < w.s.cfg.pagect - w.s.flow.pool.level
      && w.s.cfg.pagect - |w.s.flow.pool.queue| < w.s.cfg.chans + |w.held| + |w.s.flow.skipped|
  {
    hide CaptureRet, Inv;
    CaptureSucceedsIff(w);
  }

  /** So with an exact level and at most one page in user hands, a frame that is not dropped
      captures every channel. One page less of slack, and a held page makes it fail. */
  lemma SlackIsExact(w: World)
    requires Inv(w) && LastIdle(w.s.flow, 0) && 1 <= w.s.cfg.chans
    requires w.s.flow.skipped == [] && w.s.flow.pool.emptyPops == 0 && |w.held| <= 1
    ensures !CaptureDrops(w.s) ==> 0 <= CaptureRet(w.s)
    ensures !DropsWithin(w.s, w.s.cfg.chans - 1) && CaptureRet(w.s) < 0 <==>
      |w.held| == 1 && w.s.cfg.pagect - w.s.flow.pool.level == w.s.cfg.chans
  {
    hide CaptureRet;
    HalfFailsIff(w, w.s.cfg.chans);
    HalfFailsIff(w, w.s.cfg.chans - 1);
  }

  // ----- a reader that takes one page at a time

  /** The reader pops only a non-empty FIFO, and only after giving its page back. */
  predicate ReaderUse(w: World, e: Event) {
    && CaptureUse(w, e) && !e.UserAlloc?
    && (e.UserPop? ==> w.s.flow.pool.queue != [] && w.held == {})
  }

  predicate ReaderRun(w: World, es: seq<Event>)
    requires Sane(w.s)
    decreases |es|
  {
    es == [] || (ReaderUse(w, es[0]) && ReaderRun(Step(w, es[0]), es[1..]))
  }

  ghost predicate ReaderInv(w: World) {
    && OrderInv(w) && 1 <= w.s.cfg.chans
    && w.s.flow.skipped == [] && w.s.flow.pool.emptyPops == 0 && |w.held| <= 1
  }

  /** A fresh capture stream is ready for such a reader. */
  lemma ReaderStarts(w: World, e: Event)
    requires Sane(w.s) && e.InitStream? && e.flags.capture && !e.flags.playback
    ensures ReaderInv(Step(w, e))
  {
    InitStartsOrder(w, e);
  }

  /** What a running frame does for such a reader: drop without touching a page,
      or capture all channels. */
  ghost predicate AllOrNothing(w: World, io: FrameIO)
    requires Sane(w.s)
  {
    var r := Step(w, FrameIrq(io)).s;
    var f := Freeup(w.s.flow, io);
    || (r.flow == f && r.ctl.drop.count == w.s.ctl.drop.count + 1)
    || (r.ctl.drop == w.s.ctl.drop && forall i :: 0 <= i < w.s.cfg.chans ==> r.flow.last[i].kind == Captured)
  }

  lemma {:induction false} CaptureFramesFillLast(f: Flow, pagect: int, chans: nat, c: Clock, n: nat, inc: int)
    requires Shaped(f) && n <= chans <= MAXCHANS && pagect <= MAXPAGES
    ensures var o := CaptureFrames(f, pagect, chans, c, n, inc);
      && (forall i :: 0 <= i < n ==> o.flow.last[i] == f.last[i])
      && (0 <= o.ret ==> forall i :: n <= i < chans ==> o.flow.last[i].kind == Captured)
    decreases chans - n
  {
    if n < chans {
      var o := CaptureFrame(f, pagect, n);
      if 0 <= o.ret {
        CaptureFramesFillLast(o.flow.(meta := f.meta[o.ret := CapturedMeta(c, n, inc)]), pagect, chans, c, n + 1, inc);
      }
    }
  }

  lemma EngineAllOrNothing(w: World)
    requires Inv(w) && LastIdle(w.s.flow, 0) && 1 <= w.s.cfg.chans && w.s.cfg.flags.capture
    requires w.s.flow.skipped == [] && w.s.flow.pool.emptyPops == 0 && |w.held| <= 1
    ensures var r := Engine(w.s);
      || (r.flow == w.s.flow && r.ctl.drop.count == w.s.ctl.drop.count + 1)
      || (r.ctl.drop == w.s.ctl.drop && forall i :: 0 <= i < w.s.cfg.chans ==> r.flow.last[i].kind == Captured)
  {
    SlackIsExact(w);
    if !CaptureDrops(w.s) {
      var o := SpeedCount(w.s);
      CaptureFramesFillLast(w.s.flow, w.s.cfg.pagect, w.s.cfg.chans, AdjustTcg(o.state, o.ret).clock, 0, o.ret);
    }
  }

  lemma {:induction false} CaptureFramesKeep(f: Flow, pagect: int, chans: nat, c: Clock, n: nat, inc: int)
    requires Shaped(f) && n <= chans <= MAXCHANS && pagect <= MAXPAGES
    ensures var r := CaptureFrames(f, pagect, chans, c, n, inc).flow;
      r.skipped == f.skipped && r.pool.emptyPops == f.pool.emptyPops
    decreases chans - n
  {
    if n < chans {
      var o := CaptureFrame(f, pagect, n);
      if 0 <= o.ret {
        CaptureFramesKeep(o.flow.(meta := f.meta[o.ret := CapturedMeta(c, n, inc)]), pagect, chans, c, n + 1, inc);
      }
    }
  }

  /** Capture pops nothing. */
  lemma CaptureKeepsCounts(s: State)
    requires Sane(s)
    ensures Capture(s).flow.skipped == s.flow.skipped && Capture(s).flow.pool.emptyPops == s.flow.pool.emptyPops
  {
    if !CaptureDrops(s) {
      var o := SpeedCount(s);
      CaptureFramesKeep(s.flow, s.cfg.pagect, s.cfg.chans, AdjustTcg(o.state, o.ret).clock, 0, o.ret);
    }
  }

  lemma FrameKeepsCounts(w: World, io: FrameIO)
    requires Inv(w) && w.s.cfg.flags.capture && !io.field
    ensures var r := Step(w, FrameIrq(io)).s.flow;
      r.skipped == w.s.flow.skipped && r.pool.emptyPops == w.s.flow.pool.emptyPops
  {
    hide Capture, Freeup, Inv;
    CaptureOnly(w);
    var f := Released(w.s, io);
    FreeupKeepsCounts(w.s.flow, io);
    CaptureKeepsCounts(f.(ctl := f.ctl.(atrig := false)));
  }

  lemma CaptureOnly(w: World)
    requires Inv(w) && w.s.cfg.flags.capture
    ensures Sane(w.s) && !w.s.cfg.flags.playback
  {
  }

  lemma FreeupKeepsCounts(f: Flow, io: FrameIO)
    requires Shaped(f)
    ensures Freeup(f, io).skipped == f.skipped && Freeup(f, io).pool.emptyPops == f.pool.emptyPops
  {
  }

  lemma ReaderStep(w: World, e: Event)
    requires ReaderInv(w) && ReaderUse(w, e)
    ensures ReaderInv(Step(w, e))
  {
    StepKeepsOrder(w, e);
    if e.FrameIrq? && !e.io.field {
      FrameKeepsCounts(w, e.io);
      var m := FrameAppends(w, e.io);
    } else if e.UserFree? {
      SubsetSize(w.held - {e.page}, w.held);
    }
  }

  lemma ReaderFrame(w: World, io: FrameIO)
    requires ReaderInv(w) && w.s.ctl.running && !io.field
    ensures AllOrNothing(w, io)
  {
    var b := BeginFrame(w.s, io);
    FreeupKeeps(b.flow, io, w.held, b.cfg.pagect);
    var f := Released(w.s, io);
    EngineAllOrNothing(World(f, w.held));
  }

  /** Capture never half-fails: after any run with such a reader, a running frame either
      drops before touching a page or captures every channel. */
  lemma {:induction false} CaptureNeverHalfFails(w: World, es: seq<Event>, io: FrameIO)
    requires ReaderInv(w) && ReaderRun(w, es) && Run(w, es).s.ctl.running && !io.field
    ensures AllOrNothing(Run(w, es), io)
    decreases |es|
  {
    if es == [] {
      ReaderFrame(w, io);
    } else {
      ReaderStep(w, es[0]);
      CaptureNeverHalfFails(Step(w, es[0]), es[1..], io);
    }
  }
}
