/** What a shown frame says about itself: the metadata its page was pushed with. */
module PlaybackContents {
  import opened PageList
  import opened PagePool
  import opened StreamTypes
  import opened PageFlow
  import opened StreamSpec
  import opened Ownership
  import opened CaptureOrder
  import opened RateControl
  import opened PlaybackFlow
  import opened PlaybackRun

  /** The metadata a page has when it is pushed. */
  function PushedMeta(w: World, e: Event): seq<Meta>
    requires Sane(w.s)
  {
    if e.UserPush? && IsValidPage(e.page) then [w.s.flow.meta[e.page]] else []
  }

  function PushedMetas(w: World, es: seq<Event>): seq<Meta>
    requires Sane(w.s)
    decreases |es|
  {
    if es == [] then [] else PushedMeta(w, es[0]) + PushedMetas(Step(w, es[0]), es[1..])
  }

  /** The pages taken by one step. */
  function Taken(w: World, e: Event): int {
    if e.FrameIrq? && !e.io.field then Demand(w.s) else 0
  }

  function AllTaken(w: World, es: seq<Event>): int
    requires Sane(w.s)
    decreases |es|
  {
    if es == [] then 0 else Taken(w, es[0]) + AllTaken(Step(w, es[0]), es[1..])
  }

  lemma OtherStepKeepsMetas(w: World, e: Event)
    requires PlayInv(w) && PlaybackUse(w, e) && (e.FrameIrq? ==> e.io.field)
    ensures Sane(Step(w, e).s)
    ensures QueuedMetas(Step(w, e).s.flow) == QueuedMetas(w.s.flow) + PushedMeta(w, e)
  {
    OtherStepTurns(w, e);
    var f := w.s.flow;
    if e.UserMeta? && IsValidPage(e.page) {
      forall i | 0 <= i < |f.pool.queue| ensures f.pool.queue[i] != e.page {
        QueuedIsApart(f, w.held, i);
      }
    }
  }

  lemma SuffixMetas(f: Flow, r: Flow, n: nat, p: int)
    requires Shaped(f) && Shaped(r) && n <= |f.pool.queue| && r.pool.queue == f.pool.queue[n..] && Distinct(f.pool.queue)
    requires r.meta == f.meta || (IsValidPage(p) && p in f.pool.queue[..n] && r.meta == f.meta[p := ZERO_META])
    ensures QueuedMetas(r) == QueuedMetas(f)[n..]
  {
    var q := f.pool.queue;
    forall i | 0 <= i < |q| - n ensures r.meta[q[n..][i]] == f.meta[q[n + i]] {
      if r.meta != f.meta {
        var j :| 0 <= j < n && q[j] == p;
        assert q[n + i] != q[j];
      }
    }
  }

  lemma TickKeepsMetas(w: World, io: FrameIO)
    requires PlayInv(w) && PlaybackUse(w, FrameIrq(io)) && !io.field
    ensures Sane(Step(w, FrameIrq(io)).s) && 0 <= Demand(w.s) <= |w.s.flow.pool.queue|
    ensures QueuedMetas(Step(w, FrameIrq(io)).s.flow) == QueuedMetas(w.s.flow)[Demand(w.s)..]
  {
    hide Step, SpeedFrames, QueuedMetas, Aligned;
    PlaybackTick(w, io);
    OneTick(w.s.rate);
    OwnedIsDistinct(w.s.flow, w.held);
    var n, c, q := SpeedFrames(w.s.rate), w.s.cfg.chans, w.s.flow.pool.queue;
    if n == 0 {
      NothingDueKeepsMeta(w, io);
      SuffixMetas(w.s.flow, Step(w, FrameIrq(io)).s.flow, 0, 0);
    } else {
      DemandFacts(0, c, n);
      TimecodeFollowsPage(w, io);
      assert q[..n * c][(n - 1) * c] == q[(n - 1) * c];
      SuffixMetas(w.s.flow, Step(w, FrameIrq(io)).s.flow, n * c, q[(n - 1) * c]);
    }
  }

  lemma NothingDueKeepsMeta(w: World, io: FrameIO)
    requires PlayInv(w) && !io.field && SpeedFrames(w.s.rate) == 0
    ensures Step(w, FrameIrq(io)).s.flow.meta == w.s.flow.meta
  {
    ReleasedIsReady(w, io);
    var f := Released(w.s, io);
    var a := f.(ctl := f.ctl.(atrig := false));
    hide Freeup, PlayFrames, SpeedFrames, Aligned;
    assert Playback(a).flow.meta == a.flow.meta;
    PlaysOnly(w);
  }

  lemma PlaysOnly(w: World)
    requires PlayInv(w)
    ensures w.s.cfg.flags.playback && !w.s.cfg.flags.capture
  {
  }

  lemma StepKeepsMetas(w: World, e: Event)
    requires PlayInv(w) && PlaybackUse(w, e)
    ensures PlayInv(Step(w, e)) && 0 <= Taken(w, e) <= |QueuedMetas(w.s.flow) + PushedMeta(w, e)|
    ensures QueuedMetas(Step(w, e).s.flow) == (QueuedMetas(w.s.flow) + PushedMeta(w, e))[Taken(w, e)..]
  {
    hide Step, Demand, PlaybackUse;
    var used := StepConsumes(w, e);
    hide PlayInv;
    if e.FrameIrq? && !e.io.field { TickKeepsMetas(w, e.io); } else { OtherStepKeepsMetas(w, e); }
  }

  lemma JoinMetas(a: seq<Meta>, p: seq<Meta>, u: int, b: seq<Meta>, p': seq<Meta>, u': int)
    requires 0 <= u <= |a + p| && b == (a + p)[u..] && 0 <= u' <= |b + p'|
    ensures u + u' <= |a + (p + p')| && (b + p')[u'..] == (a + (p + p'))[u + u'..]
  {
    assert a + (p + p') == (a + p) + p';
    assert ((a + p) + p')[u..] == b + p';
  }

  /** What is queued after a run is the rest of the metadata queued first and pushed since: nobody
      touched it on the way. */
  lemma {:induction false} RunKeepsMetas(w: World, es: seq<Event>)
    requires PlayInv(w) && PlaybackUses(w, es)
    ensures PlayInv(Run(w, es)) && 0 <= AllTaken(w, es) <= |QueuedMetas(w.s.flow) + PushedMetas(w, es)|
    ensures QueuedMetas(Run(w, es).s.flow) == (QueuedMetas(w.s.flow) + PushedMetas(w, es))[AllTaken(w, es)..]
    decreases |es|
  {
    if es == [] {
      assert QueuedMetas(w.s.flow) + [] == QueuedMetas(w.s.flow);
    } else {
      hide Step, QueuedMetas, PlayInv, Taken, PushedMeta, PlaybackUse;
      var r, rest := Step(w, es[0]), es[1..];
      StepKeepsMetas(w, es[0]);
      RunKeepsMetas(r, rest);
      JoinMetas(QueuedMetas(w.s.flow), PushedMeta(w, es[0]), Taken(w, es[0]),
                QueuedMetas(r.s.flow), PushedMetas(r, rest), AllTaken(r, rest));
    }
  }

  lemma {:induction false} PushCount(w: World, es: seq<Event>)
    requires Sane(w.s)
    ensures |PushedMetas(w, es)| == |Pushes(w, es)|
    decreases |es|
  {
    if es != [] {
      hide Step;
      PushCount(Step(w, es[0]), es[1..]);
    }
  }

  /** The pages taken are chans for each whole frame of accumulated speed. */
  lemma TakenIsWhole(w: World, es: seq<Event>)
    requires PlayInv(w) && PlaybackUses(w, es)
    ensures AllTaken(w, es) == (w.s.rate.spdct + FrameSpeeds(w, es)) / SPEED_DIVISOR * w.s.cfg.chans
    ensures Run(w, es).s.rate.spdct == (w.s.rate.spdct + FrameSpeeds(w, es)) % SPEED_DIVISOR
    ensures Run(w, es).s.cfg.chans == w.s.cfg.chans
  {
    hide PlayInv, PlaybackUses, AllTaken, FrameSpeeds, Run, Pushes, PushedMetas;
    PlayIsSane(w);
    var used := PlaybackConsumes(w, es);
    RunKeepsMetas(w, es);
    PushCount(w, es);
    PlayIsSane(Run(w, es));
    assert |QueuedMetas(Run(w, es).s.flow)| == |Run(w, es).s.flow.pool.queue|;
  }

  /** The frame shown after a run gives the card the timecode and the private word its page was
      pushed with. It is the page of the frame whose number is the whole part of all speeds. */
  lemma ShownAsPushed(w: World, es: seq<Event>, io: FrameIO)
    requires PlayInv(w) && PlaybackUses(w, es) && !io.field
    requires PlaybackUse(Run(w, es), FrameIrq(io)) && 1 <= SpeedFrames(Run(w, es).s.rate)
    ensures var stream := QueuedMetas(w.s.flow) + PushedMetas(w, es);
      var i := ((w.s.rate.spdct + FrameSpeeds(w, es) + Run(w, es).s.rate.speed) / SPEED_DIVISOR - 1) * w.s.cfg.chans;
      var r := Step(Run(w, es), FrameIrq(io)).s.clock;
      && 0 <= i < |stream| && r.time.priv == stream[i].priv && r.time.tcg == r.tcg
      && (stream[i].tcInternal.At? ==> r.tcg == stream[i].tcInternal)
  {
    hide Step, Run, SpeedFrames, PlaybackUse, PlaybackUses, PushedMetas, AllTaken, PlayInv, FrameSpeeds;
    PlayIsSane(w);
    var m := Run(w, es);
    RunKeepsMetas(w, es);
    TakenIsWhole(w, es);
    TimecodeFollowsPage(m, io);
    PlayIsSane(m);
    var n := SpeedFrames(m.s.rate);
    var k := (n - 1) * m.s.cfg.chans;
    assert QueuedMetas(m.s.flow)[k] == m.s.flow.meta[m.s.flow.pool.queue[k]];
    DueIndex(w.s.rate.spdct + FrameSpeeds(w, es), m.s.rate, w.s.cfg.chans);
    hide QueuedMetas, Follows;
  }

  lemma DueIndex(a: int, r: Rate, c: nat)
    requires RateOk(r) && r.spdct == a % SPEED_DIVISOR && 1 <= c <= 2
    ensures ((a + r.speed) / SPEED_DIVISOR - 1) * c == a / SPEED_DIVISOR * c + (SpeedFrames(r) - 1) * c
  {
    hide SpeedFrames;
    OneTick(r);
    SplitDivision(a, r.speed);
    TimesSum(a / SPEED_DIVISOR, SpeedFrames(r) - 1, c);
  }

  lemma PlayIsSane(w: World)
    requires PlayInv(w)
    ensures Sane(w.s) && RateOk(w.s.rate) && 1 <= w.s.cfg.chans <= 2
  {
  }
}
