/** A capture stream delivers frames in order: what users pop over a whole run,
    followed by what is still queued, is strictly increasing in frame and channel. */
module CaptureOrder {
  import opened PageList
  import opened StreamTypes
  import opened PageFlow
  import opened StreamSpec
  import opened Ownership

  /** The frame a page was captured in, and its channel. */
  datatype Key = Key(id: int, chan: int)

  predicate Before(a: Key, b: Key) {
    a.id < b.id || (a.id == b.id && a.chan < b.chan)
  }

  function KeyOf(m: Meta): Key { Key(m.timing.id, m.chan) }

  function Metas(meta: seq<Meta>, pages: seq<int>): (r: seq<Meta>)
    requires |meta| == MAXPAGES && PagesValid(pages)
  {
    seq(|pages|, i requires 0 <= i < |pages| => meta[pages[i]])
  }

  function Keys(ms: seq<Meta>): seq<Key> {
    seq(|ms|, i requires 0 <= i < |ms| => KeyOf(ms[i]))
  }

  ghost predicate Sorted(ks: seq<Key>) {
    forall i, j :: 0 <= i < j < |ks| ==> Before(ks[i], ks[j])
  }

  ghost predicate AllAfter(k: Key, ks: seq<Key>) {
    forall i :: 0 <= i < |ks| ==> Before(k, ks[i])
  }

  function CapturedPages(l: LastPage): seq<int> {
    if l.kind == Captured then [l.page] else []
  }

  /** The queued pages, then those being captured in the current frame. */
  function Pending(f: Flow): (r: seq<int>)
    requires Shaped(f)
    ensures PagesValid(r)
  {
    f.pool.queue + CapturedPages(f.last[0]) + CapturedPages(f.last[1])
  }

  function QueuedMetas(f: Flow): seq<Meta>
    requires Shaped(f)
  {
    Metas(f.meta, f.pool.queue)
  }

  function PendingKeys(f: Flow): seq<Key>
    requires Shaped(f)
  {
    Keys(Metas(f.meta, Pending(f)))
  }

  ghost predicate NothingPlayed(f: Flow) {
    forall i :: 0 <= i < |f.last| ==> f.last[i].kind != Played
  }

  ghost predicate OrderInv(w: World) {
    && Inv(w) && w.s.cfg.flags.capture && NothingPlayed(w.s.flow)
    && Sorted(PendingKeys(w.s.flow))
    && (forall i :: 0 <= i < |PendingKeys(w.s.flow)| ==> PendingKeys(w.s.flow)[i].id <= w.s.clock.frameId)
  }

  /** Users of a capture stream queue no pages and write no metadata. */
  predicate CaptureUse(w: World, e: Event) {
    WellBehaved(w, e) && !e.InitStream? && !e.UserPush? && !e.UserMeta?
  }

  predicate CaptureRun(w: World, es: seq<Event>)
    requires Sane(w.s)
    decreases |es|
  {
    es == [] || (CaptureUse(w, es[0]) && CaptureRun(Step(w, es[0]), es[1..]))
  }

  /** The metadata a user finds on the page this step hands out of the FIFO. */
  function Delivery(w: World, e: Event): seq<Meta>
    requires Sane(w.s)
  {
    if e.UserPop? && w.s.flow.pool.queue != [] then [w.s.flow.meta[w.s.flow.pool.queue[0]]] else []
  }

  function Deliveries(w: World, es: seq<Event>): seq<Meta>
    requires Sane(w.s)
    decreases |es|
  {
    if es == [] then [] else Delivery(w, es[0]) + Deliveries(Step(w, es[0]), es[1..])
  }

  lemma InitStartsOrder(w: World, e: Event)
    requires Sane(w.s) && e.InitStream? && e.flags.capture && !e.flags.playback
    ensures OrderInv(Step(w, e)) && Pending(Step(w, e).s.flow) == []
  {
    InitEstablishesInv(w, e);
  }

  // ----- one frame

  /** Releasing a captured page moves it to the FIFO and keeps its key. */
  lemma FreeupOneKeepsPending(f: Flow, i: nat, io: FrameIO, held: set<int>)
    requires Shaped(f) && Owned(f, held) && i < MAXCHANS && NothingPlayed(f) && (i == 1 ==> f.last[0].kind == Nothing)
    ensures var r := FreeupOne(f, i, io);
      && Pending(r) == Pending(f) && PendingKeys(r) == PendingKeys(f) && NothingPlayed(r)
      && QueuedMetas(f) <= QueuedMetas(r)
  {
    var r := FreeupOne(f, i, io);
    var q := f.pool.queue;
    OwnedIsDisciplined(f, held);
    assert LastApart(f, i);
    forall k | 0 <= k < |q| ensures QueuedMetas(r)[k] == QueuedMetas(f)[k] {
      assert r.pool.queue[k] == q[k];
    }
    var p := Pending(f);
    assert Pending(r) == p;
    forall k | 0 <= k < |p| ensures KeyOf(r.meta[p[k]]) == KeyOf(f.meta[p[k]]) {
    }
  }

  /** A captured page's key goes to the end of the pending keys. */
  lemma CaptureFrameAppends(f: Flow, pagect: int, c: Clock, n: nat, inc: int, held: set<int>)
    requires Shaped(f) && Owned(f, held) && n < MAXCHANS && pagect <= MAXPAGES && LastIdle(f, n) && NothingPlayed(f)
    ensures var o := CaptureFrame(f, pagect, n);
      if o.ret < 0 then o.flow == f
      else
        var t := o.flow.(meta := f.meta[o.ret := CapturedMeta(c, n, inc)]);
        && PendingKeys(t) == PendingKeys(f) + [Key(c.time.id, n)] && NothingPlayed(t)
        && QueuedMetas(t) == QueuedMetas(f)
  {
    var o := CaptureFrame(f, pagect, n);
    if 0 <= o.ret {
      var t := o.flow.(meta := f.meta[o.ret := CapturedMeta(c, n, inc)]);
      var p := Pending(f);
      assert Balance(f, held, o.ret) == 0;
      forall k | 0 <= k < |p| ensures p[k] != o.ret {
        if k < |f.pool.queue| { CountAt(f.pool.queue, k); }
      }
      assert Pending(t) == p + [o.ret];
      forall k | 0 <= k < |f.pool.queue| ensures f.pool.queue[k] != o.ret {
        assert p[k] == f.pool.queue[k];
      }
      assert QueuedMetas(t) == QueuedMetas(f);
    }
  }

  /** The keys of channels n..m of one frame. */
  function FrameKeys(id: int, n: nat, m: nat): seq<Key>
    requires n <= m
    decreases m - n
  {
    if n == m then [] else [Key(id, n)] + FrameKeys(id, n + 1, m)
  }

  lemma {:induction false} FrameKeysAre(id: int, n: nat, m: nat)
    requires n <= m
    ensures |FrameKeys(id, n, m)| == m - n
    ensures forall i :: 0 <= i < m - n ==> FrameKeys(id, n, m)[i] == Key(id, n + i)
    decreases m - n
  {
    if n < m { FrameKeysAre(id, n + 1, m); }
  }

  lemma {:induction false} CaptureFramesAppend(f: Flow, pagect: int, chans: nat, c: Clock, n: nat, inc: int,
                                               held: set<int>) returns (m: nat)
    requires Shaped(f) && Owned(f, held) && n <= chans <= MAXCHANS && pagect <= MAXPAGES
    requires LastIdle(f, n) && NothingPlayed(f)
    ensures n <= m <= chans
    ensures var r := CaptureFrames(f, pagect, chans, c, n, inc).flow;
      && PendingKeys(r) == PendingKeys(f) + FrameKeys(c.time.id, n, m) && NothingPlayed(r)
      && QueuedMetas(r) == QueuedMetas(f)
    decreases chans - n
  {
    m := n;
    if n < chans {
      CaptureFrameAppends(f, pagect, c, n, inc, held);
      var o := CaptureFrame(f, pagect, n);
      if 0 <= o.ret {
        var t := o.flow.(meta := f.meta[o.ret := CapturedMeta(c, n, inc)]);
        forall p ensures Balance(t, held, p) == 0 {
          assert Balance(f, held, p) == 0;
          CaptureFrameBalance(f, pagect, n, held, p);
        }
        CaptureFrameBalance(f, pagect, n, held, 0);
        m := CaptureFramesAppend(t, pagect, chans, c, n + 1, inc, held);
        assert PendingKeys(f) + [Key(c.time.id, n)] + FrameKeys(c.time.id, n + 1, m)
            == PendingKeys(f) + FrameKeys(c.time.id, n, m);
      }
    }
  }

  lemma FreeupKeepsPending(f: Flow, io: FrameIO, held: set<int>, pagect: int)
    requires Shaped(f) && Owned(f, held) && NothingPlayed(f) && LevelExact(f.pool) && UsedBelow(f.pool, pagect)
    ensures var r := Freeup(f, io);
      PendingKeys(r) == PendingKeys(f) && NothingPlayed(r) && QueuedMetas(f) <= QueuedMetas(r)
  {
    FreeupOneKeepsPending(f, 0, io, held);
    FreeupOneKeeps(f, 0, io, held, pagect);
    FreeupOneKeepsPending(FreeupOne(f, 0, io), 1, io, held);
  }

  lemma EngineAppends(s: State, held: set<int>) returns (m: nat)
    requires Sane(s) && s.cfg.flags.capture && !s.cfg.flags.playback
    requires Owned(s.flow, held) && LastIdle(s.flow, 0) && NothingPlayed(s.flow)
    ensures var r := Engine(s);
      && PendingKeys(r.flow) == PendingKeys(s.flow) + FrameKeys(s.clock.time.id, 0, m)
      && r.clock.frameId == s.clock.frameId && r.cfg == s.cfg && NothingPlayed(r.flow)
      && QueuedMetas(r.flow) == QueuedMetas(s.flow)
  {
    m := 0;
    if !CaptureDrops(s) {
      var a := SpeedCount(s.(ctl := s.ctl.(atrig := false)));
      var c := AdjustTcg(a.state, a.ret).clock;
      m := CaptureFramesAppend(s.flow, s.cfg.pagect, s.cfg.chans, c, 0, a.ret, held);
    }
  }

  /** A frame appends the keys of the channels it captured, and changes nothing before them. */
  lemma FrameAppends(w: World, io: FrameIO) returns (m: nat)
    requires OrderInv(w) && !io.field
    ensures var r := Step(w, FrameIrq(io)).s;
      && PendingKeys(r.flow) == PendingKeys(w.s.flow) + FrameKeys(r.clock.frameId, 0, m)
      && r.clock.frameId == w.s.clock.frameId + 1 && r.cfg == w.s.cfg && NothingPlayed(r.flow)
      && QueuedMetas(w.s.flow) <= QueuedMetas(r.flow)
  {
    hide Freeup, Engine, PendingKeys, QueuedMetas, UsedBelow, LevelExact, Sorted;
    m := 0;
    var b := BeginFrame(w.s, io);
    var f := Released(w.s, io);
    FreeupKeepsPending(b.flow, io, w.held, b.cfg.pagect);
    FreeupKeeps(b.flow, io, w.held, b.cfg.pagect);
    if w.s.ctl.running { m := EngineAppends(f, w.held); }
  }

  lemma FrameKeepsOrder(w: World, io: FrameIO)
    requires OrderInv(w) && !io.field
    ensures OrderInv(Step(w, FrameIrq(io)))
  {
    StepKeepsInv(w, FrameIrq(io));
    var r := Step(w, FrameIrq(io));
    var m := FrameAppends(w, io);
    FrameKeysAre(r.s.clock.frameId, 0, m);
    var was, now := PendingKeys(w.s.flow), PendingKeys(r.s.flow);
    forall i, j | 0 <= i < j < |now| ensures Before(now[i], now[j]) {
      if i < |was| { assert now[i] == was[i]; }
      if j < |was| { assert now[j] == was[j]; }
    }
  }

  // ----- every step

  lemma PopTakesHead(w: World)
    requires OrderInv(w) && w.s.flow.pool.queue != []
    ensures var r := Step(w, UserPop);
      && Delivery(w, UserPop) + QueuedMetas(r.s.flow) == QueuedMetas(w.s.flow)
      && Keys(Delivery(w, UserPop)) + PendingKeys(r.s.flow) == PendingKeys(w.s.flow)
  {
    var r := Step(w, UserPop);
    assert Pending(w.s.flow) == [w.s.flow.pool.queue[0]] + Pending(r.s.flow);
  }

  lemma OtherStepsKeepPending(w: World, e: Event)
    requires OrderInv(w) && CaptureUse(w, e) && (e.UserPop? ==> w.s.flow.pool.queue == [])
    requires e.FrameIrq? ==> e.io.field
    ensures var r := Step(w, e).s;
      && r.flow.pool.queue == w.s.flow.pool.queue && r.flow.meta == w.s.flow.meta && r.flow.last == w.s.flow.last
      && r.clock.frameId == w.s.clock.frameId && r.cfg == w.s.cfg
  {
  }

  lemma StepKeepsOrder(w: World, e: Event)
    requires OrderInv(w) && CaptureUse(w, e)
    ensures OrderInv(Step(w, e))
  {
    StepKeepsInv(w, e);
    var r := Step(w, e);
    if e.FrameIrq? && !e.io.field {
      FrameKeepsOrder(w, e.io);
    } else if e.UserPop? && w.s.flow.pool.queue != [] {
      PopTakesHead(w);
      var k := PendingKeys(w.s.flow);
      assert PendingKeys(r.s.flow) == k[1..];
    } else {
      OtherStepsKeepPending(w, e);
    }
  }

  /** Anything queued before the step is delivered by it or still queued, unchanged and in order. */
  lemma StepLosesNothing(w: World, e: Event)
    requires OrderInv(w) && CaptureUse(w, e)
    ensures QueuedMetas(w.s.flow) <= Delivery(w, e) + QueuedMetas(Step(w, e).s.flow)
  {
    if e.FrameIrq? && !e.io.field {
      var m := FrameAppends(w, e.io);
      assert Delivery(w, e) == [];
      assert Delivery(w, e) + QueuedMetas(Step(w, e).s.flow) == QueuedMetas(Step(w, e).s.flow);
    } else if e.UserPop? && w.s.flow.pool.queue != [] {
      PopTakesHead(w);
    } else {
      OtherStepsKeepPending(w, e);
    }
  }

  /** A key before everything pending stays before everything delivered or pending later. */
  lemma StepKeepsAfter(w: World, e: Event, k: Key)
    requires OrderInv(w) && CaptureUse(w, e)
    requires AllAfter(k, PendingKeys(w.s.flow)) && k.id <= w.s.clock.frameId
    ensures var r := Step(w, e);
      && AllAfter(k, Keys(Delivery(w, e))) && AllAfter(k, PendingKeys(r.s.flow)) && k.id <= r.s.clock.frameId
  {
    var r := Step(w, e);
    var was := PendingKeys(w.s.flow);
    hide Step;
    if e.FrameIrq? && !e.io.field {
      var m := FrameAppends(w, e.io);
      FrameKeysAre(r.s.clock.frameId, 0, m);
    } else if e.UserPop? && w.s.flow.pool.queue != [] {
      PopTakesHead(w);
      assert Keys(Delivery(w, e)) == was[..1] && PendingKeys(r.s.flow) == was[1..];
    } else {
      OtherStepsKeepPending(w, e);
    }
  }

  // ----- whole runs

  /** What a run delivers and what it leaves in the FIFO. */
  function Output(w: World, es: seq<Event>): seq<Meta>
    requires Sane(w.s)
  {
    Deliveries(w, es) + QueuedMetas(Run(w, es).s.flow)
  }

  lemma KeysConcat(a: seq<Meta>, b: seq<Meta>)
    ensures Keys(a + b) == Keys(a) + Keys(b)
  {
  }

  lemma QueuedKeys(f: Flow)
    requires Shaped(f)
    ensures Keys(QueuedMetas(f)) <= PendingKeys(f)
  {
  }

  lemma OutputUnfolds(w: World, es: seq<Event>)
    requires Sane(w.s) && es != []
    ensures Output(w, es) == Delivery(w, es[0]) + Output(Step(w, es[0]), es[1..])
  {
  }

  lemma {:induction false} RunKeepsAfter(w: World, es: seq<Event>, k: Key)
    requires OrderInv(w) && CaptureRun(w, es)
    requires AllAfter(k, PendingKeys(w.s.flow)) && k.id <= w.s.clock.frameId
    ensures AllAfter(k, Keys(Output(w, es)))
    decreases |es|
  {
    hide Step;
    if es == [] {
      QueuedKeys(w.s.flow);
      assert Output(w, es) == QueuedMetas(w.s.flow);
    } else {
      OutputUnfolds(w, es);
      StepKeepsAfter(w, es[0], k);
      StepKeepsOrder(w, es[0]);
      RunKeepsAfter(Step(w, es[0]), es[1..], k);
      KeysConcat(Delivery(w, es[0]), Output(Step(w, es[0]), es[1..]));
    }
  }

  lemma {:induction false} RunKeepsOrder(w: World, es: seq<Event>)
    requires OrderInv(w) && CaptureRun(w, es)
    ensures OrderInv(Run(w, es))
    decreases |es|
  {
    if es != [] {
      StepKeepsOrder(w, es[0]);
      RunKeepsOrder(Step(w, es[0]), es[1..]);
    }
  }

  lemma DeliveredIsBefore(w: World, e: Event, rest: seq<Event>)
    requires OrderInv(w) && CaptureUse(w, e) && CaptureRun(Step(w, e), rest) && Delivery(w, e) != []
    ensures AllAfter(KeyOf(Delivery(w, e)[0]), Keys(Output(Step(w, e), rest)))
  {
    PopTakesHead(w);
    StepKeepsOrder(w, e);
    var was := PendingKeys(w.s.flow);
    assert was[0] == KeyOf(Delivery(w, e)[0]) && PendingKeys(Step(w, e).s.flow) == was[1..];
    RunKeepsAfter(Step(w, e), rest, was[0]);
  }

  /** Over any run of a capture stream, the frames handed to users followed by the frames
      still queued are strictly increasing in (frame id, channel). */
  lemma {:induction false} CaptureInOrder(w: World, es: seq<Event>)
    requires OrderInv(w) && CaptureRun(w, es)
    ensures Sorted(Keys(Output(w, es)))
    decreases |es|
  {
    hide Step;
    if es == [] {
      QueuedKeys(w.s.flow);
      assert Output(w, es) == QueuedMetas(w.s.flow);
    } else {
      var e, r, rest := es[0], Step(w, es[0]), es[1..];
      OutputUnfolds(w, es);
      StepKeepsOrder(w, e);
      CaptureInOrder(r, rest);
      KeysConcat(Delivery(w, e), Output(r, rest));
      if Delivery(w, e) != [] { DeliveredIsBefore(w, e, rest); }
    }
  }

  /** Over any run of a capture stream, whatever was queued is delivered or still queued:
      no queued page's metadata is overwritten, lost or reordered. */
  lemma {:induction false} CaptureLosesNothing(w: World, es: seq<Event>)
    requires OrderInv(w) && CaptureRun(w, es)
    ensures QueuedMetas(w.s.flow) <= Output(w, es)
    decreases |es|
  {
    if es == [] {
      assert Output(w, es) == QueuedMetas(w.s.flow);
    } else {
      var e, r := es[0], Step(w, es[0]);
      OutputUnfolds(w, es);
      StepLosesNothing(w, e);
      StepKeepsOrder(w, e);
      CaptureLosesNothing(r, es[1..]);
    }
  }
}
