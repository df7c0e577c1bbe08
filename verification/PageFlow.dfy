/** How the frame engine moves pages between the pool, the FIFO, the card's page
    registers and the pages of the last frame. The FIFO is a plain sequence here. */
module PageFlow {
  import opened Errno
  import opened PageList
  import opened PagePool
  import opened StreamTypes

  const DROPPED := -1

  datatype LastKind = Nothing | Played | Captured
  datatype LastPage = LastPage(kind: LastKind, page: int)

  const ZERO_LAST := LastPage(Nothing, 0)

  /** skipped lists, in order, the pages the playback engine popped without showing
      them; it is a history variable. output and input are the page registers. */
  datatype Flow = Flow(pool: Pool, last: seq<LastPage>, meta: seq<Meta>, skipped: seq<int>,
                       output: seq<int>, input: seq<int>)
  datatype Moved = Moved(flow: Flow, ret: int)

  ghost predicate Shaped(f: Flow) {
    && PoolShaped(f.pool) && |f.meta| == MAXPAGES
    && |f.last| == |f.output| == |f.input| == MAXCHANS
    && (forall i :: 0 <= i < |f.last| && f.last[i].kind != Nothing ==> IsValidPage(f.last[i].page))
  }

  /** The shown or captured page of a channel is not queued, and a captured one is in use. */
  ghost predicate LastApart(f: Flow, i: nat)
    requires Shaped(f) && i < MAXCHANS
  {
    f.last[i].kind != Nothing ==>
      && f.last[i].page !in f.pool.queue
      && (f.last[i].kind == Captured ==> f.pool.inuse[f.last[i].page])
  }

  /** What the frame handler relies on: pages a user gives away are not touched
      again. Ownership.OwnedIsDisciplined shows it holds in every reachable state. */
  ghost predicate Disciplined(f: Flow)
    requires Shaped(f)
  {
    && QueuedInUse(f.pool)
    && LastApart(f, 0) && LastApart(f, 1)
    && (f.last[0].kind != Nothing && f.last[1].kind != Nothing ==> f.last[0].page != f.last[1].page)
  }

  // ----- single page moves

  function Alloc(f: Flow, pagect: int): Moved
    requires Shaped(f) && pagect <= MAXPAGES
  {
    var t := AllocPage(f.pool, pagect);
    Moved(f.(pool := t.pool), t.ret)
  }

  function Free(f: Flow, page: int): Flow
    requires Shaped(f)
  {
    f.(pool := FreePage(f.pool, page))
  }

  function Push(f: Flow, page: int): Moved {
    var t := PushPage(f.pool, page);
    Moved(f.(pool := t.pool), t.ret)
  }

  function Pop(f: Flow): Moved {
    var t := PopPage(f.pool);
    Moved(f.(pool := t.pool), t.ret)
  }

  // ----- release of the previous frame

  /** The metadata a captured page gets when its frame is complete. */
  function StampedMeta(m: Meta, io: FrameIO): Meta {
    m.(audioptr := io.aptr, tcSdi1 := io.sdi1, tcSdi2 := io.sdi2, tcLtc := io.ltc)
  }

  function FreeupOne(f: Flow, i: nat, io: FrameIO): (r: Flow)
    requires Shaped(f) && i < MAXCHANS
    ensures Shaped(r)
  {
    var pg := f.last[i].page;
    var done := f.last[i := f.last[i].(kind := Nothing)];
    if f.last[i].kind == Played then Free(f, pg).(last := done)
    else if f.last[i].kind == Captured then
      Push(f.(meta := f.meta[pg := StampedMeta(f.meta[pg], io)]), pg).flow.(last := done)
    else f.(last := done)
  }

  function Freeup(f: Flow, io: FrameIO): (r: Flow)
    requires Shaped(f)
    ensures Shaped(r)
  {
    FreeupOne(FreeupOne(f, 0, io), 1, io)
  }

  // ----- playback

  function PlaybackFrame(f: Flow, chan: nat): (r: Moved)
    requires Shaped(f) && chan < MAXCHANS
    ensures Shaped(r.flow)
    ensures 0 <= r.ret ==> IsValidPage(r.ret)
  {
    var o := Pop(f);
    if o.ret < 0 then Moved(o.flow, -ENOMEM)
    else if f.meta[o.ret].chan != chan then Moved(o.flow.(skipped := f.skipped + [o.ret]), -EINVAL)
    else Moved(o.flow.(output := f.output[chan := o.ret], last := f.last[chan := LastPage(Played, o.ret)]), o.ret)
  }

  /** Pops n pages without showing them, stopping at the first failure. */
  function PopMany(f: Flow, n: nat): (r: Moved)
    requires Shaped(f)
    ensures Shaped(r.flow) && (r.ret == 0 || r.ret == -EAGAIN)
    decreases n
  {
    if n == 0 then Moved(f, 0)
    else
      var o := Pop(f);
      if o.ret < 0 then o
      else PopMany(o.flow.(skipped := f.skipped + [o.ret]), n - 1)
  }

  /** Skips k frames of chans pages. The result is 0 when the next frame is to be loaded. */
  function Bump(f: Flow, chans: nat, k: int): (r: Moved)
    requires Shaped(f)
    ensures Shaped(r.flow)
    decreases k
  {
    if k <= 0 then Moved(f, 0)
    else if f.pool.level < chans then Moved(f, DROPPED)
    else
      var o := PopMany(f, chans);
      if o.ret < 0 then o else Bump(o.flow, chans, k - 1)
  }

  lemma PopManyUnfolds(f: Flow, n: nat)
    requires Shaped(f) && 0 < n
    ensures var o := Pop(f);
      && Shaped(o.flow) && Shaped(o.flow.(skipped := f.skipped + [o.ret]))
      && PopMany(f, n) == if o.ret < 0 then o else PopMany(o.flow.(skipped := f.skipped + [o.ret]), n - 1)
  {
  }

  lemma PopManyEnds(f: Flow)
    requires Shaped(f)
    ensures PopMany(f, 0) == Moved(f, 0)
  {
  }

  lemma BumpEnds(f: Flow, chans: nat, k: int)
    requires Shaped(f) && k <= 0
    ensures Bump(f, chans, k) == Moved(f, 0)
  {
  }

  lemma BumpUnfolds(f: Flow, chans: nat, k: int)
    requires Shaped(f) && 0 < k
    ensures f.pool.level < chans ==> Bump(f, chans, k) == Moved(f, DROPPED)
    ensures PopMany(f, chans).ret != DROPPED
    ensures chans <= f.pool.level ==>
      var o := PopMany(f, chans); Bump(f, chans, k) == if o.ret < 0 then o else Bump(o.flow, chans, k - 1)
  {
  }

  /** Loads channels n onwards; returns the page of the first channel. */
  function LoadFrames(f: Flow, chans: nat, n: nat, newp: int): (r: Moved)
    requires Shaped(f) && n <= chans <= MAXCHANS && IsValidPage(newp)
    ensures Shaped(r.flow)
    ensures 0 <= r.ret ==> IsValidPage(r.ret)
    decreases chans - n
  {
    if n == chans then Moved(f, newp)
    else
      var o := PlaybackFrame(f, n);
      if o.ret < 0 then o
      else LoadFrames(o.flow, chans, n + 1, if n == 0 then o.ret else newp)
  }

  /** Skips k frames, then loads the next one; returns its first page, or why it stopped. */
  function BumpAndLoad(f: Flow, chans: nat, k: int): (r: Moved)
    requires Shaped(f) && chans <= MAXCHANS
    ensures Shaped(r.flow)
    ensures 0 <= r.ret ==> IsValidPage(r.ret)
  {
    var b := Bump(f, chans, k);
    if b.ret < 0 then b else LoadFrames(b.flow, chans, 0, 0)
  }

  // ----- capture

  function CaptureFrame(f: Flow, pagect: int, chan: nat): (r: Moved)
    requires Shaped(f) && chan < MAXCHANS && pagect <= MAXPAGES
    ensures Shaped(r.flow)
    ensures 0 <= r.ret ==> IsValidPage(r.ret)
  {
    var o := Alloc(f, pagect);
    if o.ret < 0 then Moved(o.flow, -ENOMEM)
    else
      Moved(o.flow.(input := f.input[chan := o.ret], last := f.last[chan := LastPage(Captured, o.ret)]), o.ret)
  }

  /** The metadata a captured page starts with. */
  function CapturedMeta(c: Clock, chan: int, inc: int): Meta {
    ZERO_META.(timing := c.time, chan := chan, inc := inc, priv := c.time.priv, tcInternal := c.tcg)
  }

  /** Captures channels n onwards, stopping when no page is free. */
  function CaptureFrames(f: Flow, pagect: int, chans: nat, c: Clock, n: nat, inc: int): (r: Moved)
    requires Shaped(f) && n <= chans <= MAXCHANS && pagect <= MAXPAGES
    ensures Shaped(r.flow)
    decreases chans - n
  {
    if n == chans then Moved(f, 0)
    else
      var o := CaptureFrame(f, pagect, n);
      if o.ret < 0 then o
      else
        CaptureFrames(o.flow.(meta := f.meta[o.ret := CapturedMeta(c, n, inc)]), pagect, chans, c, n + 1, inc)
  }

  // ----- what these moves keep

  /** b's FIFO is what remains of a's after popping from the front; nothing was freed or allocated. */
  ghost predicate PopsOnly(a: Pool, b: Pool) {
    && b.inuse == a.inuse
    && |b.queue| <= |a.queue|
    && b.queue == a.queue[|a.queue| - |b.queue|..]
  }

  lemma PopsOnlyTransitive(a: Pool, b: Pool, c: Pool)
    requires PopsOnly(a, b) && PopsOnly(b, c)
    ensures PopsOnly(a, c)
  {
  }

  lemma PopPops(p: Pool)
    ensures PopsOnly(p, PopPage(p).pool)
  {
  }

  lemma {:induction false} PopManyPops(f: Flow, n: nat)
    requires Shaped(f)
    ensures PopsOnly(f.pool, PopMany(f, n).flow.pool)
    decreases n
  {
    hide PopsOnly;
    PopPops(f.pool);
    if n == 0 {
      SamePops(f.pool);
    } else {
      var o := Pop(f);
      if 0 <= o.ret {
        var t := o.flow.(skipped := f.skipped + [o.ret]);
        PopManyPops(t, n - 1);
        PopsOnlyTransitive(f.pool, t.pool, PopMany(t, n - 1).flow.pool);
      }
    }
  }

  lemma SamePops(p: Pool)
    ensures PopsOnly(p, p)
  {
  }

  lemma {:induction false} BumpPops(f: Flow, chans: nat, k: int)
    requires Shaped(f)
    ensures PopsOnly(f.pool, Bump(f, chans, k).flow.pool)
    decreases k
  {
    hide PopsOnly, PopMany;
    SamePops(f.pool);
    if k > 0 && f.pool.level >= chans {
      PopManyPops(f, chans);
      var o := PopMany(f, chans);
      if 0 <= o.ret {
        BumpPops(o.flow, chans, k - 1);
        PopsOnlyTransitive(f.pool, o.flow.pool, Bump(o.flow, chans, k - 1).flow.pool);
      }
    }
  }

  lemma {:induction false} LoadPops(f: Flow, chans: nat, n: nat, newp: int)
    requires Shaped(f) && n <= chans <= MAXCHANS && IsValidPage(newp)
    ensures PopsOnly(f.pool, LoadFrames(f, chans, n, newp).flow.pool)
    decreases chans - n
  {
    hide PopsOnly;
    SamePops(f.pool);
    if n < chans {
      var o, p := PlaybackFrame(f, n), newp;
      PopPops(f.pool);
      if 0 <= o.ret {
        if n == 0 { p := o.ret; }
        LoadPops(o.flow, chans, n + 1, p);
        PopsOnlyTransitive(f.pool, o.flow.pool, LoadFrames(o.flow, chans, n + 1, p).flow.pool);
      }
    }
  }

  lemma BumpAndLoadPops(f: Flow, chans: nat, k: int)
    requires Shaped(f) && chans <= MAXCHANS
    ensures PopsOnly(f.pool, BumpAndLoad(f, chans, k).flow.pool)
  {
    BumpPops(f, chans, k);
    var b := Bump(f, chans, k);
    if 0 <= b.ret { LoadPops(b.flow, chans, 0, 0); }
  }

  lemma FreeupOneKeepsQueued(f: Flow, i: nat, io: FrameIO)
    requires Shaped(f) && i < MAXCHANS && QueuedInUse(f.pool) && LastApart(f, i)
    ensures QueuedInUse(FreeupOne(f, i, io).pool)
  {
  }

  lemma FreeupOneKeepsApart(f: Flow, io: FrameIO)
    requires Shaped(f) && Disciplined(f)
    ensures LastApart(FreeupOne(f, 0, io), 1)
  {
    hide QueuedInUse;
  }

  lemma FreeupKeepsQueuedInUse(f: Flow, io: FrameIO)
    requires Shaped(f) && Disciplined(f)
    ensures QueuedInUse(Freeup(f, io).pool)
  {
    hide FreeupOne, LastApart, QueuedInUse;
    FreeupOneKeepsQueued(f, 0, io);
    FreeupOneKeepsApart(f, io);
    FreeupOneKeepsQueued(FreeupOne(f, 0, io), 1, io);
  }
}
