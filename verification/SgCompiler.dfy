/** The scatter-gather compiler: mapped bus segments become a chained list of
    hardware descriptors, adjacent segments being merged into one transfer. */
module SgCompiler {
  import opened Arith

  const MAX_DMA_SIZE := 0xF0000
  const DESC_BYTES := 32
  const TO_HOST := 0x8000_0000
  const ADDR64 := 0x1000_0000
  const W32 := 0x1_0000_0000
  const W64 := 0x1_0000_0000_0000_0000

  /** A mapped segment: bus address and length in bytes. */
  datatype Seg = Seg(addr: int, len: int)

  /** The fields of a hardware descriptor, all unsigned 32-bit; the padding is omitted. */
  datatype Desc = Desc(hadd: int, cadd: int, count: int, next: int, haddHigh: int, nextHigh: int)

  /** One transfer before it is packed into a descriptor. */
  datatype Xfer = Xfer(addr: int, card: int, words: int)

  /** The longest segment for which no word count reaches the flag bits. */
  const MAX_SEG := 0x4000_0000 - MAX_DMA_SIZE

  predicate SegOk(s: Seg) {
    0 <= s.addr < W64 && 0 <= s.len <= MAX_SEG && s.addr + s.len <= W64
  }

  ghost predicate SegsOk(sgl: seq<Seg>) {
    forall i :: 0 <= i < |sgl| ==> SegOk(sgl[i])
  }

  ghost predicate Aligned(sgl: seq<Seg>) {
    forall i :: 0 <= i < |sgl| ==> sgl[i].len % 4 == 0
  }

  // ----- merging

  /** The transfers so far, the bus address after the last one, its size, and the card offset. */
  datatype Built = Built(xs: seq<Xfer>, paddr: int, tsize: int, card: int)

  predicate Merges(b: Built, s: Seg, merge: bool) {
    merge && b.xs != [] && b.tsize < MAX_DMA_SIZE && b.paddr == s.addr
  }

  function AddSeg(b: Built, s: Seg, merge: bool): Built {
    if Merges(b, s, merge) then
      var l := b.xs[|b.xs| - 1];
      Built(b.xs[|b.xs| - 1 := l.(words := l.words + s.len / 4)],
            (b.paddr + s.len) % W64, b.tsize + s.len, (b.card + s.len) % W32)
    else
      Built(b.xs + [Xfer(s.addr, b.card, s.len / 4)], (s.addr + s.len) % W64, s.len, (b.card + s.len) % W32)
  }

  function Compile(sgl: seq<Seg>, cardoff: int, merge: bool): Built {
    if sgl == [] then Built([], 0, 0, cardoff)
    else AddSeg(Compile(sgl[..|sgl| - 1], cardoff, merge), sgl[|sgl| - 1], merge)
  }

  // ----- packing

  function Flags(fromDevice: bool, dma64: bool): int {
    (if fromDevice then TO_HOST else 0) + (if dma64 then ADDR64 else 0)
  }

  /** Descriptor k of a list at bus address base, pointing to descriptor k + 1. */
  function Open(x: Xfer, k: int, base: int, flags: int): Desc {
    var next := base + DESC_BYTES * (k + 1);
    Desc(x.addr % W32, x.card, x.words + flags, next % W32, x.addr / W32, next / W32)
  }

  /** Descriptor k of n; the last one ends the list. */
  function Pack(x: Xfer, k: int, n: int, base: int, flags: int): Desc {
    var d := Open(x, k, base, flags);
    if k + 1 < n then d else d.(next := 0, nextHigh := 0)
  }

  function PackAll(xs: seq<Xfer>, base: int, flags: int): (r: seq<Desc>)
  {
    seq(|xs|, k requires 0 <= k < |xs| => Pack(xs[k], k, |xs|, base, flags))
  }

  /** The list holds the transfers so far, every next pointer set. */
  ghost predicate Holds(list: seq<Desc>, xs: seq<Xfer>, base: int, flags: int) {
    |xs| <= |list| && forall k :: 0 <= k < |xs| ==> list[k] == Open(xs[k], k, base, flags)
  }

  /** Makes the previous transfer longer. */
  method Extend(list: array<Desc>, s: Seg, ghost b: Built, base: int, flags: int, n: nat)
    requires b.xs != [] && n == |b.xs| && Holds(list[..], b.xs, base, flags)
    modifies list
    ensures var l := b.xs[n - 1];
      Holds(list[..], b.xs[n - 1 := l.(words := l.words + s.len / 4)], base, flags)
    ensures forall k :: n <= k < list.Length ==> list[k] == old(list[k])
  {
    list[n - 1] := list[n - 1].(count := list[n - 1].count + s.len / 4);
  }

  /** Starts a new transfer. */
  method Append(list: array<Desc>, s: Seg, card: int, ghost b: Built, base: int, flags: int, n: nat)
    requires n == |b.xs| < list.Length && Holds(list[..], b.xs, base, flags)
    modifies list
    ensures Holds(list[..], b.xs + [Xfer(s.addr, card, s.len / 4)], base, flags)
    ensures forall k :: n < k < list.Length ==> list[k] == old(list[k])
  {
    var next := base + DESC_BYTES * (n + 1);
    list[n] := Desc(s.addr % W32, card, s.len / 4 + flags, next % W32, s.addr / W32, next / W32);
  }

  /** Ends the chain at the last descriptor. */
  method Close(list: array<Desc>, n: nat, ghost xs: seq<Xfer>, base: int, flags: int)
    requires n == |xs| && Holds(list[..], xs, base, flags)
    modifies list
    ensures list[..n] == PackAll(xs, base, flags)
    ensures forall k :: n <= k < list.Length ==> list[k] == old(list[k])
  {
    if n > 0 {
      list[n - 1] := list[n - 1].(next := 0, nextHigh := 0);
    }
  }

  /** One round of the loop: merges the segment or starts a transfer with it. */
  method AddToList(list: array<Desc>, s: Seg, ghost b: Built, base: int, flags: int, merge: bool,
                   n: nat, paddr: int, tsize: int, card: int)
    returns (n': nat, paddr': int, tsize': int, card': int)
    requires b == Built(b.xs, paddr, tsize, card) && n == |b.xs| < list.Length && Holds(list[..], b.xs, base, flags)
    modifies list
    ensures n <= n' <= n + 1 && n' == |AddSeg(b, s, merge).xs|
    ensures AddSeg(b, s, merge) == Built(AddSeg(b, s, merge).xs, paddr', tsize', card')
    ensures Holds(list[..], AddSeg(b, s, merge).xs, base, flags)
    ensures forall k :: n' <= k < list.Length ==> list[k] == old(list[k])
  {
    n' := n;
    if merge && n > 0 && tsize < MAX_DMA_SIZE && paddr == s.addr {
      Extend(list, s, b, base, flags, n);
      paddr' := (paddr + s.len) % W64;
      tsize' := tsize + s.len;
    } else {
      Append(list, s, card, b, base, flags, n);
      paddr' := (s.addr + s.len) % W64;
      tsize' := s.len;
      n' := n + 1;
    }
    card' := (card + s.len) % W32;
  }

  /** Builds the descriptor list in place. The segment and list bounds are what the mapping
      layer and the fixed list allocation give; the list does not wrap the address space. */
  method CardSg(sgl: seq<Seg>, list: array<Desc>, base: int, cardoff: int, fromDevice: bool, dma64: bool, merge: bool)
    returns (n: nat)
    requires SegsOk(sgl) && |sgl| <= list.Length && 0 <= cardoff < W32
    requires 0 <= base && base + DESC_BYTES * list.Length < W64
    modifies list
    ensures n == |Compile(sgl, cardoff, merge).xs| <= |sgl|
    ensures list[..n] == PackAll(Compile(sgl, cardoff, merge).xs, base, Flags(fromDevice, dma64))
    ensures forall k :: n <= k < list.Length ==> list[k] == old(list[k])
  {
    var tcm := Flags(fromDevice, dma64);
    var card, paddr, tsize := cardoff, 0, 0;
    n := 0;
    ghost var b := Built([], 0, 0, cardoff);
    for i := 0 to |sgl|
      invariant b == Compile(sgl[..i], cardoff, merge) && b == Built(b.xs, paddr, tsize, card)
      invariant n == |b.xs| <= i
      invariant Holds(list[..], b.xs, base, tcm)
      invariant forall k :: n <= k < list.Length ==> list[k] == old(list[k])
    {
      CompileStep(sgl, i, cardoff, merge);
      n, paddr, tsize, card := AddToList(list, sgl[i], b, base, tcm, merge, n, paddr, tsize, card);
      b := AddSeg(b, sgl[i], merge);
    }
    assert sgl[..|sgl|] == sgl;
    Close(list, n, b.xs, base, tcm);
  }

  lemma CompileStep(sgl: seq<Seg>, i: nat, cardoff: int, merge: bool)
    requires i < |sgl|
    ensures Compile(sgl[..i + 1], cardoff, merge) == AddSeg(Compile(sgl[..i], cardoff, merge), sgl[i], merge)
  {
    assert sgl[..i + 1][..i] == sgl[..i];
  }

  // ----- what a list moves

  /** One 32-bit word moved between a host bus address and a card address. */
  datatype Move = Move(host: int, card: int)

  function MovesOf(x: Xfer): seq<Move>
    requires 0 <= x.words
  {
    seq(x.words, k requires 0 <= k < x.words => Move((x.addr + 4 * k) % W64, (x.card + 4 * k) % W32))
  }

  ghost predicate WordsOk(xs: seq<Xfer>) {
    forall i :: 0 <= i < |xs| ==> 0 <= xs[i].words
  }

  function Moves(xs: seq<Xfer>): seq<Move>
    requires WordsOk(xs)
  {
    if xs == [] then [] else Moves(xs[..|xs| - 1]) + MovesOf(xs[|xs| - 1])
  }

  function Bytes(sgl: seq<Seg>): int {
    if sgl == [] then 0 else Bytes(sgl[..|sgl| - 1]) + sgl[|sgl| - 1].len
  }

  /** The reference: every segment on its own, on consecutive card addresses. */
  function Direct(sgl: seq<Seg>, cardoff: int): seq<Move>
    requires SegsOk(sgl)
  {
    if sgl == [] then []
    else
      var t, s := sgl[..|sgl| - 1], sgl[|sgl| - 1];
      Direct(t, cardoff) + MovesOf(Xfer(s.addr, (cardoff + Bytes(t)) % W32, s.len / 4))
  }

  /** Lengthening a transfer by an adjoining one moves what the two would move. */
  lemma MovesJoin(a: Xfer, b: Xfer)
    requires 0 <= a.words && 0 <= b.words
    requires b.addr % W64 == (a.addr + 4 * a.words) % W64 && b.card % W32 == (a.card + 4 * a.words) % W32
    ensures MovesOf(a.(words := a.words + b.words)) == MovesOf(a) + MovesOf(b)
  {
    var l, r := MovesOf(a.(words := a.words + b.words)), MovesOf(a) + MovesOf(b);
    forall k | a.words <= k < a.words + b.words ensures l[k] == r[k] {
      var j := k - a.words;
      ModAdd(a.addr + 4 * a.words, 4 * j, W64);
      ModAdd(b.addr, 4 * j, W64);
      ModAdd(a.card + 4 * a.words, 4 * j, W32);
      ModAdd(b.card, 4 * j, W32);
    }
  }

  /** Where the next adjoining segment would go. */
  ghost predicate EndsAt(b: Built) {
    b.xs != [] ==>
      var l := b.xs[|b.xs| - 1];
      b.paddr == (l.addr + 4 * l.words) % W64 && b.card == (l.card + 4 * l.words) % W32
  }

  lemma MovesOfExtended(xs: seq<Xfer>, x: Xfer)
    requires WordsOk(xs) && xs != [] && 0 <= x.words
    requires var l := xs[|xs| - 1];
      x.addr % W64 == (l.addr + 4 * l.words) % W64 && x.card % W32 == (l.card + 4 * l.words) % W32
    ensures var l := xs[|xs| - 1];
      Moves(xs[|xs| - 1 := l.(words := l.words + x.words)]) == Moves(xs) + MovesOf(x)
  {
    var l := xs[|xs| - 1];
    var ys := xs[|xs| - 1 := l.(words := l.words + x.words)];
    MovesJoin(l, x);
    assert ys[..|ys| - 1] == xs[..|xs| - 1];
  }

  /** The invariant of the compiler: what it has built moves what the segments so far ask for. */
  ghost predicate Faithful(b: Built, moves: seq<Move>, card: int) {
    WordsOk(b.xs) && EndsAt(b) && b.card == card % W32 && Moves(b.xs) == moves
  }

  lemma AppendKeepsFaithful(b: Built, s: Seg, merge: bool, moves: seq<Move>, card: int)
    requires SegOk(s) && s.len % 4 == 0 && Faithful(b, moves, card) && !Merges(b, s, merge)
    ensures Faithful(AddSeg(b, s, merge), moves + MovesOf(Xfer(s.addr, card % W32, s.len / 4)), card + s.len)
  {
    var x := Xfer(s.addr, b.card, s.len / 4);
    assert s.len == 4 * (s.len / 4);
    ModAdd(card, s.len, W32);
    assert (b.xs + [x])[..|b.xs|] == b.xs;
  }

  lemma MergeKeepsFaithful(b: Built, s: Seg, merge: bool, moves: seq<Move>, card: int)
    requires SegOk(s) && s.len % 4 == 0 && Faithful(b, moves, card) && Merges(b, s, merge)
    ensures Faithful(AddSeg(b, s, merge), moves + MovesOf(Xfer(s.addr, card % W32, s.len / 4)), card + s.len)
  {
    var l := b.xs[|b.xs| - 1];
    var x := Xfer(s.addr, b.card, s.len / 4);
    assert s.len == 4 * (s.len / 4);
    ModAdd(card, s.len, W32);
    MovesOfExtended(b.xs, x);
    ModAdd(l.addr + 4 * l.words, s.len, W64);
    ModAdd(l.card + 4 * l.words, s.len, W32);
  }

  lemma {:induction false} CompileIsFaithful(sgl: seq<Seg>, cardoff: int, merge: bool)
    requires SegsOk(sgl) && Aligned(sgl) && 0 <= cardoff < W32
    ensures Faithful(Compile(sgl, cardoff, merge), Direct(sgl, cardoff), cardoff + Bytes(sgl))
    decreases |sgl|
  {
    if sgl == [] {
      assert cardoff % W32 == cardoff;
    } else {
      hide AddSeg, MovesOf, Faithful, Merges, Compile, Direct, Bytes;
      var t, s := sgl[..|sgl| - 1], sgl[|sgl| - 1];
      CompileIsFaithful(t, cardoff, merge);
      CompileLast(sgl, cardoff, merge);
      SegKeepsFaithful(Compile(t, cardoff, merge), s, merge, Direct(t, cardoff), cardoff + Bytes(t));
    }
  }

  lemma SegKeepsFaithful(b: Built, s: Seg, merge: bool, moves: seq<Move>, card: int)
    requires SegOk(s) && s.len % 4 == 0 && Faithful(b, moves, card)
    ensures Faithful(AddSeg(b, s, merge), moves + MovesOf(Xfer(s.addr, card % W32, s.len / 4)), card + s.len)
  {
    hide AddSeg, MovesOf, Faithful, Merges;
    if Merges(b, s, merge) {
      MergeKeepsFaithful(b, s, merge, moves, card);
    } else {
      AppendKeepsFaithful(b, s, merge, moves, card);
    }
  }

  lemma CompileLast(sgl: seq<Seg>, cardoff: int, merge: bool)
    requires sgl != [] && SegsOk(sgl)
    ensures var t, s := sgl[..|sgl| - 1], sgl[|sgl| - 1];
      && Compile(sgl, cardoff, merge) == AddSeg(Compile(t, cardoff, merge), s, merge)
      && Direct(sgl, cardoff) == Direct(t, cardoff) + MovesOf(Xfer(s.addr, (cardoff + Bytes(t)) % W32, s.len / 4))
      && Bytes(sgl) == Bytes(t) + s.len
  {
  }

  /** Merging preserves meaning: with or without it, the list moves exactly the words of the
      segments, in order, onto consecutive card addresses. */
  lemma MergePreservesMoves(sgl: seq<Seg>, cardoff: int, merge: bool)
    requires SegsOk(sgl) && Aligned(sgl) && 0 <= cardoff < W32
    ensures WordsOk(Compile(sgl, cardoff, merge).xs)
    ensures Moves(Compile(sgl, cardoff, merge).xs) == Direct(sgl, cardoff)
  {
    CompileIsFaithful(sgl, cardoff, merge);
  }

  // ----- bounds

  ghost predicate AtMost(sgl: seq<Seg>, limit: int) {
    forall i :: 0 <= i < |sgl| ==> sgl[i].len <= limit
  }

  ghost predicate XferBounded(x: Xfer, limit: int) {
    0 <= 4 * x.words <= 0xF0000 - 4 + limit && 0 <= x.addr < W64
  }

  ghost predicate Bounded(b: Built, limit: int) {
    && (forall i :: 0 <= i < |b.xs| ==> XferBounded(b.xs[i], limit))
    && (b.xs != [] ==> b.tsize == 4 * b.xs[|b.xs| - 1].words)
  }

  lemma AddSegBounded(b: Built, s: Seg, merge: bool, limit: int)
    requires Bounded(b, limit) && SegOk(s) && s.len % 4 == 0 && s.len <= limit && s.addr < W64
    ensures Bounded(AddSeg(b, s, merge), limit)
  {
    var r := AddSeg(b, s, merge);
    assert s.len == 4 * (s.len / 4);
    forall i | 0 <= i < |r.xs| ensures XferBounded(r.xs[i], limit) {
      if i < |b.xs| { assert XferBounded(b.xs[i], limit); }
    }
  }

  lemma {:induction false} TransferCount(sgl: seq<Seg>, cardoff: int, merge: bool)
    ensures var b := Compile(sgl, cardoff, merge);
      |b.xs| <= |sgl| && (!merge ==> |b.xs| == |sgl|) && (sgl != [] ==> b.xs != [])
    decreases |sgl|
  {
    if sgl != [] { TransferCount(sgl[..|sgl| - 1], cardoff, merge); }
  }

  /** A merged transfer stops growing at the limit, so it exceeds it by less than one segment.
      There are at most as many transfers as segments, and exactly as many without merging. */
  lemma {:induction false} TransfersAreBounded(sgl: seq<Seg>, cardoff: int, merge: bool, limit: int)
    requires SegsOk(sgl) && Aligned(sgl) && AtMost(sgl, limit) && 0 <= limit
    ensures Bounded(Compile(sgl, cardoff, merge), limit)
    ensures |Compile(sgl, cardoff, merge).xs| <= |sgl| && (!merge ==> |Compile(sgl, cardoff, merge).xs| == |sgl|)
    decreases |sgl|
  {
    TransferCount(sgl, cardoff, merge);
    if sgl != [] {
      TransfersAreBounded(sgl[..|sgl| - 1], cardoff, merge, limit);
      AddSegBounded(Compile(sgl[..|sgl| - 1], cardoff, merge), sgl[|sgl| - 1], merge, limit);
    }
  }

  /** Two neighbouring transfers that the compiler had to keep apart: the second does not go on
      where the first ends, or the first has reached the limit. */
  ghost predicate Separate(x: Xfer, y: Xfer) {
    (x.addr + 4 * x.words) % W64 != y.addr || 4 * x.words >= 0xF0000
  }

  ghost predicate Maximal(xs: seq<Xfer>) {
    forall i :: 0 <= i < |xs| - 1 ==> Separate(xs[i], xs[i + 1])
  }

  lemma AddSegMaximal(b: Built, s: Seg, limit: int)
    requires Maximal(b.xs) && EndsAt(b) && Bounded(b, limit)
    ensures Maximal(AddSeg(b, s, true).xs)
  {
    var r := AddSeg(b, s, true);
    forall i | 0 <= i < |r.xs| - 1 ensures Separate(r.xs[i], r.xs[i + 1]) {
      if i < |b.xs| - 1 { assert Separate(b.xs[i], b.xs[i + 1]); }
    }
  }

  /** Merging leaves nothing to merge: where two transfers follow each other on the bus, the
      first is at least 0xF0000 bytes long. */
  lemma {:induction false} MergingIsMaximal(sgl: seq<Seg>, cardoff: int)
    requires SegsOk(sgl) && Aligned(sgl) && 0 <= cardoff < W32
    ensures Maximal(Compile(sgl, cardoff, true).xs)
    decreases |sgl|
  {
    if sgl != [] {
      var t := sgl[..|sgl| - 1];
      MergingIsMaximal(t, cardoff);
      CompileIsFaithful(t, cardoff, true);
      TransfersAreBounded(t, cardoff, true, MAX_SEG);
      AddSegMaximal(Compile(t, cardoff, true), sgl[|sgl| - 1], MAX_SEG);
    }
  }

  lemma {:induction false} BytesAreWords(sgl: seq<Seg>)
    requires SegsOk(sgl)
    ensures 0 <= Words(sgl) && 4 * Words(sgl) <= Bytes(sgl)
    ensures 4 * Words(sgl) == Bytes(sgl) <==> Aligned(sgl)
    decreases |sgl|
  {
    if sgl != [] {
      var t := sgl[..|sgl| - 1];
      BytesAreWords(t);
      assert Aligned(sgl) <==> Aligned(t) && sgl[|sgl| - 1].len % 4 == 0;
    }
  }

  function Words(sgl: seq<Seg>): int {
    if sgl == [] then 0 else Words(sgl[..|sgl| - 1]) + sgl[|sgl| - 1].len / 4
  }

  function TotalWords(xs: seq<Xfer>): int {
    if xs == [] then 0 else TotalWords(xs[..|xs| - 1]) + xs[|xs| - 1].words
  }

  lemma {:induction false} CompileKeepsWords(sgl: seq<Seg>, cardoff: int, merge: bool)
    ensures TotalWords(Compile(sgl, cardoff, merge).xs) == Words(sgl)
    decreases |sgl|
  {
    if sgl != [] {
      var t, s := sgl[..|sgl| - 1], sgl[|sgl| - 1];
      CompileKeepsWords(t, cardoff, merge);
      var b := Compile(t, cardoff, merge);
      if Merges(b, s, merge) {
        var l := b.xs[|b.xs| - 1];
        assert b.xs[|b.xs| - 1 := l.(words := l.words + s.len / 4)][..|b.xs| - 1] == b.xs[..|b.xs| - 1];
      } else {
        assert (b.xs + [Xfer(s.addr, b.card, s.len / 4)])[..|b.xs|] == b.xs;
      }
    }
  }

  /** A list moves every byte of its segments exactly when each segment is a whole number of
      words; otherwise the odd bytes at segment ends are left out, whether or not it merges. */
  lemma AllBytesMovedIff(sgl: seq<Seg>, cardoff: int, merge: bool)
    requires SegsOk(sgl)
    ensures 4 * TotalWords(Compile(sgl, cardoff, merge).xs) == Bytes(sgl) <==> Aligned(sgl)
  {
    CompileKeepsWords(sgl, cardoff, merge);
    BytesAreWords(sgl);
  }

  // ----- what the hardware reads back

  function Wide(d: Desc): bool { d.count / 0x1000_0000 % 2 == 1 }
  function ToHost(d: Desc): bool { d.count / 0x8000_0000 == 1 }

  function Decode(d: Desc): Xfer {
    Xfer(if Wide(d) then d.hadd + d.haddHigh * W32 else d.hadd, d.cadd, d.count % 0x1000_0000)
  }

  function NextAddr(d: Desc): int {
    if Wide(d) then d.next + d.nextHigh * W32 else d.next
  }

  /** The descriptors met from index k on, following the next addresses until one is zero. */
  function Follow(list: seq<Desc>, base: int, k: int, fuel: nat): seq<Desc>
    decreases fuel
  {
    if fuel == 0 || !(0 <= k < |list|) then []
    else
      var nx := NextAddr(list[k]);
      [list[k]] + if nx == 0 then [] else Follow(list, base, (nx - base) / 32, fuel - 1)
  }

  predicate Packable(x: Xfer, dma64: bool) {
    0 <= x.words < 0x1000_0000 && 0 <= x.addr < (if dma64 then W64 else W32)
  }

  /** The word count never reaches the flag bits, and the address halves reassemble. */
  lemma PackDecodes(x: Xfer, k: int, n: int, base: int, fromDevice: bool, dma64: bool)
    requires Packable(x, dma64)
    ensures var d := Pack(x, k, n, base, Flags(fromDevice, dma64));
      Decode(d) == x && Wide(d) == dma64 && ToHost(d) == fromDevice && 0 <= d.count < W32
  {
  }

  lemma NextOfPacked(x: Xfer, k: nat, n: nat, base: int, fromDevice: bool, dma64: bool)
    requires Packable(x, dma64) && k < n && 0 <= base && base + DESC_BYTES * n < (if dma64 then W64 else W32)
    ensures NextAddr(Pack(x, k, n, base, Flags(fromDevice, dma64))) == if k + 1 < n then base + 32 * (k + 1) else 0
  {
    PackDecodes(x, k, n, base, fromDevice, dma64);
  }

  lemma {:induction false} FollowFrom(xs: seq<Xfer>, base: int, fromDevice: bool, dma64: bool, k: nat, fuel: nat)
    requires forall i :: 0 <= i < |xs| ==> Packable(xs[i], dma64)
    requires 0 <= base && base + DESC_BYTES * |xs| < (if dma64 then W64 else W32)
    requires k < |xs| && |xs| - k <= fuel
    ensures var list := PackAll(xs, base, Flags(fromDevice, dma64)); Follow(list, base, k, fuel) == list[k..]
    decreases |xs| - k
  {
    var list := PackAll(xs, base, Flags(fromDevice, dma64));
    NextOfPacked(xs[k], k, |xs|, base, fromDevice, dma64);
    assert list[k] == Pack(xs[k], k, |xs|, base, Flags(fromDevice, dma64));
    hide Pack, PackAll, NextAddr, Flags;
    if k + 1 < |xs| {
      assert (base + DESC_BYTES * (k + 1) - base) / DESC_BYTES == k + 1;
      FollowFrom(xs, base, fromDevice, dma64, k + 1, fuel - 1);
    }
  }

  function DecodeAll(list: seq<Desc>): seq<Xfer> {
    seq(|list|, i requires 0 <= i < |list| => Decode(list[i]))
  }

  lemma DecodeAllPacked(xs: seq<Xfer>, base: int, fromDevice: bool, dma64: bool)
    requires forall i :: 0 <= i < |xs| ==> Packable(xs[i], dma64)
    ensures DecodeAll(PackAll(xs, base, Flags(fromDevice, dma64))) == xs
  {
    forall i | 0 <= i < |xs| ensures DecodeAll(PackAll(xs, base, Flags(fromDevice, dma64)))[i] == xs[i] {
      PackDecodes(xs[i], i, |xs|, base, fromDevice, dma64);
    }
  }

  /** What the card does with a list: it follows the chain from the first descriptor and
      moves each descriptor's words. This is exactly the word moves of the segments; every
      descriptor is visited once, in order, and the chain ends. */
  lemma ChainMovesSegments(sgl: seq<Seg>, cardoff: int, merge: bool, base: int, fromDevice: bool, dma64: bool)
    requires SegsOk(sgl) && Aligned(sgl) && sgl != [] && 0 <= cardoff < W32
    requires 0 <= base && base + DESC_BYTES * |sgl| < (if dma64 then W64 else W32)
    requires !dma64 ==> forall i :: 0 <= i < |sgl| ==> sgl[i].addr < W32
    ensures var list := PackAll(Compile(sgl, cardoff, merge).xs, base, Flags(fromDevice, dma64));
      && Follow(list, base, 0, |list|) == list != []
      && (forall i :: 0 <= i < |list| ==> ToHost(list[i]) == fromDevice)
      && WordsOk(DecodeAll(list)) && Moves(DecodeAll(list)) == Direct(sgl, cardoff)
  {
    var xs := Compile(sgl, cardoff, merge).xs;
    TransferCount(sgl, cardoff, merge);
    TransfersAreBounded(sgl, cardoff, merge, MAX_SEG);
    assert forall i :: 0 <= i < |xs| ==> XferBounded(xs[i], MAX_SEG);
    AddressesStay(sgl, cardoff, merge, if dma64 then W64 else W32);
    FollowFrom(xs, base, fromDevice, dma64, 0, |xs|);
    DecodeAllPacked(xs, base, fromDevice, dma64);
    MergePreservesMoves(sgl, cardoff, merge);
    forall i | 0 <= i < |xs|
      ensures ToHost(PackAll(xs, base, Flags(fromDevice, dma64))[i]) == fromDevice
    {
      PackDecodes(xs[i], i, |xs|, base, fromDevice, dma64);
    }
  }

  /** Every transfer starts where some segment starts. */
  lemma {:induction false} AddressesStay(sgl: seq<Seg>, cardoff: int, merge: bool, limit: int)
    requires SegsOk(sgl) && forall i :: 0 <= i < |sgl| ==> sgl[i].addr < limit
    ensures forall i :: 0 <= i < |Compile(sgl, cardoff, merge).xs| ==> Compile(sgl, cardoff, merge).xs[i].addr < limit
    decreases |sgl|
  {
    if sgl != [] { AddressesStay(sgl[..|sgl| - 1], cardoff, merge, limit); }
  }
}
