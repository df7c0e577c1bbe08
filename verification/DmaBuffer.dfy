/** A DMA request: the user's byte range is cut into page segments, mapped to bus
    addresses, and compiled into a descriptor list. */
module DmaBuffer {
  import opened Errno
  import opened Arith
  import opened SgCompiler
  import opened DmaMapping

  const PAGE_SIZE := 4096

  /** A part of pinned page number page of the request. */
  datatype PageSeg = PageSeg(page: int, off: int, len: int)

  predicate Request(data: int, size: int) {
    0 < data && 8 <= size && data + size < W64
  }

  function FirstPage(data: int): int { data / PAGE_SIZE }

  function PageCount(data: int, size: int): int {
    (data + size - 1) / PAGE_SIZE - FirstPage(data) + 1
  }

  /** What the user's range has in common with its page number i. */
  function Tile(data: int, size: int, i: int): PageSeg {
    var page := (FirstPage(data) + i) * PAGE_SIZE;
    var from := Max(data, page);
    PageSeg(i, from - page, Min(data + size, page + PAGE_SIZE) - from)
  }

  /** The user address a page segment starts at. */
  function UserAddr(data: int, t: PageSeg): int {
    (FirstPage(data) + t.page) * PAGE_SIZE + t.off
  }

  /** The page segments are non-empty, each inside its own page, and tile the user's range. */
  lemma TilesAreExact(data: int, size: int, i: int)
    requires Request(data, size) && 0 <= i < PageCount(data, size)
    ensures var t := Tile(data, size, i);
      && 0 < t.len && 0 <= t.off && t.off + t.len <= PAGE_SIZE
      && (i == 0 ==> UserAddr(data, t) == data)
      && (0 < i ==> UserAddr(data, t) == UserAddr(data, Tile(data, size, i - 1)) + Tile(data, size, i - 1).len)
      && (i == PageCount(data, size) - 1 ==> UserAddr(data, t) + t.len == data + size)
  {
  }

  /** Fills the segment table; what is left of size afterwards is returned. */
  method MapSg(data: int, size: int, count: int, sgl: array<PageSeg>) returns (rest: int)
    requires Request(data, size) && count == PageCount(data, size) <= sgl.Length
    modifies sgl
    ensures rest == 0
    ensures forall i :: 0 <= i < count ==> sgl[i] == Tile(data, size, i)
  {
    var off := data % PAGE_SIZE;
    var fbs := Min(size, PAGE_SIZE - off);
    sgl[0] := PageSeg(0, off, fbs);
    rest := size - fbs;
    TilesAreExact(data, size, 0);
    for i := 1 to count
      invariant forall k :: 0 <= k < i ==> sgl[k] == Tile(data, size, k)
      invariant rest == data + size - (UserAddr(data, Tile(data, size, i - 1)) + Tile(data, size, i - 1).len)
    {
      TilesAreExact(data, size, i);
      fbs := Min(rest, PAGE_SIZE);
      sgl[i] := PageSeg(i, 0, fbs);
      rest := rest - fbs;
    }
  }

  /** The segments as mapped one page at a time, page i of the request being at bus(i). */
  function PageSegs(data: int, size: int, bus: int -> int, n: nat): seq<Seg>
    requires Request(data, size)
  {
    seq(n, i => Seg(bus(i) + Tile(data, size, i).off, Tile(data, size, i).len))
  }

  ghost predicate BusOk(bus: int -> int, count: int) {
    forall i :: 0 <= i < count ==> 0 <= bus(i) && bus(i) + PAGE_SIZE <= W64
  }

  /** The bus address of a byte of the user's range. */
  function BusAddr(data: int, bus: int -> int, v: int): int {
    bus(v / PAGE_SIZE - FirstPage(data)) + v % PAGE_SIZE
  }

  /** The move the user asked for word j of the range. */
  function WantedAt(data: int, bus: int -> int, cardoff: int, j: int): Move {
    Move(BusAddr(data, bus, data + 4 * j) % W64, (cardoff + 4 * j) % W32)
  }

  /** The word moves the user asked for. */
  function Wanted(data: int, bytes: int, bus: int -> int, cardoff: int): seq<Move>
    requires 0 <= bytes
  {
    seq(bytes / 4, j => WantedAt(data, bus, cardoff, j))
  }

  /** The bytes of the range before page segment i. */
  function Covered(data: int, size: int, i: int): int {
    if i == PageCount(data, size) then size else UserAddr(data, Tile(data, size, i)) - data
  }

  lemma CoveredStep(data: int, size: int, i: int)
    requires Request(data, size) && 0 <= i < PageCount(data, size)
    ensures 0 <= Covered(data, size, i) && Covered(data, size, 0) == 0
    ensures Covered(data, size, i + 1) == Covered(data, size, i) + Tile(data, size, i).len
  {
    TilesAreExact(data, size, i);
    if i + 1 < PageCount(data, size) { TilesAreExact(data, size, i + 1); }
  }

  lemma PageSegsOk(data: int, size: int, bus: int -> int, n: nat)
    requires Request(data, size) && n <= PageCount(data, size) && BusOk(bus, n)
    ensures SegsOk(PageSegs(data, size, bus, n)) && AtMost(PageSegs(data, size, bus, n), PAGE_SIZE)
  {
    forall i | 0 <= i < n ensures SegOk(PageSegs(data, size, bus, n)[i]) && PageSegs(data, size, bus, n)[i].len <= PAGE_SIZE {
      TilesAreExact(data, size, i);
    }
  }

  lemma {:induction false} PageSegsBytes(data: int, size: int, bus: int -> int, n: nat)
    requires Request(data, size) && n <= PageCount(data, size)
    ensures Bytes(PageSegs(data, size, bus, n)) == Covered(data, size, n)
    decreases n
  {
    var s := PageSegs(data, size, bus, n);
    CoveredStep(data, size, 0);
    if n > 0 {
      assert s[..n - 1] == PageSegs(data, size, bus, n - 1);
      PageSegsBytes(data, size, bus, n - 1);
      CoveredStep(data, size, n - 1);
    }
  }

  /** The requests cut into whole words: the size is, and the start too unless one page holds all. */
  predicate WordRequest(data: int, size: int) {
    Request(data, size) && size % 4 == 0 && (data % 4 == 0 || PageCount(data, size) == 1)
  }

  lemma TileIsWords(data: int, size: int, i: int)
    requires WordRequest(data, size) && 0 <= i < PageCount(data, size)
    ensures Tile(data, size, i).len % 4 == 0
    ensures 0 <= Covered(data, size, i) && Covered(data, size, i) % 4 == 0
  {
    CoveredStep(data, size, i);
    if PageCount(data, size) == 1 {
      FirstTile(data, size);
    } else {
      var page := (FirstPage(data) + i) * PAGE_SIZE;
      WholeWords(page);
      WholeWords(page + PAGE_SIZE);
      WordSum(data, size);
      var from, to := Max(data, page), Min(data + size, page + PAGE_SIZE);
      WordDifference(to, from);
      WordDifference(from, data);
    }
  }

  lemma WholeWords(page: int)
    requires page % PAGE_SIZE == 0
    ensures page % 4 == 0
  {
  }

  lemma WordSum(a: int, b: int)
    requires a % 4 == 0 && b % 4 == 0
    ensures (a + b) % 4 == 0
  {
  }

  lemma WordDifference(a: int, b: int)
    requires a % 4 == 0 && b % 4 == 0
    ensures (a - b) % 4 == 0
  {
  }

  /** Inside one page segment, user addresses and bus addresses advance together. */
  lemma TileWord(data: int, size: int, bus: int -> int, i: int, b: int)
    requires Request(data, size) && 0 <= i < PageCount(data, size) && 0 <= b < Tile(data, size, i).len
    ensures BusAddr(data, bus, data + Covered(data, size, i) + b) == bus(i) + Tile(data, size, i).off + b
  {
    TilesAreExact(data, size, i);
    var t := Tile(data, size, i);
    var v := data + Covered(data, size, i) + b;
    DivModUnique(v, PAGE_SIZE, FirstPage(data) + i, t.off + b);
  }

  lemma TileWords(data: int, size: int, bus: int -> int, cardoff: int, i: int)
    requires WordRequest(data, size) && 0 <= i < PageCount(data, size)
    ensures var t, c := Tile(data, size, i), Covered(data, size, i);
      && 0 <= c && 0 <= t.len
      && Wanted(data, c, bus, cardoff) + MovesOf(Xfer(bus(i) + t.off, (cardoff + c) % W32, t.len / 4))
         == Wanted(data, c + t.len, bus, cardoff)
  {
    TilesAreExact(data, size, i);
    TileIsWords(data, size, i);
    var t, c := Tile(data, size, i), Covered(data, size, i);
    var m := MovesOf(Xfer(bus(i) + t.off, (cardoff + c) % W32, t.len / 4));
    hide Tile, Covered, PageCount, BusAddr, MovesOf, Wanted;
    forall k | 0 <= k < t.len / 4 ensures m[k] == WantedAt(data, bus, cardoff, c / 4 + k) {
      TileWordAt(data, size, bus, cardoff, i, k);
    }
    WantedSplit(data, bus, cardoff, c, t.len, m);
  }

  lemma WantedSplit(data: int, bus: int -> int, cardoff: int, c: int, len: int, m: seq<Move>)
    requires 0 <= c && 0 <= len && c % 4 == 0 && len % 4 == 0 && |m| == len / 4
    requires forall k :: 0 <= k < len / 4 ==> m[k] == WantedAt(data, bus, cardoff, c / 4 + k)
    ensures Wanted(data, c, bus, cardoff) + m == Wanted(data, c + len, bus, cardoff)
  {
    hide WantedAt;
    assert (c + len) / 4 == c / 4 + len / 4;
  }

  lemma TileWordAt(data: int, size: int, bus: int -> int, cardoff: int, i: int, k: int)
    requires WordRequest(data, size) && 0 <= i < PageCount(data, size) && 0 <= k < Tile(data, size, i).len / 4
    ensures var t, c := Tile(data, size, i), Covered(data, size, i);
      && MovesOf(Xfer(bus(i) + t.off, (cardoff + c) % W32, t.len / 4))[k] == WantedAt(data, bus, cardoff, c / 4 + k)
  {
    var t, c := Tile(data, size, i), Covered(data, size, i);
    TileIsWords(data, size, i);
    TileWord(data, size, bus, i, 4 * k);
    hide Tile, Covered, PageCount, BusAddr;
    assert 4 * (c / 4 + k) == c + 4 * k;
    ModAdd(cardoff + c, 4 * k, W32);
  }

  lemma DirectAppends(s: seq<Seg>, x: Seg, cardoff: int)
    requires SegsOk(s) && SegOk(x)
    ensures SegsOk(s + [x])
    ensures Direct(s + [x], cardoff) == Direct(s, cardoff) + MovesOf(Xfer(x.addr, (cardoff + Bytes(s)) % W32, x.len / 4))
  {
    assert (s + [x])[..|s|] == s;
  }

  lemma PageSegsAppend(data: int, size: int, bus: int -> int, i: nat)
    requires Request(data, size) && i < PageCount(data, size) && BusOk(bus, PageCount(data, size))
    ensures var x := Seg(bus(i) + Tile(data, size, i).off, Tile(data, size, i).len);
      SegOk(x) && PageSegs(data, size, bus, i + 1) == PageSegs(data, size, bus, i) + [x]
  {
    TilesAreExact(data, size, i);
  }

  /** The first n page segments move the first words the user asked for. */
  ghost predicate MovesSoFar(data: int, size: int, bus: int -> int, cardoff: int, n: nat)
    requires Request(data, size)
  {
    && SegsOk(PageSegs(data, size, bus, n)) && 0 <= Covered(data, size, n)
    && Direct(PageSegs(data, size, bus, n), cardoff) == Wanted(data, Covered(data, size, n), bus, cardoff)
  }

  lemma MovesOneMore(data: int, size: int, bus: int -> int, cardoff: int, i: nat)
    requires Request(data, size) && i < PageCount(data, size) && BusOk(bus, PageCount(data, size))
    requires WordRequest(data, size) && MovesSoFar(data, size, bus, cardoff, i)
    ensures MovesSoFar(data, size, bus, cardoff, i + 1)
  {
    hide Direct, MovesOf, Wanted, Covered, Tile, PageSegs, PageCount;
    PageSegsAppend(data, size, bus, i);
    PageSegsBytes(data, size, bus, i);
    CoveredStep(data, size, i);
    TileWords(data, size, bus, cardoff, i);
    DirectAppends(PageSegs(data, size, bus, i), Seg(bus(i) + Tile(data, size, i).off, Tile(data, size, i).len), cardoff);
  }

  lemma {:induction false} PageSegsMove(data: int, size: int, bus: int -> int, cardoff: int, n: nat)
    requires Request(data, size) && n <= PageCount(data, size) && BusOk(bus, PageCount(data, size))
    requires WordRequest(data, size)
    ensures MovesSoFar(data, size, bus, cardoff, n)
    decreases n
  {
    if n == 0 {
      CoveredStep(data, size, 0);
    } else {
      PageSegsMove(data, size, bus, cardoff, n - 1);
      MovesOneMore(data, size, bus, cardoff, n - 1);
    }
  }

  // ----- the whole request

  lemma FirstTile(data: int, size: int)
    requires Request(data, size)
    ensures PageCount(data, size) == 1 ==> Tile(data, size, 0).len == size
    ensures PageCount(data, size) > 1 ==> Tile(data, size, 0).len == PAGE_SIZE - data % PAGE_SIZE
    ensures 1 <= PageCount(data, size)
  {
  }

  lemma WordOffset(data: int)
    ensures (PAGE_SIZE - data % PAGE_SIZE) % 4 == 0 <==> data % 4 == 0
  {
    var q, r := data / PAGE_SIZE, data % PAGE_SIZE;
    assert data == r + 1024 * q * 4;
    ModMultiple(r, 1024 * q, 4);
  }

  /** Page segments are whole words exactly when the size is, and the start too unless the
      range lies in one page. */
  lemma PageSegsAlignedIff(data: int, size: int, bus: int -> int)
    requires Request(data, size) && BusOk(bus, PageCount(data, size))
    ensures Aligned(PageSegs(data, size, bus, PageCount(data, size))) <==> WordRequest(data, size)
  {
    FirstTile(data, size);
    WordOffset(data);
    if Aligned(PageSegs(data, size, bus, PageCount(data, size))) {
      AlignedMeansWords(data, size, bus);
    } else if WordRequest(data, size) {
      forall i | 0 <= i < PageCount(data, size) ensures Tile(data, size, i).len % 4 == 0 { TileIsWords(data, size, i); }
    }
  }

  lemma AlignedMeansWords(data: int, size: int, bus: int -> int)
    requires Request(data, size) && BusOk(bus, PageCount(data, size))
    requires Aligned(PageSegs(data, size, bus, PageCount(data, size)))
    ensures size % 4 == 0 && Tile(data, size, 0).len % 4 == 0
  {
    var n := PageCount(data, size);
    FirstTile(data, size);
    assert Covered(data, size, n) == size;
    hide Tile, PageCount, Covered, Bytes;
    PageSegsOk(data, size, bus, n);
    PageSegsBytes(data, size, bus, n);
    BytesAreWords(PageSegs(data, size, bus, n));
    assert PageSegs(data, size, bus, n)[0].len % 4 == 0;
  }

  /** A request is sure to move every byte of the user's range, however the mapping layer joins
      the pages, exactly when its size is a whole number of words and it starts on a word or stays
      inside one page. For one given mapping SgCompiler.AllBytesMovedIff is exact. */
  lemma UserBytesMovedIff(data: int, size: int, bus: int -> int, cardoff: int, merge: bool)
    requires Request(data, size) && BusOk(bus, PageCount(data, size))
    ensures var segs := PageSegs(data, size, bus, PageCount(data, size));
      (forall joins | SegsOk(Mapped(segs, joins)) :: 4 * TotalWords(Compile(Mapped(segs, joins), cardoff, merge).xs) == size)
      <==> size % 4 == 0 && (data % 4 == 0 || PageCount(data, size) == 1)
  {
    var n := PageCount(data, size);
    var segs := PageSegs(data, size, bus, n);
    assert Covered(data, size, n) == size;
    PageSegsOk(data, size, bus, n);
    PageSegsBytes(data, size, bus, n);
    PageSegsAlignedIff(data, size, bus);
    hide PageSegs, Mapped, Compile, TotalWords, Covered, Aligned;
    MappedAlone(segs);
    AllBytesMovedIff(segs, cardoff, merge);
    forall joins | SegsOk(Mapped(segs, joins))
      ensures Aligned(segs) ==> 4 * TotalWords(Compile(Mapped(segs, joins), cardoff, merge).xs) == size
    {
      MappedBytes(segs, joins);
      AllBytesMovedIff(Mapped(segs, joins), cardoff, merge);
    }
    assert SegsOk(Mapped(segs, {}));
  }

  /** Joining can save a request that page segments of their own cut short: two pages that are
      neighbours on the bus, for a range that starts off a word. */
  lemma JoiningCanHelp(a: int, b: int, cardoff: int, merge: bool)
    requires 0 <= a && 0 < b && a + b <= MAX_SEG && (a + b) % 4 == 0 && a % 4 != 0
    ensures var segs := [Seg(0, a), Seg(a, b)];
      && SegsOk(segs) && 4 * TotalWords(Compile(segs, cardoff, merge).xs) != Bytes(segs)
      && SegsOk(Mapped(segs, {1})) && 4 * TotalWords(Compile(Mapped(segs, {1}), cardoff, merge).xs) == Bytes(segs)
  {
    var segs := [Seg(0, a), Seg(a, b)];
    hide Compile, TotalWords;
    TwoJoined(Seg(0, a), Seg(a, b));
    MappedBytes(segs, {1});
    assert !Aligned(segs) by { assert segs[0].len % 4 != 0; }
    AllBytesMovedIff(segs, cardoff, merge);
    AllBytesMovedIff(Mapped(segs, {1}), cardoff, merge);
  }

  lemma TwoJoined(a: Seg, b: Seg)
    requires a.addr + a.len == b.addr
    ensures Mapped([a, b], {1}) == [Seg(a.addr, a.len + b.len)]
  {
    assert [a, b][..1] == [a] && [a][..0] == [];
    assert Mapped([a], {1}) == [a];
  }

  lemma PageWordsWanted(data: int, size: int, bus: int -> int, cardoff: int)
    requires WordRequest(data, size) && BusOk(bus, PageCount(data, size))
    ensures var segs := PageSegs(data, size, bus, PageCount(data, size));
      SegsOk(segs) && OntoCard(HostWords(segs), cardoff) == Wanted(data, size, bus, cardoff)
  {
    var n := PageCount(data, size);
    PageSegsOk(data, size, bus, n);
    PageSegsAlignedIff(data, size, bus);
    PageSegsMove(data, size, bus, cardoff, n);
    DirectIsOntoCard(PageSegs(data, size, bus, n), cardoff);
  }

  /** End to end: for a request of whole words, however the mapping layer joined the page segments
      and whether or not merging is on, the card following the descriptor chain moves exactly
      word j of the user's range to or from card address cardoff + 4 j, for every j. */
  lemma ChainMovesBuffer(data: int, size: int, bus: int -> int, joins: set<int>, cardoff: int, merge: bool,
                         base: int, fromDevice: bool, dma64: bool)
    requires WordRequest(data, size) && BusOk(bus, PageCount(data, size)) && 0 <= cardoff < W32
    requires var mapped := Mapped(PageSegs(data, size, bus, PageCount(data, size)), joins);
      && SegsOk(mapped) && 0 <= base && base + DESC_BYTES * |mapped| < (if dma64 then W64 else W32)
      && (!dma64 ==> forall i :: 0 <= i < |mapped| ==> mapped[i].addr < W32)
    ensures var mapped := Mapped(PageSegs(data, size, bus, PageCount(data, size)), joins);
      var list := PackAll(Compile(mapped, cardoff, merge).xs, base, Flags(fromDevice, dma64));
      && WordsOk(DecodeAll(Follow(list, base, 0, |list|)))
      && Moves(DecodeAll(Follow(list, base, 0, |list|))) == Wanted(data, size, bus, cardoff)
  {
    var segs := PageSegs(data, size, bus, PageCount(data, size));
    var mapped := Mapped(segs, joins);
    FirstTile(data, size);
    PageSegsAlignedIff(data, size, bus);
    PageWordsWanted(data, size, bus, cardoff);
    assert segs != [];
    hide PageSegs, Mapped, Compile, Aligned, Wanted, Follow, Moves, HostWords, OntoCard, PackAll, DecodeAll, Flags;
    MappedCount(segs, joins);
    MappedBytes(segs, joins);
    MappedKeepsWords(segs, joins);
    ChainMovesSegments(mapped, cardoff, merge, base, fromDevice, dma64);
    DirectIsOntoCard(mapped, cardoff);
  }

  /** The page segments with their bus addresses. */
  method MapPages(data: int, size: int, count: int, bus: int -> int, pages: array<PageSeg>) returns (segs: seq<Seg>)
    requires Request(data, size) && count == PageCount(data, size) <= pages.Length
    modifies pages
    ensures segs == PageSegs(data, size, bus, count) && |segs| == count
  {
    var rest := MapSg(data, size, count, pages);
    segs := [];
    for i := 0 to count
      invariant segs == PageSegs(data, size, bus, i)
    {
      segs := segs + [Seg(bus(i) + pages[i].off, pages[i].len)];
    }
  }

  /** Sets up a transfer. The checks come in this order; bus and joins are what the mapping layer
      makes of the pages. */
  method DmaInit(data: int, size: int, cardoff: int, fromDevice: bool, dma64: bool, merge: bool, buffers: bool,
                 bus: int -> int, joins: set<int>, pages: array<PageSeg>, list: array<Desc>, base: int)
    returns (ret: int, n: nat)
    requires 0 <= data < W64 && 0 <= size < W32 && 0 <= cardoff < W32
    requires pages.Length == list.Length && BusOk(bus, PageCount(data, size))
    requires Request(data, size) ==> SegsOk(Mapped(PageSegs(data, size, bus, PageCount(data, size)), joins))
    requires 0 <= base && base + DESC_BYTES * list.Length < W64
    modifies pages, list
    ensures ret ==
      if !buffers then -ENOMEM
      else if data == 0 then -EFAULT
      else if size < 8 then -ERANGE
      else if data + size >= W64 then -EOVERFLOW
      else if PageCount(data, size) > list.Length then -EINVAL
      else 0
    ensures ret == 0 ==>
      && Request(data, size) && n <= PageCount(data, size) <= list.Length
      && var xs := Compile(Mapped(PageSegs(data, size, bus, PageCount(data, size)), joins), cardoff, merge).xs;
         n == |xs| && list[..n] == PackAll(xs, base, Flags(fromDevice, dma64))
  {
    n := 0;
    var count := PageCount(data, size);
    if !buffers { return -ENOMEM, 0; }
    if data == 0 { return -EFAULT, 0; }
    if size < 8 { return -ERANGE, 0; }
    if (data + size) % W64 < data { return -EOVERFLOW, 0; }
    if count > list.Length { return -EINVAL, 0; }
    var segs := MapPages(data, size, count, bus, pages);
    hide Mapped, Compile, PackAll, PageSegs;
    MappedCount(segs, joins);
    n := CardSg(Mapped(segs, joins), list, base, cardoff, fromDevice, dma64, merge);
    ret := 0;
  }
}
