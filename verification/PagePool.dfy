/** The page pool of a stream: which pages are in use, and the FIFO of queued
    pages with its separate level counter. */
module PagePool {
  import opened Errno
  import opened PageList

  /** emptyPops counts the pops made on an empty list; it is a history variable. */
  datatype Pool = Pool(inuse: seq<bool>, queue: seq<int>, level: int, emptyPops: nat)
  datatype Taken = Taken(pool: Pool, ret: int)

  function EmptyPool(): Pool {
    Pool(seq(MAXPAGES, _ => false), [], 0, 0)
  }

  ghost predicate PoolShaped(p: Pool) {
    |p.inuse| == MAXPAGES && PagesValid(p.queue)
  }

  ghost predicate QueuedInUse(p: Pool)
    requires PoolShaped(p)
  {
    forall i :: 0 <= i < |p.queue| ==> p.inuse[p.queue[i]]
  }

  /** The first page in i..pagect that is not in use, or the end of the range. */
  function FirstFree(inuse: seq<bool>, i: nat, pagect: int): (r: int)
    requires pagect <= |inuse|
    ensures i <= pagect ==> i <= r <= pagect
    ensures forall k :: i <= k < r && k < pagect ==> inuse[k]
    ensures i <= r < pagect ==> !inuse[r]
    decreases pagect - i
  {
    if i >= pagect then pagect
    else if !inuse[i] then i
    else FirstFree(inuse, i + 1, pagect)
  }

  function AllocPage(p: Pool, pagect: int): Taken
    requires PoolShaped(p) && pagect <= MAXPAGES
  {
    var i := FirstFree(p.inuse, 0, pagect);
    if 0 <= i < pagect then Taken(p.(inuse := p.inuse[i := true]), i) else Taken(p, -EAGAIN)
  }

  function FreePage(p: Pool, page: int): Pool
    requires PoolShaped(p)
  {
    if IsValidPage(page) then p.(inuse := p.inuse[page := false]) else p
  }

  /** Meant for a page that is not queued; see PageList.PushKeepsListIff. */
  function PushPage(p: Pool, page: int): Taken {
    if IsValidPage(page) then Taken(p.(queue := p.queue + [page], level := p.level + 1), 0)
    else Taken(p, -EINVAL)
  }

  /** The level is decremented even when there is nothing to pop. */
  function PopPage(p: Pool): Taken {
    if p.queue == [] then Taken(p.(level := p.level - 1, emptyPops := p.emptyPops + 1), -EAGAIN)
    else Taken(p.(queue := p.queue[1..], level := p.level - 1), p.queue[0])
  }

  function Inuses(items: seq<PageItem>): seq<bool> {
    seq(|items|, i requires 0 <= i < |items| => items[i].inuse)
  }

  /** The page items with their list head and level, updated in place. */
  class PageFifo {
    const pagealloc: array<PageItem>
    var pfirst: int
    var plast: int
    var fifo: int
    ghost var queue: seq<int>
    ghost var emptyPops: nat

    ghost function LinksNow(): Links
      reads this, pagealloc
    {
      Links(pagealloc[..], pfirst, plast)
    }

    ghost function Abs(): Pool
      reads this, pagealloc
    {
      Pool(Inuses(pagealloc[..]), queue, fifo, emptyPops)
    }

    ghost predicate Valid()
      reads this, pagealloc
    {
      && Linked(LinksNow(), queue)
      && (forall i :: 0 <= i < pagealloc.Length ==> pagealloc[i].page == i)
    }

    constructor ()
      ensures Valid() && fresh(pagealloc) && Abs() == EmptyPool()
    {
      pagealloc := new PageItem[MAXPAGES](i => PageItem(NULL, NULL, i, false));
      pfirst, plast, fifo := NULL, NULL, 0;
      queue, emptyPops := [], 0;
    }

    method Clear()
      requires Valid()
      modifies this, pagealloc
      ensures Valid() && Abs() == EmptyPool()
    {
      pfirst, plast, fifo := NULL, NULL, 0;
      queue, emptyPops := [], 0;
      for i := 0 to MAXPAGES
        invariant pfirst == plast == NULL && fifo == 0 && queue == [] && emptyPops == 0
        invariant forall k :: 0 <= k < i ==> pagealloc[k] == PageItem(NULL, NULL, k, false)
      {
        pagealloc[i] := PageItem(NULL, NULL, i, false);
      }
      assert Inuses(pagealloc[..]) == EmptyPool().inuse;
    }

    /** Total, as the ioctl is: a free page that is queued all the same is cut out of the list. */
    method Alloc(pagect: int) returns (ret: int)
      requires Valid() && pagect <= MAXPAGES
      modifies pagealloc
      ensures Taken(Abs(), ret) == AllocPage(old(Abs()), pagect)
      ensures LinksNow() == if ret < 0 then old(LinksNow()) else AllocLinks(old(LinksNow()), ret)
      ensures ret !in queue || |queue| == 1 ==> Valid()
    {
      var i := 0;
      while i < pagect
        invariant 0 <= i && unchanged(pagealloc)
        invariant FirstFree(Inuses(pagealloc[..]), 0, pagect) == FirstFree(Inuses(pagealloc[..]), i, pagect)
      {
        if !pagealloc[i].inuse {
          TakePage(i);
          return i;
        }
        i := i + 1;
      }
      ret := -EAGAIN;
    }

    method TakePage(i: int)
      requires Valid() && IsValidPage(i)
      modifies pagealloc
      ensures Abs() == old(Abs()).(inuse := old(Abs()).inuse[i := true])
      ensures LinksNow() == AllocLinks(old(LinksNow()), i)
      ensures i !in queue || |queue| == 1 ==> Valid()
    {
      ghost var was := Inuses(pagealloc[..]);
      AllocKeepsListIff(LinksNow(), queue, i);
      pagealloc[i] := pagealloc[i].(prev := NULL, next := NULL, inuse := true);
      assert Inuses(pagealloc[..]) == was[i := true];
    }

    method Free(page: int)
      requires Valid()
      modifies pagealloc
      ensures Valid() && Abs() == FreePage(old(Abs()), page)
    {
      if page < 0 || page >= MAXPAGES { return; }
      ghost var was := Inuses(pagealloc[..]);
      pagealloc[page] := pagealloc[page].(inuse := false);
      assert Inuses(pagealloc[..]) == was[page := false];
    }

    /** Total, as the ioctl is: pushing a queued page does exactly the pointer
        assignments of PushLinks, which then no longer form a list. */
    method Push(page: int) returns (ret: int)
      requires Valid()
      modifies this, pagealloc
      ensures Taken(Abs(), ret) == PushPage(old(Abs()), page)
      ensures LinksNow() == if IsValidPage(page) then PushLinks(old(LinksNow()), page) else old(LinksNow())
      ensures page !in old(queue) ==> Valid()
    {
      if !IsValidPage(page) { return -EINVAL; }
      ghost var was := pagealloc[..];
      if page !in queue { PushAppends(LinksNow(), queue, page); }
      if plast == NULL {
        pfirst, plast := page, page;
        pagealloc[page] := pagealloc[page].(next := NULL, prev := NULL);
      } else {
        var np := plast;
        pagealloc[np] := pagealloc[np].(next := page);
        assert pagealloc[..] == was[np := was[np].(next := page)];
        pagealloc[page] := pagealloc[page].(prev := np, next := NULL);
        plast := page;
      }
      fifo := fifo + 1;
      queue := queue + [page];
      assert pagealloc[..] == PushLinks(Links(was, old(pfirst), old(plast)), page).items;
      assert Inuses(pagealloc[..]) == Inuses(was);
      ret := 0;
    }

    method Pop() returns (ret: int)
      requires Valid()
      modifies this, pagealloc
      ensures Valid() && Taken(Abs(), ret) == PopPage(old(Abs()))
    {
      ret := -EAGAIN;
      ghost var was := pagealloc[..];
      if pfirst != NULL {
        PopKeepsList(LinksNow(), queue);
        ret := pagealloc[pfirst].page;
        var np := pagealloc[pfirst].next;
        if np == NULL {
          plast := NULL;
        } else {
          pagealloc[np] := pagealloc[np].(prev := NULL);
        }
        pfirst := np;
        queue := queue[1..];
        assert pagealloc[..] == PopLinks(Links(was, old(pfirst), old(plast))).items;
      } else {
        emptyPops := emptyPops + 1;
      }
      fifo := fifo - 1;
      assert Inuses(pagealloc[..]) == Inuses(was);
    }
  }
}
