/** The page FIFO of a stream: a doubly linked list threaded through the fixed
    array of page items. Pointers to page items are array indices here, and
    NULL is -1. */
module PageList {
  const MAXPAGES := 64
  const NULL := -1

  datatype PageItem = PageItem(next: int, prev: int, page: int, inuse: bool)

  /** The link part of the stream structure. */
  datatype Links = Links(items: seq<PageItem>, first: int, last: int)

  predicate IsValidPage(v: int) {
    0 <= v < MAXPAGES
  }

  ghost predicate Distinct(q: seq<int>) {
    forall i, j :: 0 <= i < j < |q| ==> q[i] != q[j]
  }

  ghost predicate PagesValid(q: seq<int>) {
    forall i :: 0 <= i < |q| ==> IsValidPage(q[i])
  }

  /** The page at position i, NULL outside the sequence. */
  function PageAt(q: seq<int>, i: int): int {
    if 0 <= i < |q| then q[i] else NULL
  }

  /** The links represent exactly the page sequence q, in both directions. */
  ghost predicate Linked(l: Links, q: seq<int>) {
    && |l.items| == MAXPAGES
    && PagesValid(q)
    && Distinct(q)
    && l.first == PageAt(q, 0)
    && l.last == PageAt(q, |q| - 1)
    && (forall i {:trigger l.items[q[i]]} :: 0 <= i < |q| ==> l.items[q[i]].next == PageAt(q, i + 1))
    && (forall i {:trigger l.items[q[i]]} :: 0 <= i < |q| ==> l.items[q[i]].prev == PageAt(q, i - 1))
  }

  /** The pointer assignments of a push. Nothing checks whether p is queued already. */
  function PushLinks(l: Links, p: int): Links
    requires |l.items| == MAXPAGES && IsValidPage(p)
    requires l.last == NULL || IsValidPage(l.last)
  {
    if l.last == NULL then
      Links(l.items[p := l.items[p].(next := NULL, prev := NULL)], p, p)
    else
      var a := l.items[l.last := l.items[l.last].(next := p)];
      Links(a[p := a[p].(prev := l.last, next := NULL)], l.first, p)
  }

  /** The pointer assignments of a pop from a non-empty list. */
  function PopLinks(l: Links): Links
    requires |l.items| == MAXPAGES && IsValidPage(l.first)
    requires l.items[l.first].next == NULL || IsValidPage(l.items[l.first].next)
  {
    var np := l.items[l.first].next;
    if np == NULL then Links(l.items, np, NULL)
    else Links(l.items[np := l.items[np].(prev := NULL)], np, l.last)
  }

  /** The pages met by following next from p, at most fuel of them. */
  function Walk(items: seq<PageItem>, p: int, fuel: nat): seq<int>
    decreases fuel
  {
    if fuel == 0 || !(0 <= p < |items|) then []
    else [p] + Walk(items, items[p].next, fuel - 1)
  }

  /** The pages met by following prev from p, at most fuel of them. */
  function WalkBack(items: seq<PageItem>, p: int, fuel: nat): seq<int>
    decreases fuel
  {
    if fuel == 0 || !(0 <= p < |items|) then []
    else WalkBack(items, items[p].prev, fuel - 1) + [p]
  }

  lemma {:induction false} WalkFrom(l: Links, q: seq<int>, i: nat, fuel: nat)
    requires Linked(l, q) && i < |q| && |q| - i <= fuel
    ensures Walk(l.items, q[i], fuel) == q[i..]
    decreases |q| - i
  {
    assert l.items[q[i]].next == PageAt(q, i + 1);
    if i + 1 < |q| {
      WalkFrom(l, q, i + 1, fuel - 1);
    } else {
      assert Walk(l.items, NULL, fuel - 1) == [];
    }
  }

  lemma {:induction false} WalkBackFrom(l: Links, q: seq<int>, i: nat, fuel: nat)
    requires Linked(l, q) && i < |q| && i < fuel
    ensures WalkBack(l.items, q[i], fuel) == q[..i + 1]
    decreases i
  {
    assert l.items[q[i]].prev == PageAt(q, i - 1);
    if 0 < i {
      WalkBackFrom(l, q, i - 1, fuel - 1);
      assert q[..i] + [q[i]] == q[..i + 1];
    } else {
      assert WalkBack(l.items, NULL, fuel - 1) == [];
    }
  }

  lemma {:induction false} DistinctBelow(q: seq<int>, n: nat)
    requires Distinct(q) && forall i :: 0 <= i < |q| ==> 0 <= q[i] < n
    ensures |q| <= n
    decreases n
  {
    if q == [] {
    } else if n - 1 in q {
      assert 0 <= q[0] < n;
      var k :| 0 <= k < |q| && q[k] == n - 1;
      DistinctBelow(q[..k] + q[k + 1..], n - 1);
    } else {
      assert 0 <= q[0] < n;
      DistinctBelow(q, n - 1);
    }
  }

  /** Walking next from the first item visits exactly the queue and ends at the
      last item; walking prev from the last item visits it backwards. The queue
      is therefore determined by the links, and has at most MAXPAGES pages. */
  lemma WalkIsQueue(l: Links, q: seq<int>)
    requires Linked(l, q)
    ensures |q| <= MAXPAGES
    ensures Walk(l.items, l.first, MAXPAGES) == q
    ensures WalkBack(l.items, l.last, MAXPAGES) == q
  {
    DistinctBelow(q, MAXPAGES);
    if q != [] {
      WalkFrom(l, q, 0, MAXPAGES);
      WalkBackFrom(l, q, |q| - 1, MAXPAGES);
    }
  }

  lemma PopKeepsList(l: Links, q: seq<int>)
    requires Linked(l, q) && q != []
    ensures l.first == q[0] && l.items[q[0]].next == PageAt(q, 1)
    ensures Linked(PopLinks(l), q[1..])
  {
    assert l.items[q[0]].next == PageAt(q, 1);
    var r, t := PopLinks(l), q[1..];
    forall i | 0 <= i < |t|
      ensures r.items[t[i]].next == PageAt(t, i + 1) && r.items[t[i]].prev == PageAt(t, i - 1)
    {
      assert t[i] == q[i + 1];
      assert l.items[q[i + 1]].next == PageAt(q, i + 2) && l.items[q[i + 1]].prev == PageAt(q, i);
    }
  }

  lemma PushAppends(l: Links, q: seq<int>, p: int)
    requires Linked(l, q) && IsValidPage(p) && p !in q
    ensures Linked(PushLinks(l, p), q + [p])
  {
    var r, t := PushLinks(l, p), q + [p];
    forall i | 0 <= i < |t|
      ensures r.items[t[i]].next == PageAt(t, i + 1) && r.items[t[i]].prev == PageAt(t, i - 1)
    {
      if i < |q| {
        assert l.items[q[i]].next == PageAt(q, i + 1) && l.items[q[i]].prev == PageAt(q, i - 1);
      }
    }
  }

  /** After a push of the queued page q[i], any list the links could stand for
      agrees with q up to q[i]. */
  lemma {:induction false} RepushPrefix(l: Links, q: seq<int>, i: nat, q': seq<int>, j: nat)
    requires Linked(l, q) && i < |q| - 1 && j <= i && j < |q'|
    requires Linked(PushLinks(l, q[i]), q')
    ensures q'[j] == q[j]
    decreases j
  {
    if 0 < j {
      RepushPrefix(l, q, i, q', j - 1);
      assert l.items[q[j - 1]].next == PageAt(q, j);
      assert PushLinks(l, q[i]).items[q'[j - 1]].next == PageAt(q', j);
    }
  }

  lemma RepushBreaksList(l: Links, q: seq<int>, i: nat, q': seq<int>)
    requires Linked(l, q) && i < |q|
    ensures !Linked(PushLinks(l, q[i]), q')
  {
    var r := PushLinks(l, q[i]);
    if Linked(r, q') {
      assert r.last == q[i] && q'[|q'| - 1] == q[i];
      assert r.items[q'[|q'| - 1]].prev == PageAt(q', |q'| - 2) == q[|q| - 1];
      if i < |q| - 1 {
        if |q'| <= i {
          RepushPrefix(l, q, i, q', |q'| - 1);
        } else {
          RepushPrefix(l, q, i, q', i);
          assert r.items[q'[i]].next == PageAt(q', i + 1);
          assert |q'| == i + 1;
          if 0 < i { RepushPrefix(l, q, i, q', i - 1); }
        }
      }
      assert false;
    }
  }

  /** A push leaves a well formed list exactly when the page was not queued
      already, and then it appends the page. */
  lemma PushKeepsListIff(l: Links, q: seq<int>, p: int)
    requires Linked(l, q) && IsValidPage(p)
    ensures p !in q <==> exists q' :: Linked(PushLinks(l, p), q')
    ensures p !in q ==> Linked(PushLinks(l, p), q + [p])
  {
    if p !in q {
      PushAppends(l, q, p);
    } else {
      var i :| 0 <= i < |q| && q[i] == p;
      forall q' ensures !Linked(PushLinks(l, p), q') {
        RepushBreaksList(l, q, i, q');
      }
    }
  }

  // ----- allocation

  /** The assignments of an allocation. Nothing checks whether p is queued. */
  function AllocLinks(l: Links, p: int): Links
    requires |l.items| == MAXPAGES && IsValidPage(p)
  {
    Links(l.items[p := l.items[p].(prev := NULL, next := NULL, inuse := true)], l.first, l.last)
  }

  lemma {:induction false} AllocPrefix(l: Links, q: seq<int>, i: nat, q': seq<int>, j: nat)
    requires Linked(l, q) && i < |q| && j <= i && j < |q'|
    requires Linked(AllocLinks(l, q[i]), q')
    ensures q'[j] == q[j]
    decreases j
  {
    if 0 < j {
      AllocPrefix(l, q, i, q', j - 1);
      assert l.items[q[j - 1]].next == PageAt(q, j);
      assert AllocLinks(l, q[i]).items[q'[j - 1]].next == PageAt(q', j);
    }
  }

  lemma AllocBreaksList(l: Links, q: seq<int>, i: nat, q': seq<int>)
    requires Linked(l, q) && i < |q| && |q| > 1
    ensures !Linked(AllocLinks(l, q[i]), q')
  {
    var r := AllocLinks(l, q[i]);
    if Linked(r, q') {
      assert r.first == q[0] && |q'| > 0;
      assert r.items[q'[|q'| - 1]].next == NULL;
      assert r.items[q[i]].next == r.items[q[i]].prev == NULL;
      if |q'| <= i {
        AllocPrefix(l, q, i, q', |q'| - 1);
      } else {
        AllocPrefix(l, q, i, q', i);
      }
      assert false;
    }
  }

  /** Taking a page out of the pool leaves a well formed list exactly when the page was not queued,
      or was the only one queued; then the list is what it was. */
  lemma AllocKeepsListIff(l: Links, q: seq<int>, p: int)
    requires Linked(l, q) && IsValidPage(p)
    ensures p !in q || |q| == 1 <==> exists q' :: Linked(AllocLinks(l, p), q')
    ensures p !in q || |q| == 1 ==> Linked(AllocLinks(l, p), q)
  {
    if p !in q || |q| == 1 {
      assert Linked(AllocLinks(l, p), q);
    } else {
      var i :| 0 <= i < |q| && q[i] == p;
      forall q' ensures !Linked(AllocLinks(l, p), q') {
        AllocBreaksList(l, q, i, q');
      }
    }
  }
}
