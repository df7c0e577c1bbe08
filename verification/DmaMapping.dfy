/** The mapping layer between page segments and the bus: it may hand back fewer segments than it
    was given, having joined some that are adjacent on the bus. */
module DmaMapping {
  import opened Arith
  import opened SgCompiler

  /** The segments with segment i joined onto its predecessor for each i in joins, if adjacent. */
  function Mapped(segs: seq<Seg>, joins: set<int>): seq<Seg> {
    if segs == [] then []
    else
      var n := |segs| - 1;
      var t, s := Mapped(segs[..n], joins), segs[n];
      if n in joins && t != [] && t[|t| - 1].addr + t[|t| - 1].len == s.addr
      then t[|t| - 1 := Seg(t[|t| - 1].addr, t[|t| - 1].len + s.len)]
      else t + [s]
  }

  lemma {:induction false} MappedAlone(segs: seq<Seg>)
    ensures Mapped(segs, {}) == segs
  {
    if segs != [] {
      MappedAlone(segs[..|segs| - 1]);
      assert segs[..|segs| - 1] + [segs[|segs| - 1]] == segs;
    }
  }

  lemma {:induction false} MappedCount(segs: seq<Seg>, joins: set<int>)
    ensures |Mapped(segs, joins)| <= |segs| && (segs != [] ==> Mapped(segs, joins) != [])
  {
    if segs != [] { MappedCount(segs[..|segs| - 1], joins); }
  }

  /** The last segment is joined onto the one before it, or stays alone. */
  ghost predicate OneMore(t: seq<Seg>, s: Seg, m: seq<Seg>) {
    || m == t + [s]
    || (t != [] && var l := t[|t| - 1]; l.addr + l.len == s.addr && m == t[..|t| - 1] + [Seg(l.addr, l.len + s.len)])
  }

  lemma MappedStep(segs: seq<Seg>, joins: set<int>)
    requires segs != []
    ensures OneMore(Mapped(segs[..|segs| - 1], joins), segs[|segs| - 1], Mapped(segs, joins))
  {
  }

  lemma BytesAppend(t: seq<Seg>, s: Seg)
    ensures Bytes(t + [s]) == Bytes(t) + s.len
  {
    assert (t + [s])[..|t|] == t;
  }

  lemma OneMoreBytes(t: seq<Seg>, s: Seg, m: seq<Seg>)
    requires OneMore(t, s, m)
    ensures Bytes(m) == Bytes(t) + s.len
    ensures Aligned(t) && s.len % 4 == 0 ==> Aligned(m)
  {
    BytesAppend(t, s);
    if m != t + [s] {
      var l := t[|t| - 1];
      assert t == t[..|t| - 1] + [l];
      BytesAppend(t[..|t| - 1], l);
      BytesAppend(t[..|t| - 1], Seg(l.addr, l.len + s.len));
    }
  }

  /** Joining keeps the bytes, and segments of whole words stay such. */
  lemma {:induction false} MappedBytes(segs: seq<Seg>, joins: set<int>)
    ensures Bytes(Mapped(segs, joins)) == Bytes(segs)
    ensures Aligned(segs) ==> Aligned(Mapped(segs, joins))
  {
    if segs != [] {
      var n := |segs| - 1;
      MappedBytes(segs[..n], joins);
      MappedStep(segs, joins);
      hide Mapped, OneMore;
      OneMoreBytes(Mapped(segs[..n], joins), segs[n], Mapped(segs, joins));
    }
  }

  function WordsOf(s: Seg): seq<int>
    requires SegOk(s)
  {
    seq(s.len / 4, k requires 0 <= k < s.len / 4 => (s.addr + 4 * k) % W64)
  }

  /** The host words of a segment list. */
  function HostWords(sgl: seq<Seg>): seq<int>
    requires SegsOk(sgl)
  {
    if sgl == [] then []
    else
      var s := sgl[|sgl| - 1];
      HostWords(sgl[..|sgl| - 1]) + WordsOf(s)
  }

  function OntoCard(words: seq<int>, cardoff: int): seq<Move> {
    seq(|words|, j requires 0 <= j < |words| => Move(words[j], (cardoff + 4 * j) % W32))
  }

  lemma {:induction false} DirectIsOntoCard(sgl: seq<Seg>, cardoff: int)
    requires SegsOk(sgl) && Aligned(sgl)
    ensures 4 * |HostWords(sgl)| == Bytes(sgl)
    ensures Direct(sgl, cardoff) == OntoCard(HostWords(sgl), cardoff)
    decreases |sgl|
  {
    if sgl != [] {
      var t, s := sgl[..|sgl| - 1], sgl[|sgl| - 1];
      DirectIsOntoCard(t, cardoff);
      var n, d := |HostWords(t)|, Direct(sgl, cardoff);
      assert s.len == 4 * (s.len / 4);
      forall j | n <= j < |d| ensures d[j] == OntoCard(HostWords(sgl), cardoff)[j] {
        ModAdd(cardoff + Bytes(t), 4 * (j - n), W32);
      }
    }
  }

  lemma WordsJoin(t: seq<Seg>, l: Seg, s: Seg)
    requires SegsOk(t) && SegOk(l) && SegOk(s) && l.len % 4 == 0 && s.len % 4 == 0
    requires l.addr + l.len == s.addr && SegOk(Seg(l.addr, l.len + s.len))
    ensures SegsOk(t + [l]) && SegsOk(t + [l] + [s]) && SegsOk(t + [Seg(l.addr, l.len + s.len)])
    ensures HostWords(t + [Seg(l.addr, l.len + s.len)]) == HostWords(t + [l] + [s])
  {
    var j := Seg(l.addr, l.len + s.len);
    assert l.len == 4 * (l.len / 4) && s.len == 4 * (s.len / 4);
    assert WordsOf(j) == WordsOf(l) + WordsOf(s);
    hide WordsOf;
    assert (t + [j])[..|t|] == t && (t + [l])[..|t|] == t && (t + [l] + [s])[..|t| + 1] == t + [l];
  }

  /** Joining keeps the words: neither their number nor their order nor their addresses change. */
  lemma {:induction false} MappedKeepsWords(segs: seq<Seg>, joins: set<int>)
    requires SegsOk(segs) && Aligned(segs) && SegsOk(Mapped(segs, joins))
    ensures HostWords(Mapped(segs, joins)) == HostWords(segs)
    decreases |segs|
  {
    if segs != [] {
      var t, s := Mapped(segs[..|segs| - 1], joins), segs[|segs| - 1];
      MappedBytes(segs[..|segs| - 1], joins);
      MappedPartOk(segs, joins);
      MappedKeepsWords(segs[..|segs| - 1], joins);
      assert segs[..|segs| - 1] + [s] == segs;
      AppendWords(segs[..|segs| - 1], s);
      MappedStep(segs, joins);
      hide HostWords, Mapped, OneMore;
      OneMoreWords(t, s, Mapped(segs, joins));
    }
  }

  lemma MappedPartOk(segs: seq<Seg>, joins: set<int>)
    requires segs != [] && SegsOk(segs) && SegsOk(Mapped(segs, joins))
    ensures SegsOk(Mapped(segs[..|segs| - 1], joins))
  {
    var t, m := Mapped(segs[..|segs| - 1], joins), Mapped(segs, joins);
    MappedStep(segs, joins);
    hide Mapped;
    forall i | 0 <= i < |t| ensures SegOk(t[i]) {
      assert SegOk(m[i]);
      MappedLens(segs[..|segs| - 1], joins, i);
    }
  }

  /** One more segment adds its words, joined or not. */
  lemma OneMoreWords(t: seq<Seg>, s: Seg, m: seq<Seg>)
    requires OneMore(t, s, m) && SegsOk(t) && Aligned(t) && SegOk(s) && s.len % 4 == 0 && SegsOk(m)
    ensures HostWords(m) == HostWords(t) + WordsOf(s)
  {
    AppendWords(t, s);
    if m != t + [s] {
      var k := |t| - 1;
      assert t == t[..k] + [t[k]];
      assert SegOk(m[k]);
      hide HostWords, WordsOf;
      WordsJoin(t[..k], t[k], s);
    }
  }

  lemma AppendWords(t: seq<Seg>, s: Seg)
    requires SegsOk(t) && SegOk(s)
    ensures SegsOk(t + [s])
    ensures HostWords(t + [s]) == HostWords(t) + WordsOf(s)
  {
    assert (t + [s])[..|t|] == t;
  }

  lemma {:induction false} MappedLens(segs: seq<Seg>, joins: set<int>, i: nat)
    requires SegsOk(segs) && i < |Mapped(segs, joins)|
    ensures 0 <= Mapped(segs, joins)[i].len && 0 <= Mapped(segs, joins)[i].addr < W64
    decreases |segs|
  {
    if segs != [] {
      var t := Mapped(segs[..|segs| - 1], joins);
      if i < |t| { MappedLens(segs[..|segs| - 1], joins, i); }
    }
  }
}
