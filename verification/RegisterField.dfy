/** Bit fields of the card's registers: the masks the generator prints and the
    read-modify-write that uses them. Registers are 32 bits wide and keep what is written. */
module RegisterField {
  import opened Arith

  const WORD: nat := 0x1_0000_0000

  function Pow2(n: nat): (p: nat)
    ensures p >= 1
  {
    if n == 0 then 1 else 2 * Pow2(n - 1)
  }

  /** The bitwise and. */
  function And(a: nat, b: nat): nat {
    if a == 0 || b == 0 then 0
    else (if a % 2 == 1 && b % 2 == 1 then 1 else 0) + 2 * And(a / 2, b / 2)
  }

  /** Shifts, and the low n bits. */
  function Shl(x: nat, n: nat): nat { x * Pow2(n) }
  function Shr(x: nat, n: nat): nat { hide Pow2; x / Pow2(n) }
  function Low(x: nat, n: nat): nat { x % Pow2(n) }

  // ----- arithmetic

  lemma Distribute(a: int, b: int, c: int)
    ensures (a + b) * c == a * c + b * c
  {
  }

  lemma Regroup(a: int, b: int, c: int)
    ensures a * b * c == a * (b * c) == b * (a * c)
  {
  }

  lemma {:induction false} PowerSum(a: nat, b: nat)
    ensures Pow2(a + b) == Pow2(a) * Pow2(b)
  {
    if a != 0 {
      PowerSum(a - 1, b);
      Regroup(2, Pow2(a - 1), Pow2(b));
    }
  }

  lemma WordIs()
    ensures Pow2(32) == WORD
  {
    assert Pow2(8) == 0x100;
    PowerSum(8, 8);
    PowerSum(16, 16);
  }

  /** Cutting off above a multiple of p leaves what is below p alone. */
  lemma ModOver(x: nat, l: nat, p: nat, q: nat)
    requires l < p && q > 0
    ensures (x * p + l) % (q * p) == x % q * p + l && q * p > 0
  {
    var k, t := x / q, x % q;
    DivMod(x, q);
    Distribute(t, 1, p);
    assert (t + 1) * p <= q * p;
    Distribute(k * q, t, p);
    Regroup(k, q, p);
    Divided(q * p, k, t * p + l);
  }

  lemma DivMod(x: nat, p: nat)
    requires p > 0
    ensures x == x / p * p + x % p && x % p < p
  {
  }

  lemma TwoDigits(q: nat, t: nat, l: nat, a: nat, b: nat)
    requires t < b && l < a
    ensures (q * b + t) * a + l == q * (a * b) + (t * a + l)
    ensures t * a + l < a * b
  {
    Distribute(q * b, t, a);
    Regroup(q, b, a);
    Distribute(b - 1 - t, t + 1, a);
    assert (b - 1 - t) * a >= 0;
    Distribute(t, 1, a);
  }

  lemma DivTwice(x: nat, a: nat, b: nat)
    requires a > 0 && b > 0
    ensures a * b > 0 && x / a / b == x / (a * b)
  {
    DivMod(x, a);
    DivMod(x / a, b);
    TwoDigits(x / a / b, x / a % b, x % a, a, b);
    Divided(a * b, x / a / b, x / a % b * a + x % a);
  }

  lemma QuotientBound(x: nat, p: nat, w: nat)
    requires p > 0 && x < w * p
    ensures x / p < w
  {
    DivMod(x, p);
    var d: int := x / p - w;
    Distribute(d, w, p);
    assert d >= 0 ==> d * p >= 0;
  }

  // ----- shifts

  lemma LowBound(x: nat, n: nat)
    ensures Low(x, n) < Pow2(n)
  {
  }

  lemma ShrLow(x: nat, n: nat)
    ensures x == Shl(Shr(x, n), n) + Low(x, n)
  {
    DivMod(x, Pow2(n));
  }

  /** A number written as a high and a low part. */
  lemma HighLow(h: nat, l: nat, n: nat)
    requires l < Pow2(n)
    ensures Shr(Shl(h, n) + l, n) == h && Low(Shl(h, n) + l, n) == l
  {
    Divided(Pow2(n), h, l);
  }

  lemma ShlSum(a: nat, b: nat, n: nat)
    ensures Shl(a + b, n) == Shl(a, n) + Shl(b, n)
  {
    Distribute(a, b, Pow2(n));
  }

  lemma ShrShr(x: nat, a: nat, b: nat)
    ensures Shr(Shr(x, a), b) == Shr(x, a + b)
  {
    PowerSum(a, b);
    DivTwice(x, Pow2(a), Pow2(b));
  }

  lemma LowOver(h: nat, l: nat, n: nat, m: nat)
    requires l < Pow2(n)
    ensures Low(Shl(h, n) + l, m + n) == Shl(Low(h, m), n) + l
  {
    PowerSum(m, n);
    ModOver(h, l, Pow2(n), Pow2(m));
  }

  lemma LowSum(x: nat, y: nat, n: nat)
    ensures Low(x + Low(y, n), n) == Low(x + y, n)
  {
    hide Low, Shr;
    var h, l, k := Shr(y, n), Low(y, n), Low(x + Low(y, n), n);
    var g := Shr(x + l, n);
    ShrLow(y, n);
    ShrLow(x + l, n);
    ShlSum(h, g, n);
    LowBound(x + l, n);
    HighLow(h + g, k, n);
  }

  lemma SmallLow(x: nat, n: nat)
    requires x < Pow2(n)
    ensures Low(x, n) == x && Shr(x, n) == 0
  {
    Divided(Pow2(n), 0, x);
  }

  /** The digits of x below k do not depend on what is above. */
  lemma LowDigits(x: nat, a: nat, w: nat, k: nat)
    requires a + w <= k
    ensures Low(Shr(Low(x, k), a), w) == Low(Shr(x, a), w)
  {
    hide Shl, Shr, Low;
    var m := k - a;
    var y, l := Shr(x, a), Low(x, a);
    ShrLow(x, a);
    LowBound(x, a);
    LowOver(y, l, a, m);
    HighLow(Low(y, m), l, a);
    LowLow(y, w, m);
  }

  lemma LowLow(y: nat, w: nat, m: nat)
    requires w <= m
    ensures Low(Low(y, m), w) == Low(y, w)
  {
    hide Shl, Shr, Low;
    var h, l := Shr(y, w), Low(y, w);
    ShrLow(y, w);
    LowBound(y, w);
    LowOver(h, l, w, m - w);
    HighLow(Low(h, m - w), l, w);
  }

  lemma ShrBound(x: nat, n: nat, m: nat)
    requires x < Pow2(m + n)
    ensures Shr(x, n) < Pow2(m)
  {
    PowerSum(m, n);
    QuotientBound(x, Pow2(n), Pow2(m));
  }

  /** Adding x shows in the low bits exactly when x has any. */
  lemma ExcessShows(a: nat, x: nat, n: nat)
    requires a < Pow2(n)
    ensures Low(a + x, n) == a <==> Low(x, n) == 0
  {
    hide Shl, Shr, Low;
    var h, y := Shr(x, n), Low(x, n);
    ShrLow(x, n);
    LowBound(x, n);
    if a + y < Pow2(n) {
      HighLow(h, a + y, n);
    } else {
      ShlSum(h, 1, n);
      assert Shl(1, n) == Pow2(n) by { OneShifted(n); }
      HighLow(h + 1, a + y - Pow2(n), n);
    }
  }

  lemma OneShifted(n: nat)
    ensures Shl(1, n) == Pow2(n)
  {
  }

  // ----- the generator

  /** width ones from bit start up. */
  function Mask(start: nat, width: nat): nat {
    (Pow2(width) - 1) * Pow2(start)
  }

  method FieldMask(start: nat, end: nat) returns (mask: nat)
    ensures mask == if start <= end then Mask(start, end - start + 1) else 0
  {
    mask := 0;
    var i := start;
    while i <= end
      invariant start <= i && (i <= end + 1 || start == i) && mask == Mask(start, i - start)
    {
      MaskGrows(start, i - start);
      mask := mask + Pow2(i);
      i := i + 1;
    }
  }

  lemma MaskGrows(start: nat, width: nat)
    ensures Mask(start, width + 1) == Mask(start, width) + Pow2(start + width)
  {
    PowerSum(start, width);
    Distribute(Pow2(width) - 1, Pow2(width), Pow2(start));
  }

  /** The bits of a field, and its printed descriptor. */
  datatype Bits = Bits(reg: nat, start: nat, end: nat) {
    predicate Ok() { start <= end <= 31 }
    function Width(): nat requires Ok() { end - start + 1 }
  }

  datatype Field = Field(add: nat, shift: nat, mask: nat)

  function Descriptor(d: Bits): (f: Field)
    requires d.Ok()
    ensures f.add % 4 == 0
  {
    Field(d.reg * 4, d.start, Mask(d.start, d.Width()))
  }

  lemma {:induction false} PowerIsMonotone(a: nat, b: nat)
    requires a < b
    ensures Pow2(a) < Pow2(b)
  {
    if b - 1 > a { PowerIsMonotone(a, b - 1); }
  }

  lemma MaskFits(d: Bits)
    requires d.Ok()
    ensures Mask(d.start, d.Width()) < WORD
  {
    WordIs();
    hide Pow2;
    PowerSum(d.Width(), d.start);
    Distribute(Pow2(d.Width()), -1, Pow2(d.start));
    if d.end < 31 { PowerIsMonotone(d.end + 1, 32); }
  }

  /** Only the field of all bits has the mask that is written without a read. */
  lemma FullMaskIff(d: Bits)
    requires d.Ok()
    ensures Mask(d.start, d.Width()) == WORD - 1 <==> d.start == 0 && d.end == 31
  {
    WordIs();
    if d.start > 0 {
      EvenMask(d.start, d.Width());
    } else if d.end < 31 {
      PowerIsMonotone(d.Width(), 32);
    }
  }

  lemma EvenMask(start: nat, width: nat)
    requires start > 0
    ensures Mask(start, width) == 2 * Mask(start - 1, width)
  {
    var h, q := Pow2(width) - 1, Pow2(start - 1);
    assert Pow2(start) == 2 * q;
    Regroup(h, 2, q);
  }

  // ----- masking is taking digits

  lemma AndEven(r: nat, m: nat)
    ensures And(r, 2 * m) == 2 * And(r / 2, m)
  {
    assert 2 * m / 2 == m && 2 * m % 2 == 0;
  }

  lemma {:induction false} AndOnes(r: nat, w: nat)
    ensures And(r, Pow2(w) - 1) == r % Pow2(w)
  {
    if w > 0 {
      var h := Pow2(w - 1);
      assert (Pow2(w) - 1) / 2 == h - 1 && (Pow2(w) - 1) % 2 == 1;
      AndOnes(r / 2, w - 1);
      ModOver(r / 2, r % 2, 2, h);
      assert r / 2 * 2 + r % 2 == r;
      if h == 1 { assert (r / 2) % 1 == 0; }
    }
  }

  lemma {:induction false} AndMask(r: nat, s: nat, w: nat)
    ensures And(r, Mask(s, w)) == Shl(Low(Shr(r, s), w), s)
  {
    if s == 0 {
      AndOnes(r, w);
    } else {
      EvenMask(s, w);
      AndEven(r, Mask(s - 1, w));
      AndMask(r / 2, s - 1, w);
      assert Shr(r, 1) == r / 2;
      hide Shr, Low, And, Mask;
      ShrShr(r, 1, s - 1);
      ShlNext(Low(Shr(r, s), w), s);
    }
  }

  lemma ShlNext(x: nat, s: nat)
    requires s > 0
    ensures Shl(x, s) == 2 * Shl(x, s - 1)
  {
    Regroup(x, 2, Pow2(s - 1));
  }

  /** The complement of the mask takes the other bits. */
  lemma {:induction false} AndComplement(r: nat, m: nat, n: nat)
    requires r < Pow2(n) && m < Pow2(n)
    ensures And(r, Pow2(n) - 1 - m) == r - And(r, m)
  {
    if n > 0 {
      var h := Pow2(n - 1);
      assert (2 * h - 1 - m) / 2 == h - 1 - m / 2 && (2 * h - 1 - m) % 2 == 1 - m % 2;
      AndComplement(r / 2, m / 2, n - 1);
    }
  }

  // ----- one register

  /** The read-modify-write; the value is not masked. */
  function SetWord(r: nat, f: Field, v: nat): nat
    requires f.mask < WORD
  {
    Low(And(r, WORD - 1 - f.mask) + Low(Shl(v, f.shift), 32), 32)
  }

  lemma SetWordFits(r: nat, f: Field, v: nat)
    requires f.mask < WORD
    ensures SetWord(r, f, v) < WORD
  {
    hide And, Shl, Low;
    WordIs();
    LowBound(And(r, WORD - 1 - f.mask) + Low(Shl(v, f.shift), 32), 32);
  }

  function GetWord(r: nat, f: Field): nat {
    Shr(And(r, f.mask), f.shift)
  }

  /** What of the value is beyond the field falls off the top. */
  predicate Fits(d: Bits, v: nat)
    requires d.Ok()
  {
    Low(Shr(v, d.Width()), 31 - d.end) == 0
  }

  /** Every value below 2 to the width fits. */
  lemma SmallFits(d: Bits, v: nat)
    requires d.Ok() && v < Pow2(d.Width())
    ensures Fits(d, v)
  {
    SmallLow(v, d.Width());
    SmallLow(0, 31 - d.end);
  }

  /** The number with b above the field d, f in it and l below. */
  function Joined(d: Bits, b: nat, f: nat, l: nat): nat
    requires d.Ok()
  {
    Shl(Shl(b, d.Width()) + f, d.start) + l
  }

  lemma GetIs(r: nat, d: Bits)
    requires d.Ok()
    ensures GetWord(r, Descriptor(d)) == Low(Shr(r, d.start), d.Width())
  {
    hide Shl, Shr, Low, And;
    AndMask(r, d.start, d.Width());
    HighLow(Low(Shr(r, d.start), d.Width()), 0, d.start);
  }

  lemma JoinedParts(d: Bits, b: nat, f: nat, l: nat)
    requires d.Ok() && f < Pow2(d.Width()) && l < Pow2(d.start)
    ensures var n := Joined(d, b, f, l);
      Low(n, d.start) == l && Low(Shr(n, d.start), d.Width()) == f && Shr(n, d.end + 1) == b
  {
    hide Shl, Shr, Low;
    HighLow(Shl(b, d.Width()) + f, l, d.start);
    HighLow(b, f, d.Width());
    ShrShr(Joined(d, b, f, l), d.start, d.Width());
  }

  /** A number is what is above a field, the field, and what is below it. */
  lemma PartsJoined(r: nat, d: Bits)
    requires d.Ok()
    ensures r == Joined(d, Shr(r, d.end + 1), Low(Shr(r, d.start), d.Width()), Low(r, d.start))
  {
    hide Shl, Shr, Low;
    ShrLow(r, d.start);
    ShrLow(Shr(r, d.start), d.Width());
    ShrShr(r, d.start, d.Width());
  }

  /** What masking leaves of the other bits. */
  lemma OtherBits(r: nat, d: Bits)
    requires d.Ok() && r < WORD && Descriptor(d).mask < WORD
    ensures And(r, WORD - 1 - Descriptor(d).mask) == Joined(d, Shr(r, d.end + 1), 0, Low(r, d.start))
  {
    hide Shl, Shr, Low, And;
    WordIs();
    AndComplement(r, Mask(d.start, d.Width()), 32);
    AndMask(r, d.start, d.Width());
    PartsJoined(r, d);
    ShlSum(Shl(Shr(r, d.end + 1), d.Width()), Low(Shr(r, d.start), d.Width()), d.start);
  }

  /** The field becomes the value, below it nothing changes, and above it the excess is added. */
  lemma SetIs(r: nat, d: Bits, v: nat)
    requires d.Ok() && r < WORD && Descriptor(d).mask < WORD
    ensures SetWord(r, Descriptor(d), v) ==
      Joined(d, Low(Shr(r, d.end + 1) + Shr(v, d.Width()), 31 - d.end), Low(v, d.Width()), Low(r, d.start))
  {
    hide Shl, Shr, Low, And, Mask, Pow2;
    var a, l := Shr(r, d.end + 1), Low(r, d.start);
    LowBound(r, d.start);
    OtherBits(r, d);
    LowSum(Joined(d, a, 0, l), Shl(v, d.start), 32);
    LowJoined(d, a, l, v);
  }

  lemma LowJoined(d: Bits, a: nat, l: nat, v: nat)
    requires d.Ok() && l < Pow2(d.start)
    ensures Low(Joined(d, a, 0, l) + Shl(v, d.start), 32) ==
      Joined(d, Low(a + Shr(v, d.Width()), 31 - d.end), Low(v, d.Width()), l)
  {
    hide Shl, Shr, Low, Pow2;
    var b, f := Shr(v, d.Width()), Low(v, d.Width());
    ShrLow(v, d.Width());
    LowBound(v, d.Width());
    ShlSum(a, b, d.Width());
    ShlSum(Shl(a, d.Width()), v, d.start);
    LowOver(Shl(a + b, d.Width()) + f, l, d.start, 32 - d.start);
    LowOver(a + b, f, d.Width(), 31 - d.end);
  }

  /** The parts of the result. */
  lemma SetParts(r: nat, d: Bits, v: nat)
    requires d.Ok() && r < WORD && Descriptor(d).mask < WORD
    ensures var n := SetWord(r, Descriptor(d), v);
      && n < WORD && Low(n, d.start) == Low(r, d.start)
      && Low(Shr(n, d.start), d.Width()) == Low(v, d.Width())
      && Shr(n, d.end + 1) == Low(Shr(r, d.end + 1) + Shr(v, d.Width()), 31 - d.end)
  {
    hide Shl, Shr, Low, And, Mask, Pow2, Joined;
    SetIs(r, d, v);
    LowBound(r, d.start);
    LowBound(v, d.Width());
    JoinedParts(d, Low(Shr(r, d.end + 1) + Shr(v, d.Width()), 31 - d.end), Low(v, d.Width()), Low(r, d.start));
    SetWordFits(r, Descriptor(d), v);
  }

  /** Get after set returns the value, cut to the width of the field. */
  lemma GetAfterSet(r: nat, d: Bits, v: nat)
    requires d.Ok() && r < WORD
    ensures Descriptor(d).mask < WORD
    ensures GetWord(SetWord(r, Descriptor(d), v), Descriptor(d)) == v % Pow2(d.Width())
    ensures v < Pow2(d.Width()) ==> GetWord(SetWord(r, Descriptor(d), v), Descriptor(d)) == v
  {
    MaskFits(d);
    assert Low(v, d.Width()) == v % Pow2(d.Width());
    hide Pow2, And, Mask, SetWord, GetWord, Shr, Shl, Low;
    SetParts(r, d, v);
    GetIs(SetWord(r, Descriptor(d), v), d);
    if v < Pow2(d.Width()) { SmallLow(v, d.Width()); }
  }

  /** A full mask means the whole register, so writing without a read comes to the same. */
  lemma FastPathAgrees(r: nat, d: Bits, v: nat)
    requires d.start == 0 && d.end == 31 && r < WORD && v < WORD
    ensures Descriptor(d).mask == WORD - 1 && SetWord(r, Descriptor(d), v) == v
  {
    FullMaskIff(d);
    WordIs();
    hide And, Mask, Shr, Shl, Low, Pow2;
    assert And(r, 0) == 0 by { AndZero(r); }
    ShlZero(v);
    SmallLow(v, 32);
  }

  lemma AndZero(r: nat)
    ensures And(r, 0) == 0
  {
  }

  lemma ShlZero(v: nat)
    ensures Shl(v, 0) == v
  {
  }

  lemma BelowIsKept(r: nat, n: nat, d: Bits, e: Bits)
    requires d.Ok() && e.Ok() && e.end < d.start && Low(r, d.start) == Low(n, d.start)
    ensures GetWord(n, Descriptor(e)) == GetWord(r, Descriptor(e))
  {
    hide Shr, Shl, Low, And, Mask, GetWord;
    GetIs(r, e);
    GetIs(n, e);
    LowDigits(r, e.start, e.Width(), d.start);
    LowDigits(n, e.start, e.Width(), d.start);
  }

  lemma AboveIsKept(r: nat, n: nat, d: Bits, e: Bits)
    requires d.Ok() && e.Ok() && d.end < e.start && Shr(r, d.end + 1) == Shr(n, d.end + 1)
    ensures GetWord(n, Descriptor(e)) == GetWord(r, Descriptor(e))
  {
    hide Shr, Shl, Low, And, Mask, GetWord;
    GetIs(r, e);
    GetIs(n, e);
    ShrShr(r, d.end + 1, e.start - d.end - 1);
    ShrShr(n, d.end + 1, e.start - d.end - 1);
  }

  predicate Apart(d: Bits, e: Bits) {
    d.end < e.start || e.end < d.start
  }

  /** A set leaves every other field of the register alone exactly when the value fits: what is
      too much of it runs into the bits above the field. */
  lemma OthersKeptIff(r: nat, d: Bits, v: nat)
    requires d.Ok() && r < WORD
    ensures Descriptor(d).mask < WORD
    ensures Fits(d, v) <==>
      forall e: Bits :: e.Ok() && Apart(d, e) ==>
        GetWord(SetWord(r, Descriptor(d), v), Descriptor(e)) == GetWord(r, Descriptor(e))
  {
    hide Mask, Fits, GetWord, SetWord;
    MaskFits(d);
    var n := SetWord(r, Descriptor(d), v);
    forall e: Bits | e.Ok() && (e.end < d.start || (Fits(d, v) && d.end < e.start))
      ensures GetWord(n, Descriptor(e)) == GetWord(r, Descriptor(e))
    {
      SetKeeps(r, d, v, e);
    }
    if !Fits(d, v) {
      ExcessRunsOver(r, d, v);
      assert Apart(d, Bits(d.reg, d.end + 1, 31));
    }
  }

  lemma SetKeeps(r: nat, d: Bits, v: nat, e: Bits)
    requires d.Ok() && r < WORD && Descriptor(d).mask < WORD
    requires e.Ok() && (e.end < d.start || (Fits(d, v) && d.end < e.start))
    ensures GetWord(SetWord(r, Descriptor(d), v), Descriptor(e)) == GetWord(r, Descriptor(e))
  {
    hide Pow2, And, Mask, SetWord, GetWord, Shr, Shl, Low;
    var n := SetWord(r, Descriptor(d), v);
    SetParts(r, d, v);
    if e.end < d.start {
      BelowIsKept(r, n, d, e);
    } else {
      WordIs();
      ShrBound(r, d.end + 1, 31 - d.end);
      ExcessShows(Shr(r, d.end + 1), Shr(v, d.Width()), 31 - d.end);
      AboveIsKept(r, n, d, e);
    }
  }

  lemma ExcessRunsOver(r: nat, d: Bits, v: nat)
    requires d.Ok() && r < WORD && Descriptor(d).mask < WORD && !Fits(d, v)
    ensures d.end < 31
    ensures var e := Bits(d.reg, d.end + 1, 31);
      GetWord(SetWord(r, Descriptor(d), v), Descriptor(e)) != GetWord(r, Descriptor(e))
  {
    hide And, Mask, SetWord, GetWord, Shr, Shl, Low;
    NoBits(Shr(v, d.Width()));
    hide Pow2;
    var e, n := Bits(d.reg, d.end + 1, 31), SetWord(r, Descriptor(d), v);
    SetParts(r, d, v);
    TopField(r, e);
    TopField(n, e);
    ExcessShows(Shr(r, d.end + 1), Shr(v, d.Width()), 31 - d.end);
  }

  lemma NoBits(x: nat)
    ensures Low(x, 0) == 0
  {
  }

  lemma TopField(r: nat, e: Bits)
    requires e.Ok() && e.end == 31 && r < WORD
    ensures GetWord(r, Descriptor(e)) == Shr(r, e.start) < Pow2(e.Width())
  {
    WordIs();
    hide Pow2, And, Mask, GetWord, Shr, Shl, Low;
    GetIs(r, e);
    ShrBound(r, e.start, e.Width());
    SmallLow(Shr(r, e.start), e.Width());
  }

  // ----- the registers of a card

  datatype Bank = Bank(small: bool, reglen: nat, regs: map<nat, nat>)

  /** Every register up to the end is there and holds 32 bits. */
  ghost predicate BankOk(b: Bank) {
    && (forall a :: a % 4 == 0 && a <= b.reglen ==> a in b.regs)
    && (forall a :: a in b.regs ==> b.regs[a] < WORD)
  }

  /** Older cards have fewer registers; beyond them a set does nothing and a get gives 0. */
  predicate Reachable(b: Bank, f: Field) {
    !(b.small && f.add > 255) && f.add <= b.reglen
  }

  function Prset(b: Bank, f: Field, v: nat): (int, Bank)
    requires BankOk(b) && f.add % 4 == 0 && f.mask < WORD
  {
    if b.small && f.add > 255 then (0, b)
    else if f.add > b.reglen then (-1, b)
    else if f.mask == WORD - 1 then (0, b.(regs := b.regs[f.add := v]))
    else (0, b.(regs := b.regs[f.add := SetWord(b.regs[f.add], f, v)]))
  }

  function Prget(b: Bank, f: Field): nat
    requires BankOk(b) && f.add % 4 == 0
  {
    if Reachable(b, f) then GetWord(b.regs[f.add], f) else 0
  }

  /** A set beyond the mapped registers is an error and changes nothing; beyond address 255 of a
      card with few registers it does nothing and says nothing; there a get gives 0. */
  lemma OutOfReach(b: Bank, f: Field, v: nat)
    requires BankOk(b) && f.add % 4 == 0 && f.mask < WORD && v < WORD
    ensures Prset(b, f, v).0 == -1 <==> b.reglen < f.add && (!b.small || f.add <= 255)
    ensures Prset(b, f, v).0 == 0 <==> f.add <= b.reglen || (b.small && 255 < f.add)
    ensures b.reglen < f.add || (b.small && 255 < f.add) ==> Prset(b, f, v).1 == b && Prget(b, f) == 0
    ensures forall a :: a in b.regs && a != f.add ==> a in Prset(b, f, v).1.regs && Prset(b, f, v).1.regs[a] == b.regs[a]
  {
    hide SetWord, GetWord;
  }

  /** What can be reached depends on the address alone. */
  lemma WithinReach(b: Bank, f: Field, v: nat)
    requires BankOk(b) && f.add % 4 == 0 && f.mask < WORD && v < WORD
    requires f.add <= b.reglen && (b.small ==> f.add <= 255)
    ensures Reachable(b, f) && Prget(b, f) == GetWord(b.regs[f.add], f)
    ensures Prset(b, f, v).1.regs[f.add] == if f.mask == 0xFFFF_FFFF then v else SetWord(b.regs[f.add], f, v)
  {
    hide SetWord, GetWord;
  }

  lemma PrsetKeepsBank(b: Bank, f: Field, v: nat)
    requires BankOk(b) && f.add % 4 == 0 && f.mask < WORD && v < WORD
    ensures BankOk(Prset(b, f, v).1)
  {
    if Reachable(b, f) { SetWordFits(b.regs[f.add], f, v); }
    hide SetWord;
  }

  class CardRegisters {
    const small: bool
    const reglen: nat
    var regs: map<nat, nat>

    ghost function Abs(): Bank
      reads this
    {
      Bank(small, reglen, regs)
    }

    constructor (small: bool, reglen: nat, regs: map<nat, nat>)
      ensures Abs() == Bank(small, reglen, regs)
    {
      this.small, this.reglen, this.regs := small, reglen, regs;
    }

    method Set(f: Field, value: nat) returns (ret: int)
      requires BankOk(Abs()) && f.add % 4 == 0 && f.mask < WORD && value < WORD
      modifies this
      ensures (ret, Abs()) == Prset(old(Abs()), f, value)
      ensures BankOk(Abs())
    {
      if small && f.add > 255 { return 0; }
      if f.add > reglen { return -1; }
      if f.mask == 0xFFFF_FFFF {
        regs := regs[f.add := value];
        return 0;
      }
      hide And, Shl, Low;
      assert f.add in regs;
      SetWordFits(regs[f.add], f, value);
      var reg := And(regs[f.add], WORD - 1 - f.mask);
      var v := Low(Shl(value, f.shift), 32);
      regs := regs[f.add := Low(reg + v, 32)];
      ret := 0;
    }

    method Get(f: Field) returns (value: nat)
      requires BankOk(Abs()) && f.add % 4 == 0
      ensures value == Prget(Abs(), f)
    {
      if small && f.add > 255 { return 0; }
      if f.add > reglen { return 0; }
      assert f.add in regs;
      hide And, Pow2, GetWord, BankOk;
      value := GetWord(regs[f.add], f);
    }
  }

  // ----- sequences of sets

  datatype Write = Write(d: Bits, v: nat)

  predicate WriteOk(w: Write) { w.d.Ok() && w.v < WORD }

  /** A write that cannot reach the field d: to another register, to bits above d, or to bits
      below d with a value that fits. */
  predicate Spares(w: Write, d: Bits)
    requires WriteOk(w)
  {
    w.d.reg != d.reg || d.end < w.d.start || (w.d.end < d.start && Fits(w.d, w.v))
  }

  ghost function AfterWrite(b: Bank, w: Write): (r: Bank)
    requires BankOk(b) && WriteOk(w)
    ensures BankOk(r) && r.small == b.small && r.reglen == b.reglen
  {
    MaskFits(w.d);
    hide And, Shl, Low, Mask, SetWord;
    var f := Descriptor(w.d);
    PrsetKeepsBank(b, f, w.v);
    Prset(b, f, w.v).1
  }

  ghost function AfterWrites(b: Bank, ws: seq<Write>): (r: Bank)
    requires BankOk(b) && forall i :: 0 <= i < |ws| ==> WriteOk(ws[i])
    ensures BankOk(r)
    decreases |ws|
  {
    hide AfterWrite, BankOk;
    if ws == [] then b else AfterWrites(AfterWrite(b, ws[0]), ws[1..])
  }

  /** The value last written to d. */
  function LastWritten(ws: seq<Write>, d: Bits, x: nat): nat
    requires d.Ok()
  {
    if ws == [] then x
    else LastWritten(ws[1..], d, if ws[0].d == d then ws[0].v % Pow2(d.Width()) else x)
  }

  lemma WriteIsSet(b: Bank, w: Write)
    requires BankOk(b) && WriteOk(w) && Reachable(b, Descriptor(w.d))
    ensures Descriptor(w.d).mask < WORD
    ensures var a := Descriptor(w.d).add;
      AfterWrite(b, w) == b.(regs := b.regs[a := SetWord(b.regs[a], Descriptor(w.d), w.v)])
  {
    hide Mask, Pow2, SetWord;
    MaskFits(w.d);
    var f := Descriptor(w.d);
    FullMaskIff(w.d);
    if f.mask == WORD - 1 { FastPathAgrees(b.regs[f.add], w.d, w.v); }
  }

  lemma ReadAfterWrite(b: Bank, w: Write, d: Bits)
    requires BankOk(b) && WriteOk(w) && d.Ok() && Reachable(b, Descriptor(d)) && (w.d == d || Spares(w, d))
    ensures Prget(AfterWrite(b, w), Descriptor(d)) ==
      if w.d == d then w.v % Pow2(d.Width()) else Prget(b, Descriptor(d))
  {
    hide Mask, Pow2, SetWord, GetWord, And, Fits;
    if w.d.reg == d.reg {
      WriteIsSet(b, w);
      var r := b.regs[d.reg * 4];
      if w.d == d { GetAfterSet(r, d, w.v); } else { SetKeeps(r, w.d, w.v, d); }
    }
  }

  /** After any sequence of sets that spare it, a field reads as it was last written. */
  lemma {:induction false} ReadsLastWritten(b: Bank, ws: seq<Write>, d: Bits)
    requires BankOk(b) && d.Ok() && Reachable(b, Descriptor(d))
    requires forall i :: 0 <= i < |ws| ==> WriteOk(ws[i]) && (ws[i].d == d || Spares(ws[i], d))
    ensures Prget(AfterWrites(b, ws), Descriptor(d)) == LastWritten(ws, d, Prget(b, Descriptor(d)))
    decreases |ws|
  {
    if ws != [] {
      hide Prget, AfterWrite, Spares, Descriptor;
      ReadAfterWrite(b, ws[0], d);
      assert Reachable(AfterWrite(b, ws[0]), Descriptor(d));
      ReadsLastWritten(AfterWrite(b, ws[0]), ws[1..], d);
    }
  }
}
