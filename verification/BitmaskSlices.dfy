/** SliceBitmask: a bitmask as the list of its one-bit slices. */
module BitmaskSlices {
  type Bytes = seq<bv8>

  function Power(j: nat): bv8
    requires j < 8
  {
    if j == 0 then 0x01 else if j == 1 then 0x02 else if j == 2 then 0x04 else if j == 3 then 0x08
    else if j == 4 then 0x10 else if j == 5 then 0x20 else if j == 6 then 0x40 else 0x80
  }

  predicate HasBit(b: bv8, j: nat)
    requires j < 8
  {
    b & Power(j) != 0
  }

  function Zeros(n: nat): Bytes { seq(n, _ => 0) }

  /** Byte i is v, every other is 0. */
  function Unit(n: nat, i: nat, v: bv8): Bytes
    requires i < n
  {
    Zeros(n)[i := v]
  }

  /** The bits of b below bit j, highest first. */
  function BitsBelow(b: bv8, j: nat): seq<bv8>
    requires j <= 8
  {
    if j == 0 then []
    else (if HasBit(b, j - 1) then [Power(j - 1)] else []) + BitsBelow(b, j - 1)
  }

  /** A bit and the byte that it is in. */
  datatype Bit = Bit(i: nat, v: bv8)

  function InByte(i: nat, vs: seq<bv8>): seq<Bit> { seq(|vs|, k requires 0 <= k < |vs| => Bit(i, vs[k])) }

  /** The bits of the first n bytes. */
  function BitsUpTo(bm: Bytes, n: nat): seq<Bit>
    requires n <= |bm|
  {
    if n == 0 then [] else BitsUpTo(bm, n - 1) + InByte(n - 1, BitsBelow(bm[n - 1], 8))
  }

  function UnitOf(n: nat, x: Bit): Bytes { if x.i < n then Unit(n, x.i, x.v) else Zeros(n) }

  function Units(n: nat, xs: seq<Bit>): seq<Bytes> { seq(|xs|, k requires 0 <= k < |xs| => UnitOf(n, xs[k])) }

  function Slices(bm: Bytes): seq<Bytes> {
    if bm == Zeros(|bm|) then [bm] else Units(|bm|, BitsUpTo(bm, |bm|))
  }

  // ---------------------------------------------------------------------------------
  // The bits
  // ---------------------------------------------------------------------------------

  /** v is bit k of b, for some k below j. */
  predicate IsBitBelow(b: bv8, j: nat, v: bv8)
    requires j <= 8
  {
    exists k :: 0 <= k < j && IsBitAt(b, k, v)
  }

  predicate IsBitAt(b: bv8, k: nat, v: bv8)
    requires k < 8
  {
    HasBit(b, k) && v == Power(k)
  }

  lemma BitAdded(b: bv8, j: nat, v: bv8)
    requires j < 8
    ensures v in BitsBelow(b, j + 1) <==> v in BitsBelow(b, j) || IsBitAt(b, j, v)
  {
  }

  lemma BitStep(b: bv8, j: nat, v: bv8)
    requires j < 8
    ensures IsBitBelow(b, j + 1, v) <==> IsBitBelow(b, j, v) || IsBitAt(b, j, v)
  {
    if k :| 0 <= k < j + 1 && IsBitAt(b, k, v) { assert k < j ==> IsBitBelow(b, j, v); }
    if k :| 0 <= k < j && IsBitAt(b, k, v) { assert k < j + 1; }
  }

  lemma {:induction false} BitsAreSet(b: bv8, j: nat, v: bv8)
    requires j <= 8
    ensures v in BitsBelow(b, j) <==> IsBitBelow(b, j, v)
  {
    if j > 0 {
      BitsAreSet(b, j - 1, v);
      BitAdded(b, j - 1, v);
      BitStep(b, j - 1, v);
    }
  }

  lemma OneBitEach(j: nat, k: nat)
    requires j < 8 && k < 8
    ensures HasBit(Power(j), k) <==> j == k
    ensures Power(j) == Power(k) <==> j == k
    ensures Power(j) != 0 && !HasBit(0, k)
  {
  }

  lemma {:induction false} BitsDistinct(b: bv8, j: nat)
    requires j <= 8
    ensures forall x, y :: 0 <= x < y < |BitsBelow(b, j)| ==> BitsBelow(b, j)[x] != BitsBelow(b, j)[y]
  {
    if j > 0 {
      BitsDistinct(b, j - 1);
      var rest := BitsBelow(b, j - 1);
      forall y | 0 <= y < |rest| ensures rest[y] != Power(j - 1) {
        BitsAreSet(b, j - 1, rest[y]);
        var k :| 0 <= k < j - 1 && IsBitAt(b, k, rest[y]);
        OneBitEach(k, j - 1);
      }
    }
  }

  // ---------------------------------------------------------------------------------
  // The bits of a bitmask
  // ---------------------------------------------------------------------------------

  /** x is set in one of the first n bytes. */
  predicate IsSet(bm: Bytes, n: nat, x: Bit)
    requires n <= |bm|
  {
    x.i < n && x.v in BitsBelow(bm[x.i], 8)
  }

  lemma InByteMembers(i: nat, vs: seq<bv8>, x: Bit)
    ensures x in InByte(i, vs) <==> x.i == i && x.v in vs
  {
    if x.i == i && x.v in vs {
      var k :| 0 <= k < |vs| && vs[k] == x.v;
      assert InByte(i, vs)[k] == x;
    }
  }

  lemma BitsAdded(bm: Bytes, n: nat, x: Bit)
    requires n < |bm|
    ensures x in BitsUpTo(bm, n + 1) <==> x in BitsUpTo(bm, n) || (x.i == n && x.v in BitsBelow(bm[n], 8))
  {
    InByteMembers(n, BitsBelow(bm[n], 8), x);
  }

  lemma {:induction false} BitsExactly(bm: Bytes, n: nat, x: Bit)
    requires n <= |bm|
    ensures x in BitsUpTo(bm, n) <==> IsSet(bm, n, x)
  {
    if n > 0 {
      BitsExactly(bm, n - 1, x);
      BitsAdded(bm, n - 1, x);
    }
  }

  ghost predicate NoneTwice(xs: seq<Bit>) { forall a, b :: 0 <= a < b < |xs| ==> xs[a] != xs[b] }

  lemma InByteDistinct(i: nat, b: bv8)
    ensures NoneTwice(InByte(i, BitsBelow(b, 8)))
  {
    BitsDistinct(b, 8);
  }

  lemma {:induction false} BitsUpToDistinct(bm: Bytes, n: nat)
    requires n <= |bm|
    ensures NoneTwice(BitsUpTo(bm, n))
  {
    if n > 0 {
      var done, more := BitsUpTo(bm, n - 1), InByte(n - 1, BitsBelow(bm[n - 1], 8));
      BitsUpToDistinct(bm, n - 1);
      InByteDistinct(n - 1, bm[n - 1]);
      forall a, b | 0 <= a < |done| && 0 <= b < |more| ensures done[a] != more[b] {
        BitsExactly(bm, n - 1, done[a]);
      }
      JoinDistinct(done, more);
    }
  }

  lemma JoinDistinct(xs: seq<Bit>, ys: seq<Bit>)
    requires NoneTwice(xs) && NoneTwice(ys)
    requires forall a, b :: 0 <= a < |xs| && 0 <= b < |ys| ==> xs[a] != ys[b]
    ensures NoneTwice(xs + ys)
  {
  }

  // ---------------------------------------------------------------------------------
  // The slices are the bits
  // ---------------------------------------------------------------------------------

  /** s is the slice for a set bit. */
  predicate IsSlice(bm: Bytes, s: Bytes) {
    exists x :: x in BitsUpTo(bm, |bm|) && s == UnitOf(|bm|, x)
  }

  lemma SlicesAreBits(bm: Bytes, s: Bytes)
    requires bm != Zeros(|bm|)
    ensures s in Slices(bm) <==> IsSlice(bm, s)
  {
    var xs := BitsUpTo(bm, |bm|);
    var us := Units(|bm|, xs);
    if s in us {
      var k :| 0 <= k < |us| && us[k] == s;
      assert xs[k] in xs;
    }
    if IsSlice(bm, s) {
      var x :| x in xs && s == UnitOf(|bm|, x);
      var k :| 0 <= k < |xs| && xs[k] == x;
      assert us[k] == s;
    }
  }

  /** The bit that a slice stands for is not zero, and can be told from the slice. */
  lemma BitIsSet(bm: Bytes, x: Bit)
    requires x in BitsUpTo(bm, |bm|)
    ensures x.i < |bm| && x.v != 0
  {
    BitsExactly(bm, |bm|, x);
    BitsAreSet(bm[x.i], 8, x.v);
    var k :| 0 <= k < 8 && IsBitAt(bm[x.i], k, x.v);
    OneBitEach(k, k);
  }

  lemma UnitsDiffer(n: nat, x: Bit, y: Bit)
    requires x.i < n && y.i < n && x.v != 0 && y.v != 0 && x != y
    ensures UnitOf(n, x) != UnitOf(n, y)
  {
    assert UnitOf(n, x)[x.i] == x.v;
    assert UnitOf(n, y)[x.i] == if x.i == y.i then y.v else 0;
  }

  ghost predicate Distinct(ss: seq<Bytes>) { forall x, y :: 0 <= x < y < |ss| ==> ss[x] != ss[y] }

  lemma SlicesDistinct(bm: Bytes)
    requires bm != Zeros(|bm|)
    ensures Distinct(Slices(bm))
  {
    var xs := BitsUpTo(bm, |bm|);
    BitsUpToDistinct(bm, |bm|);
    forall a, b | 0 <= a < b < |xs| ensures UnitOf(|bm|, xs[a]) != UnitOf(|bm|, xs[b]) {
      BitIsSet(bm, xs[a]);
      BitIsSet(bm, xs[b]);
      UnitsDiffer(|bm|, xs[a], xs[b]);
    }
  }

  lemma PowerIsBit(bm: Bytes, i: nat, j: nat)
    requires i < |bm| && j < 8
    ensures Bit(i, Power(j)) in BitsUpTo(bm, |bm|) <==> HasBit(bm[i], j)
  {
    BitsExactly(bm, |bm|, Bit(i, Power(j)));
    BitsAreSet(bm[i], 8, Power(j));
    if HasBit(bm[i], j) { assert IsBitAt(bm[i], j, Power(j)); }
    if k :| 0 <= k < 8 && IsBitAt(bm[i], k, Power(j)) { OneBitEach(j, k); }
  }

  /** A bitmask with some bit set: its slices are pairwise different and are exactly, for each bit that
      is set, the bitmask of the same length with that bit alone. */
  lemma SlicesExactly(bm: Bytes, i: nat, j: nat)
    requires bm != Zeros(|bm|) && i < |bm| && j < 8
    ensures Distinct(Slices(bm)) && Slices(bm) != []
    ensures Unit(|bm|, i, Power(j)) in Slices(bm) <==> HasBit(bm[i], j)
    ensures forall s :: s in Slices(bm) ==> IsSlice(bm, s)
  {
    SlicesDistinct(bm);
    SlicesNonEmpty(bm);
    forall s ensures s in Slices(bm) <==> IsSlice(bm, s) { SlicesAreBits(bm, s); }
    UnitIsSlice(bm, i, j);
  }

  lemma UnitIsSlice(bm: Bytes, i: nat, j: nat)
    requires i < |bm| && j < 8
    ensures IsSlice(bm, Unit(|bm|, i, Power(j))) <==> HasBit(bm[i], j)
  {
    var u, x := Unit(|bm|, i, Power(j)), Bit(i, Power(j));
    PowerIsBit(bm, i, j);
    OneBitEach(j, j);
    assert u == UnitOf(|bm|, x);
    if y :| y in BitsUpTo(bm, |bm|) && u == UnitOf(|bm|, y) {
      BitIsSet(bm, y);
      if y != x { UnitsDiffer(|bm|, x, y); }
    }
  }

  lemma SomeBit(b: bv8)
    ensures b != 0 ==> exists j :: 0 <= j < 8 && HasBit(b, j)
  {
    if b != 0 {
      assert HasBit(b, 0) || HasBit(b, 1) || HasBit(b, 2) || HasBit(b, 3)
          || HasBit(b, 4) || HasBit(b, 5) || HasBit(b, 6) || HasBit(b, 7);
    }
  }

  /** Every bitmask has a slice. */
  lemma SlicesNonEmpty(bm: Bytes)
    ensures Slices(bm) != []
  {
    if bm != Zeros(|bm|) {
      var i :| 0 <= i < |bm| && bm[i] != 0;
      SomeBit(bm[i]);
      var j :| 0 <= j < 8 && HasBit(bm[i], j);
      PowerIsBit(bm, i, j);
    }
  }

  /** The slices make up the bitmask: a bit is set if and only if it is set in some slice. */
  lemma SlicesMakeUp(bm: Bytes, i: nat, j: nat)
    requires i < |bm| && j < 8
    ensures HasBit(bm[i], j) <==> exists s :: s in Slices(bm) && |s| == |bm| && HasBit(s[i], j)
  {
    if bm == Zeros(|bm|) {
      assert bm in Slices(bm);
    } else {
      if HasBit(bm[i], j) {
        var u := Unit(|bm|, i, Power(j));
        UnitIsSlice(bm, i, j);
        SlicesAreBits(bm, u);
        OneBitEach(j, j);
        assert u in Slices(bm) && HasBit(u[i], j);
      }
      if s :| s in Slices(bm) && |s| == |bm| && HasBit(s[i], j) {
        SlicesAreBits(bm, s);
        SliceHasBit(bm, s, i, j);
      }
    }
  }

  lemma SliceHasBit(bm: Bytes, s: Bytes, i: nat, j: nat)
    requires i < |bm| == |s| && j < 8 && IsSlice(bm, s) && HasBit(s[i], j)
    ensures HasBit(bm[i], j)
  {
    var x :| x in BitsUpTo(bm, |bm|) && s == UnitOf(|bm|, x);
    BitsExactly(bm, |bm|, x);
    OneBitEach(j, j);
    assert x.i == i && s[i] == x.v;
    BitsAreSet(bm[i], 8, x.v);
    var k :| 0 <= k < 8 && IsBitAt(bm[i], k, x.v);
    OneBitEach(k, j);
  }

  // ---------------------------------------------------------------------------------
  // The loop
  // ---------------------------------------------------------------------------------

  /** A byte with one bit is its own only bit. */
  lemma OnlyBit(b: bv8)
    requires b != 0 && b & (b - 1) == 0
    ensures BitsBelow(b, 8) == [b]
  {
    assert b == 0x01 || b == 0x02 || b == 0x04 || b == 0x08 || b == 0x10 || b == 0x20 || b == 0x40 || b == 0x80;
  }

  lemma NoBits()
    ensures BitsBelow(0, 8) == []
  {
  }

  lemma ShiftsAndPowers(b: bv8, j: nat)
    requires j < 8
    ensures ((b >> j) & 1 == 1) <==> HasBit(b, j)
    ensures (1 as bv8) << j == Power(j)
  {
    assert j == 0 || j == 1 || j == 2 || j == 3 || j == 4 || j == 5 || j == 6 || j == 7;
  }

  lemma UnitsAppend(n: nat, xs: seq<Bit>, ys: seq<Bit>)
    ensures Units(n, xs + ys) == Units(n, xs) + Units(n, ys)
  {
  }

  lemma InByteAppend(i: nat, vs: seq<bv8>, ws: seq<bv8>)
    ensures InByte(i, vs + ws) == InByte(i, vs) + InByte(i, ws)
  {
  }

  lemma Assoc(a: seq<Bytes>, b: seq<Bytes>, c: seq<Bytes>)
    ensures (a + b) + c == a + (b + c)
  {
  }

  function ByteUnits(n: nat, i: nat, vs: seq<bv8>): seq<Bytes> { Units(n, InByte(i, vs)) }

  lemma ByteUnitsAppend(n: nat, i: nat, vs: seq<bv8>, ws: seq<bv8>)
    ensures ByteUnits(n, i, vs + ws) == ByteUnits(n, i, vs) + ByteUnits(n, i, ws)
  {
    InByteAppend(i, vs, ws);
    UnitsAppend(n, InByte(i, vs), InByte(i, ws));
  }

  lemma ByteUnitsOne(n: nat, i: nat, v: bv8)
    requires i < n
    ensures ByteUnits(n, i, [v]) == [Zeros(n)[i := v]]
  {
  }

  /** What one round of the loop over the bits appends. */
  function BitSlice(n: nat, i: nat, b: bv8, j: nat): (one: seq<Bytes>)
    requires i < n && j < 8
    ensures one + ByteUnits(n, i, BitsBelow(b, j)) == ByteUnits(n, i, BitsBelow(b, j + 1))
  {
    ShiftsAndPowers(b, j);
    ByteUnitsOne(n, i, Power(j));
    ByteUnitsAppend(n, i, if HasBit(b, j) then [Power(j)] else [], BitsBelow(b, j));
    if (b >> j) & 1 == 1 then [Zeros(n)[i := 1 << j]] else []
  }

  method BitSlices(n: nat, i: nat, b: bv8) returns (sliced: seq<Bytes>)
    requires i < n
    ensures sliced == ByteUnits(n, i, BitsBelow(b, 8))
  {
    sliced := [];
    for j := 8 downto 0
      invariant sliced + ByteUnits(n, i, BitsBelow(b, j)) == ByteUnits(n, i, BitsBelow(b, 8))
    {
      var one := BitSlice(n, i, b, j);
      Assoc(sliced, one, ByteUnits(n, i, BitsBelow(b, j)));
      sliced := sliced + one;
    }
  }

  /** done are the slices of the first i bytes. */
  predicate SlicedUpTo(bm: Bytes, i: nat, done: seq<Bytes>)
    requires i <= |bm|
  {
    done == Units(|bm|, BitsUpTo(bm, i))
  }

  lemma SlicedStep(bm: Bytes, i: nat, done: seq<Bytes>, more: seq<Bytes>)
    requires i < |bm| && SlicedUpTo(bm, i, done) && more == ByteUnits(|bm|, i, BitsBelow(bm[i], 8))
    ensures SlicedUpTo(bm, i + 1, done + more)
  {
    UnitsAppend(|bm|, BitsUpTo(bm, i), InByte(i, BitsBelow(bm[i], 8)));
  }

  /** The slices of byte i, with a fast path for a single bit. */
  method ByteSlices(n: nat, i: nat, b: bv8) returns (sliced: seq<Bytes>)
    requires i < n
    ensures sliced == ByteUnits(n, i, BitsBelow(b, 8))
  {
    if b == 0 {
      NoBits();
      return [];
    }
    if b & (b - 1) == 0 {
      OnlyBit(b);
      ByteUnitsOne(n, i, b);
      return [Zeros(n)[i := b]];
    }
    sliced := BitSlices(n, i, b);
  }

  /** Appends the slices of byte i. */
  method AppendSlices(bm: Bytes, i: nat, done: seq<Bytes>) returns (sliced: seq<Bytes>)
    requires i < |bm| && SlicedUpTo(bm, i, done)
    ensures SlicedUpTo(bm, i + 1, sliced)
  {
    var more := ByteSlices(|bm|, i, bm[i]);
    SlicedStep(bm, i, done, more);
    sliced := done + more;
  }

  method SliceBitmask(bm: Bytes) returns (sliced: seq<Bytes>)
    ensures sliced == Slices(bm)
  {
    sliced := [];
    if bm == Zeros(|bm|) { return [bm]; }
    for i := 0 to |bm|
      invariant SlicedUpTo(bm, i, sliced)
    {
      sliced := AppendSlices(bm, i, sliced);
    }
  }
}
