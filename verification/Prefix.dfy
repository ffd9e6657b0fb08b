/** Prefix arithmetic on byte strings: what mask_addr does, and what it means for big-endian numbers. */
module Prefix {

  type Bytes = seq<bv8>

  function Pow2(k: nat): (p: nat)
    ensures p >= 1
  {
    if k == 0 then 1 else 2 * Pow2(k - 1)
  }

  /** The number a byte string denotes, most significant byte first. */
  function Value(b: Bytes): nat {
    if b == [] then 0 else 256 * Value(b[..|b| - 1]) + b[|b| - 1] as int
  }

  /** The byte whose j leading bits are set. */
  function Leading(j: int): bv8
    decreases j
  {
    if j <= 0 then 0x00
    else if j >= 8 then 0xFF
    else 0x80 | (Leading(j - 1) >> 1)
  }

  lemma LeadingValues()
    ensures Leading(0) == 0x00 && Leading(1) == 0x80 && Leading(2) == 0xC0 && Leading(3) == 0xE0
    ensures Leading(4) == 0xF0 && Leading(5) == 0xF8 && Leading(6) == 0xFC && Leading(7) == 0xFE
  {
    assert Leading(1) == 0x80;
    assert Leading(2) == 0xC0;
    assert Leading(3) == 0xE0;
    assert Leading(4) == 0xF0;
    assert Leading(5) == 0xF8;
    assert Leading(6) == 0xFC;
  }

  /** The constant the source shifts into place. */
  function ShiftedOnes(j: nat): (m: bv8)
    requires 0 < j < 8
    ensures m == Leading(j)
  {
    ShiftValues(j);
    0xFF << (8 - j)
  }

  lemma ShiftValues(j: nat)
    requires 0 < j < 8
    ensures (0xFF as bv8) << (8 - j) == Leading(j)
  {
    LeadingValues();
    if j == 1 {} else if j == 2 {} else if j == 3 {} else if j == 4 {}
    else if j == 5 {} else if j == 6 {} else {}
  }

  /** The byte that keeps the j leading bits of b. */
  function MaskByte(b: bv8, j: int): bv8 {
    b & Leading(j)
  }

  /** The k leading bits of a byte string, all others cleared. */
  function Masked(b: Bytes, k: nat): (r: Bytes)
    ensures |r| == |b|
    ensures forall i | 0 <= i < |b| :: r[i] == MaskByte(b[i], k - 8 * i)
  {
    seq(|b|, i requires 0 <= i < |b| => MaskByte(b[i], k - 8 * i))
  }

  /** Bytes wholly inside or wholly outside the prefix. */
  lemma MaskByteEdge(b: bv8, j: int)
    ensures j >= 8 ==> MaskByte(b, j) == b
    ensures j <= 0 ==> MaskByte(b, j) == 0
  {
    assert b & 0xFF == b && b & 0x00 == 0;
  }

  // ----- composition of masks

  lemma MaskByteCompose(b: bv8, j: int, k: int)
    ensures MaskByte(MaskByte(b, j), k) == MaskByte(b, if j <= k then j else k)
  {
    assert (b & Leading(j)) & Leading(k) == b & (Leading(j) & Leading(k));
    LeadingMeet(j, k);
  }

  lemma LeadingMeet(j: int, k: int)
    ensures Leading(j) & Leading(k) == Leading(if j <= k then j else k)
  {
    LeadingValues();
  }

  /** Masking twice is masking once by the shorter prefix; so masking is idempotent. */
  lemma MaskCompose(b: Bytes, j: nat, k: nat)
    ensures Masked(Masked(b, j), k) == Masked(b, if j <= k then j else k)
  {
    forall i | 0 <= i < |b| ensures Masked(Masked(b, j), k)[i] == Masked(b, if j <= k then j else k)[i] {
      MaskByteCompose(b[i], j - 8 * i, k - 8 * i);
    }
  }

  /** A prefix as long as the whole string keeps everything. */
  lemma MaskWhole(b: Bytes, k: nat)
    requires k >= 8 * |b|
    ensures Masked(b, k) == b
  {
  }

  // ----- big-endian meaning

  lemma {:induction false} ValueBound(b: Bytes)
    ensures Value(b) < Pow2(8 * |b|)
  {
    if b == [] {
    } else {
      var k := |b| - 1;
      ValueBound(b[..k]);
      Pow2Add(8 * k, 8);
      assert 8 * k + 8 == 8 * |b| && Pow2(8) == 256;
    }
  }

  lemma {:induction false} Pow2Add(i: nat, j: nat)
    ensures Pow2(i + j) == Pow2(i) * Pow2(j)
  {
    if j > 0 {
      Pow2Add(i, j - 1);
    }
  }

  lemma {:induction false} ValueInjective(a: Bytes, b: Bytes)
    requires |a| == |b| && Value(a) == Value(b)
    ensures a == b
  {
    if a != [] {
      var k := |a| - 1;
      assert a == a[..k] + [a[k]] && b == b[..k] + [b[k]];
      SameParts(Value(a[..k]), Value(b[..k]), a[k], b[k]);
      ValueInjective(a[..k], b[..k]);
    }
  }

  lemma SameParts(v: nat, w: nat, x: bv8, y: bv8)
    requires 256 * v + x as int == 256 * w + y as int
    ensures v == w && x == y
  {
    assert x as int < 256 && y as int < 256;
    assert v == w;
    assert (x as int) as bv8 == (y as int) as bv8;
  }

  /** v with its m low bits cleared. */
  function ClearLow(v: nat, m: nat): nat {
    if m == 0 then v else 2 * ClearLow(v / 2, m - 1)
  }

  /** Clearing m low bits is floor(v / 2^m) * 2^m. */
  lemma {:induction false} ClearLowIsFloor(v: nat, m: nat)
    ensures ClearLow(v, m) == v / Pow2(m) * Pow2(m)
  {
    if m > 0 {
      ClearLowIsFloor(v / 2, m - 1);
      ScaleQuotient(2, v / 2, v % 2, Pow2(m - 1));
    }
  }

  lemma SmallPowers()
    ensures Pow2(1) == 2 && Pow2(2) == 4 && Pow2(3) == 8 && Pow2(4) == 16
    ensures Pow2(5) == 32 && Pow2(6) == 64 && Pow2(7) == 128 && Pow2(8) == 256
  {
    assert Pow2(4) == 16;
    assert Pow2(6) == 64;
  }

  lemma HalveByte(x: bv8)
    ensures (x >> 1) as int == x as int / 2
    ensures x & 1 == 0 ==> x as int == 2 * (x >> 1) as int
  {
  }

  /** Moving a byte down by one bit moves the mask along. */
  lemma HalveMask(b: bv8, j: nat)
    requires j < 8
    ensures MaskByte(b, j) & 1 == 0 && MaskByte(b, j) >> 1 == MaskByte(b >> 1, j + 1)
  {
    var l := Leading(j);
    LeadingValues();
    assert l & 1 == 0;
    assert Leading(j + 1) == 0x80 | (l >> 1);
    assert (b >> 1) & (0x80 | (l >> 1)) == (b & l) >> 1;
  }

  /** ClearLow on one byte. */
  lemma {:induction false} MaskByteValue(b: bv8, j: nat)
    requires j <= 8
    ensures MaskByte(b, j) as int == ClearLow(b as int, 8 - j)
    decreases 8 - j
  {
    if j == 8 {
      assert b & 0xFF == b;
    } else {
      HalveMask(b, j);
      HalveByte(b);
      HalveByte(MaskByte(b, j));
      MaskByteValue(b >> 1, j + 1);
    }
  }

  lemma ValueSnoc(b: Bytes, x: bv8)
    ensures Value(b + [x]) == 256 * Value(b) + x as int
  {
    assert (b + [x])[..|b|] == b;
  }

  lemma MaskSnoc(b: Bytes, x: bv8, k: nat)
    ensures Masked(b + [x], k) == Masked(b, k) + [MaskByte(x, k - 8 * |b|)]
  {
  }

  /** The loop over bytes is floor(v / 2^m) * 2^m on the number, m being the host bits. */
  lemma {:induction false} MaskValue(b: Bytes, k: nat)
    requires k <= 8 * |b|
    ensures Value(Masked(b, k)) == ClearLow(Value(b), 8 * |b| - k)
  {
    if b == [] {
    } else {
      var init, x := b[..|b| - 1], b[|b| - 1];
      assert b == init + [x];
      if k <= 8 * |init| {
        MaskValue(init, k);
      }
      MaskValueSnoc(init, x, k);
    }
  }

  lemma MaskValueSnoc(b: Bytes, x: bv8, k: nat)
    requires k <= 8 * |b| + 8
    requires k <= 8 * |b| ==> Value(Masked(b, k)) == ClearLow(Value(b), 8 * |b| - k)
    ensures Value(Masked(b + [x], k)) == ClearLow(Value(b + [x]), 8 * |b| + 8 - k)
  {
    if k <= 8 * |b| {
      MaskedTail(b, x, k);
    } else {
      MaskedLast(b, x, k - 8 * |b|);
    }
  }

  /** The prefix ends before the last byte. */
  lemma MaskedTail(b: Bytes, x: bv8, k: nat)
    requires k <= 8 * |b|
    requires Value(Masked(b, k)) == ClearLow(Value(b), 8 * |b| - k)
    ensures Value(Masked(b + [x], k)) == ClearLow(Value(b + [x]), 8 * |b| + 8 - k)
  {
    MaskSnoc(b, x, k);
    var y := MaskByte(x, k - 8 * |b|);
    assert y == 0;
    ValueSnoc(Masked(b, k), y);
    ValueSnoc(b, x);
    ClearLowAboveByte(Value(b), x as int, 8 * |b| + 8 - k);
  }

  /** The prefix ends inside or right after the last byte. */
  lemma MaskedLast(b: Bytes, x: bv8, j: nat)
    requires 0 < j <= 8
    ensures Value(Masked(b + [x], 8 * |b| + j)) == ClearLow(Value(b + [x]), 8 - j)
  {
    calc {
      Value(Masked(b + [x], 8 * |b| + j));
    ==  { MaskWholeBut(b, x, j); }
      Value(b + [MaskByte(x, j)]);
    ==  { ValueSnoc(b, MaskByte(x, j)); }
      256 * Value(b) + MaskByte(x, j) as int;
    ==  { MaskByteValue(x, j); }
      256 * Value(b) + ClearLow(x as int, 8 - j);
    ==  { ClearLowInByte(Value(b), x as int, 8 - j); }
      ClearLow(256 * Value(b) + x as int, 8 - j);
    ==  { ValueSnoc(b, x); }
      ClearLow(Value(b + [x]), 8 - j);
    }
  }

  lemma MaskWholeBut(b: Bytes, x: bv8, j: nat)
    requires 0 < j <= 8
    ensures Masked(b + [x], 8 * |b| + j) == b + [MaskByte(x, j)]
  {
    MaskSnoc(b, x, 8 * |b| + j);
    MaskWhole(b, 8 * |b| + j);
  }

  /** v moved up by k bits. */
  function ShiftUp(v: nat, k: nat): nat {
    if k == 0 then v else 2 * ShiftUp(v, k - 1)
  }

  lemma ShiftByte(v: nat)
    ensures ShiftUp(v, 8) == 256 * v
  {
    assert ShiftUp(v, 1) == 2 * v && ShiftUp(v, 2) == 4 * v && ShiftUp(v, 3) == 8 * v && ShiftUp(v, 4) == 16 * v;
    assert ShiftUp(v, 5) == 32 * v && ShiftUp(v, 6) == 64 * v && ShiftUp(v, 7) == 128 * v;
  }

  lemma ClearLowInByte(v: nat, x: nat, m: nat)
    requires x < 256 && m <= 8
    ensures ClearLow(256 * v + x, m) == 256 * v + ClearLow(x, m)
  {
    ShiftByte(v);
    ClearLowUnder(v, x, 8, m);
  }

  /** Bits above the cleared ones stay. */
  lemma {:induction false} ClearLowUnder(v: nat, x: nat, k: nat, m: nat)
    requires m <= k
    ensures ClearLow(ShiftUp(v, k) + x, m) == ShiftUp(v, k) + ClearLow(x, m)
  {
    if m > 0 {
      assert (ShiftUp(v, k) + x) / 2 == ShiftUp(v, k - 1) + x / 2;
      ClearLowUnder(v, x / 2, k - 1, m - 1);
    }
  }

  lemma ClearLowAboveByte(v: nat, x: nat, m: nat)
    requires x < 256 && m >= 8
    ensures ClearLow(256 * v + x, m) == 256 * ClearLow(v, m - 8)
  {
    ShiftByte(v);
    ShiftByte(ClearLow(v, m - 8));
    SmallPowers();
    ClearLowAbove(v, x, 8, m);
  }

  /** Bits below the cleared boundary go. */
  lemma {:induction false} ClearLowAbove(v: nat, x: nat, k: nat, m: nat)
    requires x < Pow2(k) && m >= k
    ensures ClearLow(ShiftUp(v, k) + x, m) == ShiftUp(ClearLow(v, m - k), k)
  {
    if k > 0 {
      assert (ShiftUp(v, k) + x) / 2 == ShiftUp(v, k - 1) + x / 2;
      ClearLowAbove(v, x / 2, k - 1, m - 1);
    }
  }

  lemma MulGap(a: int, b: int, p: nat)
    requires a < b
    ensures a * p + p <= b * p
  {
    assert a * p + p == (a + 1) * p;
  }

  lemma QuotientUnique(v: nat, p: nat, q: nat, r: nat)
    requires p > 0 && r < p && v == q * p + r
    ensures v / p == q
  {
    var d := v / p;
    assert v == d * p + v % p;
    if d > q {
      MulGap(q, d, p);
    } else if d < q {
      MulGap(d, q, p);
    }
  }

  lemma ScaleQuotient(c: nat, v: nat, x: nat, p: nat)
    requires x < c && p > 0
    ensures (c * v + x) / (c * p) * (c * p) == c * (v / p * p)
  {
    var q, r := v / p, v % p;
    assert v == q * p + r;
    assert q * (c * p) == c * (q * p);
    assert c * v == c * (q * p) + c * r;
    MulGap(r, p, c);
    QuotientUnique(c * v + x, c * p, q, c * r + x);
  }
}
