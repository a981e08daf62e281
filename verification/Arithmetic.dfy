/**
 The units' integer arithmetic, at every width.

 A register is a number below `Pow2(w)`. Sign handling is structural: no operation below
 is a signed one. What each structural form means is stated over the signed readings.
 */
module Arithmetic {

  function Pow2(n: nat): (p: nat)
    ensures p >= 1
  {
    if n == 0 then 1 else 2 * Pow2(n - 1)
  }

  /** The two's-complement reading of a w-bit register. */
  function Signed(w: nat, v: nat): int
    requires w > 0
  {
    if v >= Pow2(w - 1) then v - Pow2(w) else v
  }

  /** What a w-bit result wire keeps. */
  function Cut(w: nat, v: int): (r: nat)
    ensures r < Pow2(w)
  {
    v % Pow2(w)
  }

  // --- bits ---------------------------------------------------------------------------

  predicate Bit(v: nat, i: nat)
  {
    if i == 0 then v % 2 == 1 else Bit(v / 2, i - 1)
  }

  /** A bitwise operator over w bits. */
  function Bitwise(w: nat, f: (bool, bool) -> bool, a: nat, b: nat): (r: nat)
    ensures r < Pow2(w)
  {
    if w == 0 then 0
    else 2 * Bitwise(w - 1, f, a / 2, b / 2) + (if f(a % 2 == 1, b % 2 == 1) then 1 else 0)
  }

  function And(w: nat, a: nat, b: nat): nat { Bitwise(w, (x, y) => x && y, a, b) }

  function Or(w: nat, a: nat, b: nat): nat { Bitwise(w, (x, y) => x || y, a, b) }

  function Xor(w: nat, a: nat, b: nat): nat { Bitwise(w, (x, y) => x != y, a, b) }

  function Not(w: nat, a: nat): nat { Bitwise(w, (x, y) => !x, a, 0) }

  function Quo(a: nat, b: nat): nat
    requires b > 0
  {
    a / b
  }

  function Shr(a: nat, n: nat): nat { Quo(a, Pow2(n)) }

  function Shl(w: nat, a: nat, n: nat): nat { Cut(w, a * Pow2(n)) }

  lemma {:induction false} BitwiseBit(w: nat, f: (bool, bool) -> bool, a: nat, b: nat, i: nat)
    requires i < w
    ensures Bit(Bitwise(w, f, a, b), i) == f(Bit(a, i), Bit(b, i))
  {
    if i > 0 { BitwiseBit(w - 1, f, a / 2, b / 2, i - 1); }
  }

  lemma Halve(a: nat, p: nat)
    requires p > 0
    ensures a / (2 * p) == a / 2 / p
  {
    var q, r := a / (2 * p), a % (2 * p);
    assert a / 2 == q * p + r / 2;
    Quotient(a / 2, p, q, r / 2);
  }

  lemma Quotient(a: int, p: nat, q: int, r: nat)
    requires p > 0 && a == q * p + r && r < p
    ensures a / p == q && a % p == r
  {
    var d := a / p - q;
    assert d * p == r - a % p;
    assert d >= 1 ==> d * p >= p;
    assert d <= -1 ==> d * p <= -1 * p;
  }

  lemma {:induction false} ShrBit(a: nat, n: nat, i: nat)
    ensures Bit(Shr(a, n), i) == Bit(a, i + n)
    decreases n
  {
    if n > 0 {
      Halve(a, Pow2(n - 1));
      ShrBit(a / 2, n - 1, i);
    }
  }

  lemma {:induction false} CutBit(w: nat, a: nat, i: nat)
    requires i < w
    ensures Bit(Cut(w, a), i) == Bit(a, i)
  {
    hide Cut;
    HalveCut(w, a);
    if i > 0 {
      CutBit(w - 1, a / 2, i - 1);
      assert Cut(w, a) / 2 == Cut(w - 1, a / 2);
    }
  }

  lemma HalveCut(w: nat, a: nat)
    requires w > 0
    ensures Cut(w, a) == 2 * Cut(w - 1, a / 2) + a % 2
  {
    var p := Pow2(w - 1);
    var q, r := a / 2 / p, a / 2 % p;
    assert a == q * (2 * p) + (2 * r + a % 2);
    Quotient(a, 2 * p, q, 2 * r + a % 2);
  }

  lemma {:induction false} TimesBit(a: nat, n: nat, i: nat)
    ensures Bit(a * Pow2(n), i) == (i >= n && Bit(a, i - n))
    decreases n
  {
    if n > 0 {
      assert a * Pow2(n) == 2 * (a * Pow2(n - 1));
      if i > 0 { TimesBit(a, n - 1, i - 1); }
    }
  }

  lemma ShlBit(w: nat, a: nat, n: nat, i: nat)
    requires i < w
    ensures Bit(Shl(w, a, n), i) == (i >= n && Bit(a, i - n))
  {
    CutBit(w, a * Pow2(n), i);
    TimesBit(a, n, i);
  }

  /** All ones below position n. */
  lemma {:induction false} OnesBit(n: nat, i: nat)
    ensures Bit(Pow2(n) - 1, i) == (i < n)
    decreases n
  {
    if n == 0 {
      ZeroBit(i);
    } else {
      assert (Pow2(n) - 1) / 2 == Pow2(n - 1) - 1;
      if i > 0 { OnesBit(n - 1, i - 1); }
    }
  }

  lemma {:induction false} ZeroBit(i: nat)
    ensures !Bit(0, i)
  {
    if i > 0 { ZeroBit(i - 1); }
  }

  lemma {:induction false} Pow2Rises(m: nat, n: nat)
    requires m <= n
    ensures Pow2(m) <= Pow2(n) && Pow2(n) == Pow2(m) * Pow2(n - m)
    decreases n - m
  {
    if m < n {
      Pow2Rises(m, n - 1);
      assert Pow2(n) == 2 * (Pow2(m) * Pow2(n - 1 - m)) == Pow2(m) * (2 * Pow2(n - 1 - m));
    }
  }

  // --- compares and shifts ------------------------------------------------------------

  function Slt(w: nat, a: nat, b: nat): bool
    requires w > 0
  {
    Xor(w, a, Pow2(w - 1)) < Xor(w, b, Pow2(w - 1))
  }

  function Sra(w: nat, a: nat, sh: nat): (r: nat)
    requires w > 0
    ensures r < Pow2(w)
  {
    var msk := Shr(And(w, a, Pow2(w - 1)), sh);
    Cut(w, Xor(w, Shr(a, sh), msk) - msk)
  }

  function Rotr(w: nat, a: nat, sh: nat): nat
    requires sh < w
  {
    Or(w, Shr(a, sh), Shl(w, a, if sh == 0 then 0 else w - sh))
  }

  /** Flipping the top set bit of a value takes it away, and a clear one adds it. */
  lemma {:induction false} XorTop(w: nat, v: nat, k: nat)
    requires k < w && v < Pow2(k + 1)
    ensures Xor(w, v, Pow2(k)) == if v >= Pow2(k) then v - Pow2(k) else v + Pow2(k)
    decreases k
  {
    if k == 0 {
      assert Pow2(1) == 2 && Pow2(0) == 1;
      assert v / 2 == 0 && Pow2(0) / 2 == 0;
      XorZero(w - 1, 0);
    } else {
      assert Pow2(k) % 2 == 0 && Pow2(k) / 2 == Pow2(k - 1);
      XorTop(w - 1, v / 2, k - 1);
    }
  }

  lemma {:induction false} XorZero(w: nat, v: nat)
    requires v < Pow2(w)
    ensures Xor(w, v, 0) == v
  {
    if w > 0 { XorZero(w - 1, v / 2); }
  }

  lemma {:induction false} AndTop(w: nat, v: nat)
    requires w > 0 && v < Pow2(w)
    ensures And(w, v, Pow2(w - 1)) == if v >= Pow2(w - 1) then Pow2(w - 1) else 0
  {
    if w > 1 {
      assert Pow2(w - 1) % 2 == 0 && Pow2(w - 1) / 2 == Pow2(w - 2);
      AndTop(w - 1, v / 2);
    }
  }

  /** Flipping the sign bit turns signed order into unsigned order. */
  lemma SltIsSignedOrder(w: nat, a: nat, b: nat)
    requires w > 0 && a < Pow2(w) && b < Pow2(w)
    ensures Slt(w, a, b) <==> Signed(w, a) < Signed(w, b)
  {
    XorTop(w, a, w - 1);
    XorTop(w, b, w - 1);
  }

  /** Xor-subtract of the shifted sign bit is the arithmetic shift: division rounding down. */
  lemma SraIsFloorDivision(w: nat, a: nat, sh: nat)
    requires w > 0 && a < Pow2(w) && sh < w
    ensures Signed(w, Sra(w, a, sh)) == Signed(w, a) / Pow2(sh)
  {
    hide Xor, And, Pow2, Cut, Signed, Quo;
    var p, top, q := Pow2(sh), Pow2(w - 1 - sh), Shr(a, sh);
    ShiftedTop(w, sh);
    AndTop(w, a);
    SignedReads(w, a);
    QuotientBounds(a, p, top, Pow2(w - 1));
    if a >= Pow2(w - 1) {
      XorTop(w, q, w - 1 - sh);
      SraHigh(w, q, top);
    } else {
      assert Shr(0, sh) == 0 by { ZeroQuotient(p); }
      XorZero(w, q);
      SraLow(w, q);
    }
  }

  lemma ZeroQuotient(p: nat)
    requires p > 0
    ensures Quo(0, p) == 0
  {
    Quotient(0, p, 0, 0);
  }

  /** Where a shifted value falls against the shifted sign bit, and the floor it stands for. */
  lemma QuotientBounds(a: nat, p: nat, top: nat, h: nat)
    requires p > 0 && h == p * top && a < 2 * h
    ensures Quo(a, p) < 2 * top && (a >= h ==> Quo(a, p) >= top) && (a < h ==> Quo(a, p) < top)
    ensures a / p == Quo(a, p) && (a - 2 * h) / p == Quo(a, p) - 2 * top
  {
    QuotientSplit(a, p, top);
    SplitBelow(a, p, top);
  }

  lemma SignedReads(w: nat, a: nat)
    requires w > 0
    ensures Pow2(w) == 2 * Pow2(w - 1) && Signed(w, a) == if a >= Pow2(w - 1) then a - Pow2(w) else a
  {
  }

  lemma ShiftedTop(w: nat, sh: nat)
    requires w > 0 && sh < w
    ensures Pow2(w) == 2 * Pow2(w - 1) && Pow2(w - 1) == Pow2(sh) * Pow2(w - 1 - sh)
    ensures Pow2(w - 1 - sh) <= Pow2(w - 1) && Pow2(w - sh) == 2 * Pow2(w - 1 - sh)
    ensures Shr(Pow2(w - 1), sh) == Pow2(w - 1 - sh)
  {
    Pow2Rises(sh, w - 1);
    Pow2Rises(w - 1 - sh, w - 1);
    Quotient(Pow2(w - 1), Pow2(sh), Pow2(w - 1 - sh), 0);
  }

  lemma SraLow(w: nat, q: nat)
    requires w > 0 && q < Pow2(w - 1)
    ensures Signed(w, Cut(w, q)) == q
  {
    Quotient(q, Pow2(w), 0, q);
  }

  lemma QuotientSplit(a: nat, p: nat, top: nat)
    requires p > 0
    ensures a < 2 * (p * top) ==> a / p < 2 * top
    ensures a >= p * top ==> a / p >= top
    ensures a < p * top ==> a / p < top
  {
    var q, r := a / p, a % p;
    assert q >= 2 * top ==> q * p >= (2 * top) * p;
    assert q >= top ==> q * p >= top * p;
    assert q + 1 <= top ==> (q + 1) * p <= top * p;
  }

  lemma SraHigh(w: nat, q: nat, top: nat)
    requires w > 0 && top <= q < 2 * top && top <= Pow2(w - 1)
    ensures Signed(w, Cut(w, q - top - top)) == q - 2 * top
  {
    Quotient(q - 2 * top, Pow2(w), -1, q - 2 * top + Pow2(w));
  }

  lemma SplitBelow(a: nat, p: nat, top: nat)
    requires p > 0
    ensures (a - 2 * (p * top)) / p == a / p - 2 * top
  {
    var q, r := a / p, a % p;
    assert (q - 2 * top) * p == q * p - 2 * (p * top);
    Quotient(a - 2 * (p * top), p, q - 2 * top, r);
  }

  /** A rotate moves every bit down by `sh`, round the register. */
  lemma RotrBit(w: nat, a: nat, sh: nat, i: nat)
    requires sh < w && i < w && a < Pow2(w)
    ensures Bit(Rotr(w, a, sh), i) == Bit(a, if i + sh < w then i + sh else i + sh - w)
  {
    var up := if sh == 0 then 0 else w - sh;
    BitwiseBit(w, (x, y) => x || y, Shr(a, sh), Shl(w, a, up), i);
    ShrBit(a, sh, i);
    ShlBit(w, a, up, i);
    if i + sh >= w { HighBit(w, a, i + sh); }
  }

  lemma {:induction false} HighBit(w: nat, a: nat, i: nat)
    requires a < Pow2(w) && i >= w
    ensures !Bit(a, i)
    decreases w
  {
    if w == 0 { ZeroBit(i); } else { HighBit(w - 1, a / 2, i - 1); }
  }

  // --- bit fields ---------------------------------------------------------------------

  /** `2 << msb`, less one, in w bits: ones up to and including msb, all of them when the
      shift runs off the top. */
  function FieldMask(w: nat, msb: nat): nat
  {
    Cut(w, Shl(w, 2, msb) - 1)
  }

  function Ext(w: nat, a: nat, pos: nat, msbd: nat): nat
  {
    And(w, Shr(a, pos), FieldMask(w, msbd))
  }

  function InsMask(w: nat, lsb: nat, msb: nat): nat
  {
    And(w, FieldMask(w, msb), Not(w, Cut(w, Shl(w, 1, lsb) - 1)))
  }

  function Ins(w: nat, a: nat, b: nat, lsb: nat, msb: nat): nat
  {
    Or(w, And(w, b, Not(w, InsMask(w, lsb, msb))), And(w, Shl(w, a, lsb), InsMask(w, lsb, msb)))
  }

  lemma ShiftedOne(w: nat, n: nat)
    requires n <= w
    ensures Cut(w, Shl(w, 1, n) - 1) == Pow2(n) - 1
  {
    Pow2Rises(n, w);
    if n < w {
      Pow2Rises(n + 1, w);
      Quotient(Pow2(n), Pow2(w), 0, Pow2(n));
      Quotient(Pow2(n) - 1, Pow2(w), 0, Pow2(n) - 1);
    } else {
      Quotient(Pow2(n), Pow2(w), 1, 0);
      Quotient(-1, Pow2(w), -1, Pow2(w) - 1);
    }
  }

  lemma FieldMaskBit(w: nat, msb: nat, i: nat)
    requires msb < w
    ensures Bit(FieldMask(w, msb), i) == (i <= msb)
  {
    assert 2 * Pow2(msb) == 1 * Pow2(msb + 1);
    assert Shl(w, 2, msb) == Shl(w, 1, msb + 1);
    ShiftedOne(w, msb + 1);
    OnesBit(msb + 1, i);
  }

  /** An extract is the field, at the bottom, with zeros above. */
  lemma ExtBit(w: nat, a: nat, pos: nat, msbd: nat, i: nat)
    requires msbd < w && i < w
    ensures Bit(Ext(w, a, pos, msbd), i) == (i <= msbd && Bit(a, i + pos))
  {
    BitwiseBit(w, (x, y) => x && y, Shr(a, pos), FieldMask(w, msbd), i);
    ShrBit(a, pos, i);
    FieldMaskBit(w, msbd, i);
  }

  lemma InsMaskBit(w: nat, lsb: nat, msb: nat, i: nat)
    requires lsb < w && msb < w && i < w
    ensures Bit(InsMask(w, lsb, msb), i) == (lsb <= i <= msb)
  {
    var low := Cut(w, Shl(w, 1, lsb) - 1);
    BitwiseBit(w, (x, y) => x && y, FieldMask(w, msb), Not(w, low), i);
    FieldMaskBit(w, msb, i);
    BitwiseBit(w, (x, y) => !x, low, 0, i);
    ShiftedOne(w, lsb);
    OnesBit(lsb, i);
  }

  /** An insert takes the field from `a` and every other bit from `b`. */
  lemma InsBit(w: nat, a: nat, b: nat, lsb: nat, msb: nat, i: nat)
    requires lsb < w && msb < w && i < w
    ensures Bit(Ins(w, a, b, lsb, msb), i) == if lsb <= i <= msb then Bit(a, i - lsb) else Bit(b, i)
  {
    var mask := InsMask(w, lsb, msb);
    BitwiseBit(w, (x, y) => x || y, And(w, b, Not(w, mask)), And(w, Shl(w, a, lsb), mask), i);
    BitwiseBit(w, (x, y) => x && y, b, Not(w, mask), i);
    BitwiseBit(w, (x, y) => x && y, Shl(w, a, lsb), mask, i);
    BitwiseBit(w, (x, y) => !x, mask, 0, i);
    InsMaskBit(w, lsb, msb, i);
    ShlBit(w, a, lsb, i);
  }

  // --- counting leading bits ------------------------------------------------------------

  /** How many of the top bits of the low w are `bit`, before one that is not. */
  function Leading(w: nat, a: nat, bit: bool): (n: nat)
    ensures n <= w
    ensures forall i | w - n <= i < w :: Bit(a, i) == bit
    ensures n < w ==> Bit(a, w - 1 - n) != bit
  {
    if w == 0 || Bit(a, w - 1) != bit then 0 else Leading(w - 1, a, bit) + 1
  }

  /** The mux chain: position by position, the highest bit muxed in last wins. */
  method CountLeading(w: nat, a: nat) returns (clz: nat, clo: nat)
    ensures clz == Leading(w, a, false) && clo == Leading(w, a, true)
  {
    clz, clo := w, w;
    for i := 0 to w
      invariant clz == w - i + Leading(i, a, false)
      invariant clo == w - i + Leading(i, a, true)
    {
      clz := if Bit(a, i) then w - 1 - i else clz;
      clo := if !Bit(a, i) then w - 1 - i else clo;
    }
  }

  // --- multiply -------------------------------------------------------------------------

  /** An operand as 2w bits, a signed one with its sign filling the top half. */
  function Widen(w: nat, v: nat, signed: bool): nat
    requires w > 0
  {
    var fill := if signed && v >= Pow2(w - 1) then Pow2(w) - 1 else 0;
    Or(2 * w, v, Shl(2 * w, fill, w))
  }

  /** The top half of the 2w-bit product. */
  function MulHigh(w: nat, a: nat, aSigned: bool, b: nat, bSigned: bool): nat
    requires w > 0
  {
    Shr(Cut(2 * w, Widen(w, a, aSigned) * Widen(w, b, bSigned)), w)
  }

  function Reading(w: nat, v: nat, signed: bool): int
    requires w > 0
  {
    if signed then Signed(w, v) else v
  }

  lemma {:induction false} OrApart(n: nat, w: nat, v: nat, f: nat)
    requires n <= w && v < Pow2(n) && f < Pow2(w - n)
    ensures Or(w, v, f * Pow2(n)) == v + f * Pow2(n)
    decreases n
  {
    if n == 0 {
      OrZero(w, f);
    } else {
      assert f * Pow2(n) == 2 * (f * Pow2(n - 1));
      OrApart(n - 1, w - 1, v / 2, f);
    }
  }

  lemma {:induction false} OrZero(w: nat, f: nat)
    requires f < Pow2(w)
    ensures Or(w, 0, f) == f
  {
    if w > 0 { OrZero(w - 1, f / 2); }
  }

  /** Widening keeps the reading, modulo the wider width. */
  lemma WidenReads(w: nat, v: nat, signed: bool)
    requires w > 0 && v < Pow2(w)
    ensures Widen(w, v, signed) == Reading(w, v, signed) || Widen(w, v, signed) == Reading(w, v, signed) + Pow2(w) * Pow2(w)
  {
    hide Or, Pow2, Shl, Signed;
    var m := Pow2(w);
    var fill := if signed && v >= Pow2(w - 1) then m - 1 else 0;
    FillFits(m, fill);
    FillShifted(w, fill);
    SignedReads(w, v);
    OrApart(w, 2 * w, v, fill);
  }

  lemma FillShifted(w: nat, fill: nat)
    requires fill == 0 || fill == Pow2(w) - 1
    ensures Shl(2 * w, fill, w) == fill * Pow2(w)
  {
    hide Pow2;
    Pow2Rises(w, 2 * w);
    FillFits(Pow2(w), fill);
  }

  lemma FillFits(m: nat, fill: nat)
    requires m > 0 && (fill == 0 || fill == m - 1)
    ensures m * m > 0 && (fill * m) % (m * m) == fill * m && (fill > 0 ==> fill * m == m * m - m)
  {
    assert (m - 1) * m == m * m - m;
    Quotient(fill * m, m * m, 0, fill * m);
  }

  /** The high word of a widened product is the high word of the exact product. */
  lemma MulHighIsExact(w: nat, a: nat, aSigned: bool, b: nat, bSigned: bool)
    requires w > 0 && a < Pow2(w) && b < Pow2(w)
    ensures var x, y: int := if aSigned then Signed(w, a) else a, if bSigned then Signed(w, b) else b;
            MulHigh(w, a, aSigned, b, bSigned) == Cut(w, (x * y) / Pow2(w))
  {
    var m, x, y := Pow2(w), Reading(w, a, aSigned), Reading(w, b, bSigned);
    Pow2Rises(w, 2 * w);
    WidenReads(w, a, aSigned);
    WidenReads(w, b, bSigned);
    var wide := Widen(w, a, aSigned) * Widen(w, b, bSigned);
    var laps := WideProduct(x, y, Widen(w, a, aSigned), Widen(w, b, bSigned), m * m);
    TopHalf(x * y, wide, laps, m);
  }

  lemma WideProduct(x: int, y: int, a: int, b: int, n: int) returns (laps: int)
    requires (a == x || a == x + n) && (b == y || b == y + n)
    ensures a * b == x * y + laps * n
  {
    var i, j := if a == x then 0 else 1, if b == y then 0 else 1;
    laps := x * j + i * y + i * j * n;
    assert a == x + i * n && b == y + j * n;
    assert (x + i * n) * (y + j * n) == x * y + x * (j * n) + (i * n) * y + (i * n) * (j * n);
    assert x * (j * n) == (x * j) * n && (i * n) * y == (i * y) * n && (i * n) * (j * n) == (i * j * n) * n;
    assert laps * n == (x * j) * n + (i * y) * n + (i * j * n) * n;
  }

  /** Bits w and up of two numbers a whole double width apart agree, w bits of them. */
  lemma TopHalf(exact: int, wide: int, laps: int, m: nat)
    requires m > 0 && wide == exact + laps * (m * m)
    ensures m * m > 0 && (wide % (m * m)) / m == (exact / m) % m
  {
    var h, l := exact / m, exact % m;
    var q, r := h / m, h % m;
    assert m * m >= m;
    SquareRow(m, r, l);
    assert wide == (q + laps) * (m * m) + (r * m + l) by {
      assert h * m == (q * m + r) * m == q * (m * m) + r * m;
      assert (q + laps) * (m * m) == q * (m * m) + laps * (m * m);
    }
    Quotient(wide, m * m, q + laps, r * m + l);
    Quotient(r * m + l, m, r, l);
  }

  lemma SquareRow(m: nat, r: nat, l: nat)
    requires r < m && l < m
    ensures r * m + l < m * m
  {
    assert r * m <= (m - 1) * m == m * m - m;
  }

  /** The low word is the same for every pair of readings. */
  lemma MulLow(w: nat, a: nat, aSigned: bool, b: nat, bSigned: bool)
    requires w > 0 && a < Pow2(w) && b < Pow2(w)
    ensures var x, y: int := if aSigned then Signed(w, a) else a, if bSigned then Signed(w, b) else b;
            Cut(w, a * b) == Cut(w, x * y)
  {
    hide Pow2, Signed;
    SignedReads(w, a);
    SignedReads(w, b);
    var m, x, y := Pow2(w), Reading(w, a, aSigned), Reading(w, b, bSigned);
    var laps := WideProduct(x, y, a, b, m);
    LapsOff(x * y, laps, m);
  }

  lemma LapsOff(exact: int, laps: int, m: nat)
    requires m > 0
    ensures (exact + laps * m) % m == exact % m
  {
    assert exact == (exact / m) * m + exact % m;
    Quotient(exact + laps * m, m, exact / m + laps, exact % m);
  }

  // --- divide ---------------------------------------------------------------------------

  function Negate(w: nat, v: nat): (r: nat)
    ensures r < Pow2(w)
  {
    Cut(w, 0 - v)
  }

  function Magnitude(w: nat, v: nat): nat
    requires w > 0
  {
    if v >= Pow2(w - 1) then Negate(w, v) else v
  }

  function Div(w: nat, a: nat, b: nat): nat
    requires w > 0 && b < Pow2(w)
  {
    if b == 0 then Pow2(w) - 1
    else
      MagnitudeIs(w, b);
      var q := Quo(Magnitude(w, a), Magnitude(w, b));
      if (a >= Pow2(w - 1)) != (b >= Pow2(w - 1)) then Negate(w, q) else q
  }

  function Rem(w: nat, a: nat, b: nat): nat
    requires w > 0 && b < Pow2(w)
  {
    if b == 0 then a
    else
      MagnitudeIs(w, b);
      var r := Magnitude(w, a) % Magnitude(w, b);
      if a >= Pow2(w - 1) then Negate(w, r) else r
  }

  function DivU(w: nat, a: nat, b: nat): nat { if b == 0 then Pow2(w) - 1 else a / b }

  function RemU(w: nat, a: nat, b: nat): nat { if b == 0 then a else a % b }

  function Abs(x: int): nat { if x < 0 then -x else x }

  lemma NegateIs(w: nat, v: nat)
    requires v < Pow2(w)
    ensures Negate(w, v) == if v == 0 then 0 else Pow2(w) - v
  {
    hide Pow2;
    var m := Pow2(w);
    if v == 0 { Quotient(0, m, 0, 0); } else { Quotient(0 - v, m, -1, m - v); }
  }

  lemma MagnitudeIs(w: nat, v: nat)
    requires w > 0 && v < Pow2(w)
    ensures Magnitude(w, v) == Abs(Signed(w, v)) <= Pow2(w - 1) && (Magnitude(w, v) == 0 <==> v == 0)
  {
    hide Cut, Negate;
    NegateIs(w, v);
  }

  /** Division truncates toward zero and the remainder takes the dividend's sign; the one
      quotient that does not fit wraps back to the dividend, with nothing left over; a zero
      divisor gives all ones and the dividend. */
  lemma DivIsTruncated(w: nat, a: nat, b: nat)
    requires w > 0 && a < Pow2(w) && b < Pow2(w)
    ensures var x, y, q, r := Signed(w, a), Signed(w, b), Signed(w, Div(w, a, b)), Signed(w, Rem(w, a, b));
            if y == 0 then q == -1 && r == x
            else if x == 0 - Pow2(w - 1) && y == -1 then q == x && r == 0
            else x == q * y + r && Abs(r) < Abs(y) && (r == 0 || (r < 0 <==> x < 0))
  {
    if b == 0 { SignedIs(w, b); } else { DivByNonzero(w, a, b); }
  }

  lemma DivByNonzero(w: nat, a: nat, b: nat)
    requires w > 0 && a < Pow2(w) && 0 < b < Pow2(w)
    ensures var x, y, q, r := Signed(w, a), Signed(w, b), Signed(w, Div(w, a, b)), Signed(w, Rem(w, a, b));
            if x == 0 - Pow2(w - 1) && y == -1 then q == x && r == 0
            else y != 0 && x == q * y + r && Abs(r) < Abs(y) && (r == 0 || (r < 0 <==> x < 0))
  {
    hide Pow2, Magnitude, Negate, Cut, Signed, Div, Rem;
    var x, y, h := Signed(w, a), Signed(w, b), Pow2(w - 1);
    MagnitudeIs(w, a);
    MagnitudeIs(w, b);
    SignedIs(w, a);
    SignedIs(w, b);
    var q, r := Abs(x) / Abs(y), Abs(x) % Abs(y);
    DivideMagnitudes(Abs(x), Abs(y), h);
    SignBack(w, q, (x < 0) != (y < 0));
    SignBack(w, r, x < 0);
    QuotientOf(w, a, b);
    PutSigns(x, y, q, r);
  }

  lemma SignedIs(w: nat, v: nat)
    requires w > 0 && v < Pow2(w)
    ensures Pow2(w) == 2 * Pow2(w - 1) && (Signed(w, v) < 0 <==> v >= Pow2(w - 1))
    ensures 0 - Pow2(w - 1) <= Signed(w, v) < Pow2(w - 1) && (Signed(w, v) == 0 <==> v == 0)
  {
  }

  /** What the unit computes, by magnitude and sign. */
  lemma QuotientOf(w: nat, a: nat, b: nat)
    requires w > 0 && a < Pow2(w) && 0 < b < Pow2(w) && Abs(Signed(w, b)) > 0
    ensures var x, y := Signed(w, a), Signed(w, b);
            && Div(w, a, b) == Resigned(w, Abs(x) / Abs(y), (x < 0) != (y < 0))
            && Rem(w, a, b) == Resigned(w, Abs(x) % Abs(y), x < 0)
  {
    hide Pow2, Magnitude, Negate, Cut, Signed;
    MagnitudeIs(w, a);
    MagnitudeIs(w, b);
    SignedIs(w, a);
    SignedIs(w, b);
  }

  function Resigned(w: nat, v: nat, negative: bool): nat
  {
    if negative then Negate(w, v) else v
  }

  /** A magnitude that fits reads back with its sign; the largest one reads negative. */
  lemma SignBack(w: nat, v: nat, negative: bool)
    requires w > 0 && v <= Pow2(w - 1)
    ensures Signed(w, Resigned(w, v, negative)) == if negative || v == Pow2(w - 1) then 0 - v else v
  {
    hide Negate, Cut;
    NegateIs(w, v);
  }

  lemma DivideMagnitudes(x: nat, y: nat, h: nat)
    requires y > 0 && x <= h && y <= h && h > 0
    ensures x == (x / y) * y + x % y && x / y <= h && x % y < h && x % y < y
    ensures x / y == h ==> x == h && y == 1
  {
    QuotientFits(x, y, x / y, x % y);
  }

  lemma QuotientFits(x: nat, y: nat, q: int, r: nat)
    requires y > 0 && x == q * y + r && r < y
    ensures 0 <= q <= x && (q == x > 0 ==> y == 1)
  {
    assert q <= -1 ==> q * y <= -1 * y;
    assert q >= 0 ==> q * y >= q * 1;
    assert q >= 1 && y >= 2 ==> q * y >= q * 2;
  }

  lemma PutSigns(x: int, y: int, q: nat, r: nat)
    requires y != 0 && Abs(x) == q * Abs(y) + r
    ensures var s, t := (if (x < 0) != (y < 0) then 0 - q else q), if x < 0 then 0 - r else r; x == s * y + t
  {
    assert (0 - q) * y == 0 - q * y && q * (0 - y) == 0 - q * y;
  }

  /** The unsigned pair, zero divisor included. */
  lemma DivUIsQuotient(w: nat, a: nat, b: nat)
    requires a < Pow2(w) && b < Pow2(w)
    ensures DivU(w, a, b) < Pow2(w) && RemU(w, a, b) < Pow2(w)
    ensures if b == 0 then DivU(w, a, b) == Pow2(w) - 1 && RemU(w, a, b) == a
            else a == DivU(w, a, b) * b + RemU(w, a, b) && RemU(w, a, b) < b
  {
    hide Pow2;
    if b > 0 { QuotientFits(a, b, a / b, a % b); }
  }
}
