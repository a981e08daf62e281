/**
 Circular tables and one-hot masks.

 A hardware pointer into a table of `size` rows is a running count taken modulo
 `size`: the register is exactly wide enough, so the modulo is its wrap.
 A bit mask is the set of the positions of its 1 bits, so `&` is `*`, `|` is `+`,
 `& ~` is `-`, and a one-hot value is a singleton.
 */
module Rings {

  type Mask = set<nat>

  /** `k` modulo `size`, by repeated subtraction: the value a register of that size holds. */
  function Wrap(k: nat, size: nat): (r: nat)
    requires size > 0
    ensures r < size
    decreases k
  {
    if k < size then k else Wrap(k - size, size)
  }

  /** It is the remainder: under `size`, and a whole number of laps away from `k`. */
  lemma {:induction false} WrapIsRemainder(k: nat, size: nat) returns (laps: nat)
    requires size > 0
    ensures k == laps * size + Wrap(k, size) && Wrap(k, size) < size
    decreases k
  {
    if k < size {
      laps := 0;
      assert laps * size == 0;
    } else {
      var fewer := WrapIsRemainder(k - size, size);
      laps := fewer + 1;
      assert laps * size == fewer * size + size;
    }
  }

  /** Stepping a wrapped pointer is wrapping the stepped count. */
  lemma {:induction false} WrapAdd(k: nat, d: nat, size: nat)
    requires size > 0
    ensures Wrap(Wrap(k, size) + d, size) == Wrap(k + d, size)
    decreases k
  {
    if k >= size { WrapAdd(k - size, d, size); }
  }

  /** Two counts less than a whole lap apart share a position only if they are equal. */
  lemma {:induction false} Apart(j: nat, k: nat, size: nat)
    requires size > 0 && Wrap(j, size) == Wrap(k, size)
    requires j < k + size && k < j + size
    ensures j == k
    decreases j + k
  {
    if j >= size && k >= size {
      Apart(j - size, k - size, size);
    }
  }

  /** The forward distance between two pointers less than a lap apart. */
  lemma {:induction false} Distance(lo: nat, hi: nat, size: nat)
    requires size > 0 && lo <= hi < lo + size
    ensures Wrap(Wrap(hi, size) + size - Wrap(lo, size), size) == hi - lo
    decreases lo
  {
    if lo >= size { Distance(lo - size, hi - size, size); }
  }

  /** Every position of a ring is the position of one of `size` consecutive counts. */
  lemma Cover(q: nat, lo: nat, size: nat) returns (k: nat)
    requires q < size
    ensures lo <= k < lo + size && Wrap(k, size) == q
  {
    var a := Wrap(lo, size);
    var d := if q >= a then q - a else q + size - a;
    k := lo + d;
    WrapAdd(lo, d, size);
  }

  /** Rotate a `width`-bit mask left by one place. */
  function RotateLeft(m: Mask, width: nat): Mask
    requires width > 0
  {
    set p | p in m :: Wrap(p + 1, width)
  }

  /** Rotate a `width`-bit mask right by one place. */
  function RotateRight(m: Mask, width: nat): Mask
    requires width > 0
  {
    set p | p in m :: Wrap(p + width - 1, width)
  }

  lemma RotateLeftAt(k: nat, width: nat)
    requires width > 0
    ensures RotateLeft({Wrap(k, width)}, width) == {Wrap(k + 1, width)}
  {
    WrapAdd(k, 1, width);
    assert Wrap(k, width) in {Wrap(k, width)};
  }

  lemma RotateRightAt(k: nat, width: nat)
    requires width > 0 && k > 0
    ensures RotateRight({Wrap(k, width)}, width) == {Wrap(k - 1, width)}
  {
    WrapAdd(k, width - 1, width);
    assert Wrap(k, width) in {Wrap(k, width)};
  }

  /** The ring positions of the counts `lo`, `lo + 1`, ..., `hi - 1`. */
  function Span(lo: nat, hi: nat, size: nat): Mask
    requires size > 0
  {
    set k | lo <= k < hi :: Wrap(k, size)
  }

  /** Membership in a span, for counts near it. */
  lemma InSpan(k: nat, lo: nat, hi: nat, size: nat)
    requires size > 0 && hi <= k + size && k < lo + size
    ensures Wrap(k, size) in Span(lo, hi, size) <==> lo <= k < hi
  {
    if Wrap(k, size) in Span(lo, hi, size) {
      var j :| lo <= j < hi && Wrap(j, size) == Wrap(k, size);
      Apart(j, k, size);
    }
  }

  /** How many bits are set. */
  function PopCount(bits: seq<bool>): (n: nat)
    ensures n <= |bits|
  {
    if bits == [] then 0 else PopCount(bits[..|bits| - 1]) + (if bits[|bits| - 1] then 1 else 0)
  }

  lemma {:induction false} PopCountSet(bits: seq<bool>, i: nat)
    requires i < |bits| && !bits[i]
    ensures PopCount(bits[i := true]) == PopCount(bits) + 1
    decreases |bits|
  {
    var last := |bits| - 1;
    if i == last {
      assert bits[i := true][..last] == bits[..last];
    } else {
      PopCountSet(bits[..last], i);
      assert bits[i := true][..last] == bits[..last][i := true];
    }
  }

  lemma {:induction false} PopCountNone(bits: seq<bool>)
    requires forall i | 0 <= i < |bits| :: !bits[i]
    ensures PopCount(bits) == 0
  {
    if bits != [] { PopCountNone(bits[..|bits| - 1]); }
  }

  /** The bits of a ring that are exactly one contiguous run count its length. */
  lemma {:induction false} PopCountRun(bits: seq<bool>, lo: nat, hi: nat)
    requires |bits| > 0 && lo <= hi <= lo + |bits|
    requires forall k | lo <= k < hi :: bits[Wrap(k, |bits|)]
    requires forall k | hi <= k < lo + |bits| :: !bits[Wrap(k, |bits|)]
    ensures PopCount(bits) == hi - lo
    decreases hi - lo
  {
    var size := |bits|;
    if lo == hi {
      forall i | 0 <= i < size ensures !bits[i] {
        var k := Cover(i, lo, size);
      }
      PopCountNone(bits);
    } else {
      var q := Wrap(hi - 1, size);
      var less := bits[q := false];
      forall k | lo <= k < lo + size && k != hi - 1 ensures Wrap(k, size) != q {
        if Wrap(k, size) == q { Apart(k, hi - 1, size); }
      }
      PopCountRun(less, lo, hi - 1);
      PopCountSet(less, q);
      assert less[q := true] == bits;
    }
  }

  lemma WrapLap(p: nat, width: nat)
    requires p < width
    ensures Wrap(p + width, width) == p
  {
  }

  lemma {:induction false} PopCountPrefix(bits: seq<bool>, n: nat)
    requires n <= |bits|
    ensures PopCount(bits[..n]) <= PopCount(bits)
    decreases |bits|
  {
    if n < |bits| {
      var last := |bits| - 1;
      assert bits[..last][..n] == bits[..n];
      PopCountPrefix(bits[..last], n);
    } else {
      assert bits[..n] == bits;
    }
  }

  lemma PopCountEmpty(bits: seq<bool>)
    requires bits == []
    ensures PopCount(bits) == 0
  {
  }

  lemma CountStep(bits: seq<bool>, i: nat)
    requires i < |bits|
    ensures PopCount(bits[..i + 1]) == PopCount(bits[..i]) + (if bits[i] then 1 else 0) && PopCount(bits[..i]) <= i
  {
    assert bits[..i + 1][..i] == bits[..i];
  }
}
