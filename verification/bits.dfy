/**
 * Python integer bit operations and list slicing, written out over Dafny's
 * unbounded `int`.
 *
 * Python's `x >> k` is floor division by 2^k and `x & (2^k - 1)` is the
 * non-negative remainder modulo 2^k, for negative `x` as well. Dafny's `/` and
 * `%` on `int` are Euclidean, which coincides with floor division when the
 * divisor is positive, so `ShiftRight` and `LowBits` are exact for every int.
 * Python's `|` works on two's complement; `BitOr` spells it out bit by bit.
 */
module Bits {

  /** A value that fits in one unsigned byte. */
  predicate IsByte(x: int) { 0 <= x < 256 }

  predicate IsBytes(s: seq<int>) { forall i :: 0 <= i < |s| ==> IsByte(s[i]) }

  function Pow2(k: nat): (r: nat)
    ensures r >= 1
  {
    if k == 0 then 1 else 2 * Pow2(k - 1)
  }

  lemma {:induction false} Pow2Add(m: nat, n: nat)
    ensures Pow2(m + n) == Pow2(m) * Pow2(n)
  {
    if n > 0 {
      Pow2Add(m, n - 1);
    }
  }

  /** Python `x >> k`. */
  function ShiftRight(x: int, k: nat): int { x / Pow2(k) }

  /** Python `x << k`. */
  function ShiftLeft(x: int, k: nat): int { x * Pow2(k) }

  /** Python `x & (2^k - 1)`. */
  function LowBits(x: int, k: nat): (r: int)
    ensures 0 <= r < Pow2(k)
  {
    x % Pow2(k)
  }

  /** Python `x & 0xFF`. */
  function LowByte(x: int): (r: int)
    ensures IsByte(r)
  {
    x % 256
  }

  /** Python `(x >> k) & 1`, as 0 or 1. */
  function BitAt(x: int, k: nat): (r: int)
    ensures r == 0 || r == 1
  {
    (x / Pow2(k)) % 2
  }

  function Abs(x: int): nat { if x < 0 then -x else x }

  /**
   * Python `a | b` on two's-complement integers: the low bit is the or of the
   * low bits, and the rest is the or of `a >> 1` and `b >> 1`. Zero and -1
   * are the fixed points of `>> 1`, so they end the recursion.
   */
  function BitOr(a: int, b: int): int
    decreases Abs(a) + Abs(b)
  {
    if a == 0 then b
    else if b == 0 then a
    else if a == -1 || b == -1 then -1
    else 2 * BitOr(a / 2, b / 2) + (if a % 2 == 1 || b % 2 == 1 then 1 else 0)
  }

  /**
   * Or-ing a value below 2^k into a number shifted left by k bits is plain
   * addition: the two occupy disjoint bit ranges.
   */
  lemma {:induction false} OrOfDisjoint(a: int, b: int, k: nat)
    ensures 0 <= b < Pow2(k) ==> BitOr(ShiftLeft(a, k), b) == ShiftLeft(a, k) + b
  {
    if !(0 <= b < Pow2(k)) {
    } else if k == 0 {
      assert b == 0;
    } else if a == 0 || b == 0 {
    } else {
      var h := ShiftLeft(a, k - 1);
      assert ShiftLeft(a, k) == 2 * h;
      assert (2 * h) / 2 == h && (2 * h) % 2 == 0;
      OrOfDisjoint(a, b / 2, k - 1);
    }
  }

  /** A byte is its high nibble shifted back over its low nibble. */
  lemma {:induction false} NibbleSplit(x: int)
    ensures BitOr(ShiftLeft(x / 16, 4), x % 16) == x
    ensures ShiftRight(x, 4) == x / 16 && LowBits(x, 4) == x % 16
  {
    assert Pow2(4) == 16;
    OrOfDisjoint(x / 16, x % 16, 4);
  }

  /** The packed byte `hi << k | lo` gives back both parts. */
  lemma {:induction false} SplitOfDisjoint(hi: int, lo: int, k: nat)
    requires 0 <= lo < Pow2(k)
    ensures ShiftRight(BitOr(ShiftLeft(hi, k), lo), k) == hi
    ensures LowBits(BitOr(ShiftLeft(hi, k), lo), k) == lo
  {
    OrOfDisjoint(hi, lo, k);
    var p := Pow2(k);
    assert (hi * p + lo) / p == hi && (hi * p + lo) % p == lo by {
      DivModUnique(hi * p + lo, p, hi, lo);
    }
  }

  /** Euclidean division has a unique quotient and remainder. */
  lemma {:induction false} DivModUnique(x: int, d: int, q: int, r: int)
    requires d > 0 && 0 <= r < d && x == q * d + r
    ensures x / d == q && x % d == r
  {
    var k := q - x / d;
    MulSign(k, d);
    assert k * d == x % d - r;
  }

  /** A non-zero multiple of a positive number is at least that number away from zero. */
  lemma {:induction false} MulSign(k: int, d: int)
    requires d > 0
    ensures k >= 1 ==> k * d >= d
    ensures k <= -1 ==> k * d <= -d
  {
  }

  lemma {:induction false} MulMono(a: int, b: int, d: int)
    requires a <= b && d > 0
    ensures a * d <= b * d
  {
  }

  /** Python `[0] * n`. */
  function Zeros(n: nat): (r: seq<int>)
    ensures |r| == n
    ensures forall i :: 0 <= i < n ==> r[i] == 0
  {
    seq(n, _ => 0)
  }

  function Min(a: int, b: int): int { if a <= b then a else b }

  /** Python `s[lo:hi]` for non-negative bounds: both ends are clamped. */
  function Slice<T>(s: seq<T>, lo: nat, hi: nat): (r: seq<T>)
    ensures |r| == if Min(hi, |s|) >= Min(lo, |s|) then Min(hi, |s|) - Min(lo, |s|) else 0
    ensures lo <= hi <= |s| ==> r == s[lo..hi]
  {
    var a := Min(lo, |s|);
    var b := Min(hi, |s|);
    if a <= b then s[a..b] else []
  }

  /** Python `s[lo:]` for a non-negative bound. */
  function Drop<T>(s: seq<T>, lo: nat): (r: seq<T>)
    ensures lo <= |s| ==> r == s[lo..]
    ensures lo > |s| ==> r == []
  {
    if lo <= |s| then s[lo..] else []
  }

  /** Python `s + [0] * (n - len(s))`: zero padding that never truncates. */
  function PadTo(s: seq<int>, n: nat): (r: seq<int>)
    ensures |r| == if |s| >= n then |s| else n
    ensures r[..|s|] == s
    ensures forall i :: |s| <= i < |r| ==> r[i] == 0
  {
    if |s| >= n then s else s + Zeros(n - |s|)
  }
}
