/**
 * The byte idioms the feature classes build payloads and read replies with:
 * `(v >> 8) & 0xFF` and `v & 0xFF`, `(hi << 8) | lo`, slice assignment
 * into a zero list, and `struct.pack('>H', v)` behind its range check.
 */
module Packing {
  import opened Wrappers
  import opened Bits
  import opened IntCodec

  lemma {:induction false} Pow2Eight()
    ensures Pow2(8) == 256
  {
  }

  /** `(v >> 8) & 0xFF`: the high byte of the low 16 bits, for any int. */
  function Msb(v: int): (r: int)
    ensures IsByte(r)
  {
    LowByte(ShiftRight(v, 8))
  }

  /** `v & 0xFF`. */
  function Lsb(v: int): (r: int)
    ensures IsByte(r)
  {
    LowByte(v)
  }

  /** `(hi << 8) | lo`: with a byte below, the big-endian 16-bit join. */
  function HiLo(hi: int, lo: int): (r: int)
    ensures IsByte(lo) ==> r == 256 * hi + lo
  {
    Pow2Eight();
    OrOfDisjoint(hi, lo, 8);
    BitOr(ShiftLeft(hi, 8), lo)
  }

  /** Splitting a value into two bytes and joining them keeps it modulo 2^16. */
  lemma {:induction false} HiLoSplit(v: int)
    ensures HiLo(Msb(v), Lsb(v)) == v % 0x1_0000
  {
    Pow2Eight();
    var a := v / 256;
    var b := v % 256;
    assert Msb(v) == a % 256 && Lsb(v) == b;
    var rest := 256 * (a % 256) + b;
    assert v == 0x1_0000 * (a / 256) + rest;
    DivModUnique(v, 0x1_0000, a / 256, rest);
  }

  /** Joining two bytes and splitting the result gives the bytes back. */
  lemma {:induction false} SplitHiLo(hi: int, lo: int)
    requires IsByte(hi) && IsByte(lo)
    ensures Msb(HiLo(hi, lo)) == hi && Lsb(HiLo(hi, lo)) == lo
  {
    Pow2Eight();
    DivModUnique(256 * hi + lo, 256, hi, lo);
  }

  /** The two bytes of a 16-bit value, most significant first. */
  function Be16(v: int): (r: seq<int>)
    ensures |r| == 2 && IsBytes(r)
    ensures InU16(v) ==> r == U16ToListBe(v)
  {
    Pow2Eight();
    [Msb(v), Lsb(v)]
  }

  /**
   * `s[lo:hi] = xs` on a list, with Python's clamping of both bounds. The
   * list grows or shrinks when `xs` is longer or shorter than the slice.
   */
  function SliceAssign(s: seq<int>, lo: nat, hi: nat, xs: seq<int>): (r: seq<int>)
    ensures var a := Min(lo, |s|);
      var b := if Min(hi, |s|) < a then a else Min(hi, |s|);
      && |r| == |s| - (b - a) + |xs|
      && r[..a] == s[..a]
      && r[a..a + |xs|] == xs
      && r[a + |xs|..] == s[b..]
  {
    var a := Min(lo, |s|);
    var b := if Min(hi, |s|) < a then a else Min(hi, |s|);
    s[..a] + xs + s[b..]
  }

  /** Assigning a slice exactly as long as the list of values keeps the length. */
  lemma {:induction false} SliceAssignInPlace(s: seq<int>, lo: nat, xs: seq<int>)
    requires lo + |xs| <= |s|
    ensures SliceAssign(s, lo, lo + |xs|, xs) == s[..lo] + xs + s[lo + |xs|..]
    ensures |SliceAssign(s, lo, lo + |xs|, xs)| == |s|
  {
    var r := SliceAssign(s, lo, lo + |xs|, xs);
    assert r == r[..lo] + r[lo..lo + |xs|] + r[lo + |xs|..];
  }

  /** `struct.pack('>H', v)`: raises struct.error outside 0..65535. */
  function PackU16Be(v: int): (r: Result<seq<int>>)
    ensures r.Ok? <==> InU16(v)
    ensures r.Raised? ==> r.exc == StructError
    ensures r.Ok? ==> r.value == Be16(v) && ListToU16Be(r.value) == v
  {
    if InU16(v) then Ok(U16ToListBe(v)) else Raised(StructError)
  }

  /** `struct.pack('>h', v)`: raises struct.error outside -32768..32767. */
  function PackI16Be(v: int): (r: Result<seq<int>>)
    ensures r.Ok? <==> InI16(v)
    ensures r.Raised? ==> r.exc == StructError
    ensures r.Ok? ==> |r.value| == 2 && IsBytes(r.value) && ListToI16Be(r.value) == v
  {
    if InI16(v) then I16RoundTrip(v); Ok(I16ToListBe(v)) else Raised(StructError)
  }

  /**
   * `struct.unpack('>h', bytes(s))[0]`: `bytes` raises ValueError for a
   * non-byte, then a list that is not two long raises struct.error.
   */
  function UnpackI16Be(s: seq<int>): (r: Result<int>)
    ensures r.Ok? <==> IsBytes(s) && |s| == 2
    ensures r.Raised? ==> r.exc == (if IsBytes(s) then StructError else ValueError)
    ensures r.Ok? ==> InI16(r.value) && I16ToListBe(r.value) == s
  {
    if !IsBytes(s) then Raised(ValueError)
    else if |s| != 2 then Raised(StructError)
    else Ok(ListToI16Be(s))
  }

  /** What is packed is unpacked. */
  lemma {:induction false} I16PackRoundTrip(v: int)
    requires InI16(v)
    ensures UnpackI16Be(PackI16Be(v).value) == Ok(v)
  {
  }

  /** The sixteen-zero list the sensor features start every payload from. */
  function Zeros16(): (r: seq<int>)
    ensures |r| == 16 && forall i :: 0 <= i < 16 ==> r[i] == 0
  {
    Zeros(16)
  }

  /** `s[i]` on a list: IndexError past the end. */
  function At(s: seq<int>, i: nat): (r: Result<int>)
    ensures r.Ok? <==> i < |s|
    ensures r.Ok? ==> r.value == s[i]
    ensures r.Raised? ==> r.exc == IndexError
  {
    if i < |s| then Ok(s[i]) else Raised(IndexError)
  }

  /** The big-endian pair at i, and 0 past the end; U16AtReadsSlice relates it to the source's slice read. */
  function U16At(s: seq<int>, i: nat): int
  {
    if |s| < i + 2 then 0 else 256 * s[i] + s[i + 1]
  }

  /** `list_to_u16_be(s[i:i+2])` is U16At: a slice shorter than two reads as 0. */
  lemma {:induction false} U16AtReadsSlice(s: seq<int>, i: nat)
    ensures ListToU16Be(Slice(s, i, i + 2)) == U16At(s, i)
  {
    if i + 2 <= |s| {
      assert Slice(s, i, i + 2) == s[i..i + 2];
    }
  }

  /** A 16-bit value stored high byte first at i is read back at i. */
  lemma {:induction false} U16AtBe16(s: seq<int>, i: nat, v: int)
    requires i + 2 <= |s| && s[i..i + 2] == Be16(v) && InU16(v)
    ensures U16At(s, i) == v
  {
    HiLoSplit(v);
  }

  /**
   * Successive `s[lo+2k:lo+2k+2] = u16_to_list_be(vs[k])`: each value is
   * packed before it is stored, so the first one out of range raises
   * struct.error and nothing after it is evaluated. The slice always lies
   * inside the list and the packed value has its length, so each store
   * replaces the pair in place (see `SliceAssignInPlace`).
   */
  function PutU16s(s: seq<int>, lo: nat, vs: seq<int>): (r: Result<seq<int>>)
    requires lo + 2 * |vs| <= |s|
    ensures r.Raised? ==> r.exc == StructError
    ensures r.Ok? ==> |r.value| == |s|
    decreases |vs|
  {
    if vs == [] then Ok(s)
    else
      match PackU16Be(vs[0])
      case Raised(e) => Raised(e)
      case Ok(b) => PutU16s(s[..lo] + b + s[lo + 2..], lo + 2, vs[1..])
  }

  /** One store: the first value's bytes replace the pair at lo. */
  lemma {:induction false} PutU16sUnfold(s: seq<int>, lo: nat, vs: seq<int>)
    requires lo + 2 * |vs| <= |s| && vs != [] && InU16(vs[0])
    ensures PutU16s(s, lo, vs) == PutU16s(s[..lo] + Be16(vs[0]) + s[lo + 2..], lo + 2, vs[1..])
  {
  }

  /** A single store replaces the pair at lo with the value's two bytes. */
  lemma {:induction false} PutU16One(s: seq<int>, lo: nat, v: int)
    requires lo + 2 <= |s| && InU16(v)
    ensures PutU16s(s, lo, [v]) == Ok(s[..lo] + Be16(v) + s[lo + 2..])
  {
    PutU16sUnfold(s, lo, [v]);
  }

  /** The stores succeed exactly when every value fits 16 bits. */
  lemma {:induction false} PutU16sOk(s: seq<int>, lo: nat, vs: seq<int>)
    requires lo + 2 * |vs| <= |s|
    ensures PutU16s(s, lo, vs).Ok? <==> forall k :: 0 <= k < |vs| ==> InU16(vs[k])
    decreases |vs|
  {
    if vs != [] && InU16(vs[0]) {
      var s1 := s[..lo] + Be16(vs[0]) + s[lo + 2..];
      PutU16sUnfold(s, lo, vs);
      PutU16sOk(s1, lo + 2, vs[1..]);
      assert forall k :: 1 <= k < |vs| ==> vs[k] == vs[1..][k - 1];
    }
  }

  /** Successful stores leave the list outside the written pairs as it was. */
  lemma {:induction false} PutU16sFrame(s: seq<int>, lo: nat, vs: seq<int>)
    requires lo + 2 * |vs| <= |s| && PutU16s(s, lo, vs).Ok?
    ensures PutU16s(s, lo, vs).value[..lo] == s[..lo]
    ensures PutU16s(s, lo, vs).value[lo + 2 * |vs|..] == s[lo + 2 * |vs|..]
    decreases |vs|
  {
    if vs != [] {
      var s1 := s[..lo] + Be16(vs[0]) + s[lo + 2..];
      PutU16sUnfold(s, lo, vs);
      PutU16sFrame(s1, lo + 2, vs[1..]);
      assert s1[..lo] == s[..lo];
      assert s1[lo + 2 * |vs|..] == s[lo + 2 * |vs|..];
    }
  }

  /** After successful stores each value sits high byte first in its pair. */
  lemma {:induction false} PutU16sPairs(s: seq<int>, lo: nat, vs: seq<int>)
    requires lo + 2 * |vs| <= |s| && PutU16s(s, lo, vs).Ok?
    ensures forall k :: 0 <= k < |vs| ==>
      PutU16s(s, lo, vs).value[lo + 2 * k..lo + 2 * k + 2] == Be16(vs[k])
    decreases |vs|
  {
    if vs != [] {
      var s1 := s[..lo] + Be16(vs[0]) + s[lo + 2..];
      var r := PutU16s(s, lo, vs).value;
      PutU16sUnfold(s, lo, vs);
      PutU16sPairs(s1, lo + 2, vs[1..]);
      assert r[lo..lo + 2] == Be16(vs[0]) by {
        PutU16sFrame(s1, lo + 2, vs[1..]);
        assert r[..lo + 2] == s1[..lo + 2];
        assert r[lo..lo + 2] == r[..lo + 2][lo..];
      }
      forall k | 1 <= k < |vs|
        ensures r[lo + 2 * k..lo + 2 * k + 2] == Be16(vs[k])
      {
        assert vs[1..][k - 1] == vs[k];
        assert lo + 2 * k == (lo + 2) + 2 * (k - 1);
      }
    }
  }

  /** After successful stores each value is read back from its pair. */
  lemma {:induction false} PutU16sReadBack(s: seq<int>, lo: nat, vs: seq<int>)
    requires lo + 2 * |vs| <= |s| && PutU16s(s, lo, vs).Ok?
    ensures forall k :: 0 <= k < |vs| ==> U16At(PutU16s(s, lo, vs).value, lo + 2 * k) == vs[k]
  {
    var r := PutU16s(s, lo, vs).value;
    PutU16sOk(s, lo, vs);
    PutU16sPairs(s, lo, vs);
    forall k | 0 <= k < |vs|
      ensures U16At(r, lo + 2 * k) == vs[k]
    {
      U16AtBe16(r, lo + 2 * k, vs[k]);
    }
  }

  /** The values' big-endian pairs, one after another. */
  function Pairs(vs: seq<int>): (r: seq<int>)
    ensures |r| == 2 * |vs|
  {
    if vs == [] then [] else Be16(vs[0]) + Pairs(vs[1..])
  }

  /** Successful stores keep the list before lo, lay down the pairs, and keep the list after them. */
  lemma {:induction false} PutU16sLays(s: seq<int>, lo: nat, vs: seq<int>)
    requires lo + 2 * |vs| <= |s| && forall k :: 0 <= k < |vs| ==> InU16(vs[k])
    ensures PutU16s(s, lo, vs) == Ok(s[..lo] + Pairs(vs) + s[lo + 2 * |vs|..])
    decreases |vs|
  {
    if vs == [] {
      assert s[..lo] + [] + s[lo..] == s;
    } else {
      var w, p := Be16(vs[0]), Pairs(vs[1..]);
      var s1 := s[..lo] + w + s[lo + 2..];
      PutU16sUnfold(s, lo, vs);
      assert forall k :: 0 <= k < |vs[1..]| ==> vs[1..][k] == vs[k + 1];
      var hi := lo + 2 * |vs|;
      assert lo + 2 + 2 * |vs[1..]| == hi && lo + 2 + |p| == hi;
      calc {
        PutU16s(s, lo, vs);
        PutU16s(s1, lo + 2, vs[1..]);
        { PutU16sLays(s1, lo + 2, vs[1..]); }
        Ok(s1[..lo + 2] + p + s1[hi..]);
        { Splice(s, lo, w, p); }
        Ok(s[..lo] + (w + p) + s[hi..]);
        { assert Pairs(vs) == w + p; }
        Ok(s[..lo] + Pairs(vs) + s[hi..]);
      }
    }
  }

  /** Replacing the pair at lo by w, then appending p after it, is inserting w + p. */
  lemma {:induction false} Splice(s: seq<int>, lo: nat, w: seq<int>, p: seq<int>)
    requires |w| == 2 && lo + 2 + |p| <= |s|
    ensures var s1 := s[..lo] + w + s[lo + 2..];
      s1[..lo + 2] + p + s1[lo + 2 + |p|..] == s[..lo] + (w + p) + s[lo + 2 + |p|..]
  {
    var s1 := s[..lo] + w + s[lo + 2..];
    assert s1[..lo + 2] == s[..lo] + w;
    assert s1[lo + 2 + |p|..] == s[lo + 2 + |p|..];
  }

  /** Stores from the start of a list lay down the pairs and keep the rest. */
  lemma {:induction false} PutU16sFromStart(s: seq<int>, vs: seq<int>)
    requires 2 * |vs| <= |s| && forall k :: 0 <= k < |vs| ==> InU16(vs[k])
    ensures PutU16s(s, 0, vs) == Ok(Pairs(vs) + s[2 * |vs|..])
  {
    PutU16sLays(s, 0, vs);
    assert s[..0] + Pairs(vs) == Pairs(vs);
  }

  /** The k-th pair holds the k-th value. */
  lemma {:induction false} PairsAt(vs: seq<int>, k: nat)
    requires k < |vs|
    ensures Pairs(vs)[2 * k..2 * k + 2] == Be16(vs[k])
    decreases k
  {
    if k > 0 {
      PairsAt(vs[1..], k - 1);
      assert Pairs(vs) == Be16(vs[0]) + Pairs(vs[1..]);
      assert Pairs(vs)[2 * k..2 * k + 2] == Pairs(vs[1..])[2 * (k - 1)..2 * (k - 1) + 2];
    }
  }

  /** The pairs of a concatenation are the concatenated pairs. */
  lemma {:induction false} PairsAppend(a: seq<int>, b: seq<int>)
    ensures Pairs(a + b) == Pairs(a) + Pairs(b)
    decreases |a|
  {
    if a == [] {
      assert a + b == b;
    } else {
      PairsCons(a, b);
      PairsAppend(a[1..], b);
      AppendAssoc(Be16(a[0]), Pairs(a[1..]), Pairs(b));
    }
  }

  /** The pairs of a concatenation with a non-empty head: the head's first pair, then the rest's. */
  lemma {:induction false} PairsCons(a: seq<int>, b: seq<int>)
    requires a != []
    ensures Pairs(a + b) == Be16(a[0]) + Pairs(a[1..] + b)
  {
    assert (a + b)[0] == a[0] && (a + b)[1..] == a[1..] + b;
  }

  lemma {:induction false} AppendAssoc(x: seq<int>, y: seq<int>, z: seq<int>)
    ensures x + (y + z) == x + y + z
  {
  }

  /** Four stores after a leading param: the head is kept and the pairs read back in order. */
  lemma {:induction false} FourPairsAfterHead(s: seq<int>, vs: seq<int>)
    requires |s| >= 9 && |vs| == 4 && PutU16s(s, 1, vs).Ok?
    ensures var d := PutU16s(s, 1, vs).value;
      d[0] == s[0] && [U16At(d, 1), U16At(d, 3), U16At(d, 5), U16At(d, 7)] == vs
  {
    var d := PutU16s(s, 1, vs).value;
    assert d[0] == s[0] by {
      PutU16sFrame(s, 1, vs);
      assert d[0] == d[..1][0];
    }
    var r := [U16At(d, 1), U16At(d, 3), U16At(d, 5), U16At(d, 7)];
    assert r[0] == vs[0] && r[1] == vs[1] && r[2] == vs[2] && r[3] == vs[3] by {
      PutU16sReadBack(s, 1, vs);
      assert 1 + 2 * 1 == 3 && 1 + 2 * 2 == 5 && 1 + 2 * 3 == 7;
    }
    assert r == vs;
  }

  /**
   * `s[a, b] = u16_to_list_be(v)`: the right-hand side is packed first, so
   * a value out of range raises struct.error; otherwise indexing a list
   * with a tuple raises TypeError. The list is never changed.
   */
  function TupleIndexStore(v: int): (e: Exc)
    ensures e == StructError <==> !InU16(v)
    ensures e == TypeError <==> InU16(v)
  {
    match PackU16Be(v)
    case Raised(x) => x
    case Ok(_) => TypeError
  }
}
