/**
 * Fixed-width integer <-> byte-list conversions and the hex dump helper
 * (core/utils.py).
 *
 * The encoders correspond to `struct.pack` with the formats `<H >H <h >h <I >I
 * <i >i`: they take a value inside the format's range (outside it
 * `struct.pack` raises, which callers model through `InU16` and friends) and
 * return its bytes. The decoders correspond to `struct.unpack` behind a length
 * guard: a list of the wrong length decodes to 0.
 */
module IntCodec {
  import opened Bits
  import opened Wrappers

  predicate InU16(v: int) { 0 <= v < 0x1_0000 }
  predicate InI16(v: int) { -0x8000 <= v < 0x8000 }
  predicate InU32(v: int) { 0 <= v < 0x1_0000_0000 }
  predicate InI32(v: int) { -0x8000_0000 <= v < 0x8000_0000 }

  /** The two's-complement reading of an unsigned 16-bit pattern. */
  function Signed16(u: int): int { if u >= 0x8000 then u - 0x1_0000 else u }
  function Signed32(u: int): int { if u >= 0x8000_0000 then u - 0x1_0000_0000 else u }

  // ---------------------------------------------------------------- encoders

  function U16ToListLe(v: int): (r: seq<int>)
    requires InU16(v)
    ensures |r| == 2 && IsBytes(r)
    ensures r[0] + 256 * r[1] == v
  {
    [v % 256, v / 256]
  }

  function U16ToListBe(v: int): (r: seq<int>)
    requires InU16(v)
    ensures |r| == 2 && IsBytes(r)
    ensures 256 * r[0] + r[1] == v
    ensures r == Reverse(U16ToListLe(v))
  {
    [v / 256, v % 256]
  }

  function I16ToListLe(v: int): (r: seq<int>)
    requires InI16(v)
    ensures |r| == 2 && IsBytes(r)
    ensures Signed16(r[0] + 256 * r[1]) == v
  {
    U16ToListLe(v % 0x1_0000)
  }

  function I16ToListBe(v: int): (r: seq<int>)
    requires InI16(v)
    ensures |r| == 2 && IsBytes(r)
    ensures Signed16(256 * r[0] + r[1]) == v
    ensures r == Reverse(I16ToListLe(v))
  {
    U16ToListBe(v % 0x1_0000)
  }

  function U32ToListLe(v: int): (r: seq<int>)
    requires InU32(v)
    ensures |r| == 4 && IsBytes(r)
    ensures r[0] + 256 * r[1] + 0x1_0000 * r[2] + 0x100_0000 * r[3] == v
  {
    U16ToListLe(v % 0x1_0000) + U16ToListLe(v / 0x1_0000)
  }

  function U32ToListBe(v: int): (r: seq<int>)
    requires InU32(v)
    ensures |r| == 4 && IsBytes(r)
    ensures 0x100_0000 * r[0] + 0x1_0000 * r[1] + 256 * r[2] + r[3] == v
    ensures r == Reverse(U32ToListLe(v))
  {
    U16ToListBe(v / 0x1_0000) + U16ToListBe(v % 0x1_0000)
  }

  function I32ToListLe(v: int): (r: seq<int>)
    requires InI32(v)
    ensures |r| == 4 && IsBytes(r)
    ensures Signed32(r[0] + 256 * r[1] + 0x1_0000 * r[2] + 0x100_0000 * r[3]) == v
  {
    U32ToListLe(v % 0x1_0000_0000)
  }

  function I32ToListBe(v: int): (r: seq<int>)
    requires InI32(v)
    ensures |r| == 4 && IsBytes(r)
    ensures Signed32(0x100_0000 * r[0] + 0x1_0000 * r[1] + 256 * r[2] + r[3]) == v
    ensures r == Reverse(I32ToListLe(v))
  {
    U32ToListBe(v % 0x1_0000_0000)
  }

  function Reverse(s: seq<int>): (r: seq<int>)
    ensures |r| == |s|
    ensures forall i :: 0 <= i < |s| ==> r[i] == s[|s| - 1 - i]
  {
    if s == [] then [] else Reverse(s[1..]) + [s[0]]
  }

  // ---------------------------------------------------------------- decoders

  function ListToU16Le(a: seq<int>): (r: int)
    ensures |a| != 2 ==> r == 0
    ensures |a| == 2 && IsBytes(a) ==> InU16(r) && U16ToListLe(r) == a
  {
    if |a| != 2 then 0 else a[0] + 256 * a[1]
  }

  function ListToU16Be(a: seq<int>): (r: int)
    ensures |a| != 2 ==> r == 0
    ensures |a| == 2 && IsBytes(a) ==> InU16(r) && U16ToListBe(r) == a
  {
    if |a| != 2 then 0 else 256 * a[0] + a[1]
  }

  function ListToI16Le(a: seq<int>): (r: int)
    ensures |a| != 2 ==> r == 0
    ensures |a| == 2 && IsBytes(a) ==> InI16(r) && I16ToListLe(r) == a
  {
    if |a| != 2 then 0 else Signed16(ListToU16Le(a))
  }

  function ListToI16Be(a: seq<int>): (r: int)
    ensures |a| != 2 ==> r == 0
    ensures |a| == 2 && IsBytes(a) ==> InI16(r) && I16ToListBe(r) == a
  {
    if |a| != 2 then 0 else Signed16(ListToU16Be(a))
  }

  function ListToU32Le(a: seq<int>): (r: int)
    ensures |a| != 4 ==> r == 0
    ensures |a| == 4 && IsBytes(a) ==> InU32(r)
  {
    if |a| != 4 then 0 else ListToU16Le(a[..2]) + 0x1_0000 * ListToU16Le(a[2..])
  }

  function ListToU32Be(a: seq<int>): (r: int)
    ensures |a| != 4 ==> r == 0
    ensures |a| == 4 && IsBytes(a) ==> InU32(r)
  {
    if |a| != 4 then 0 else 0x1_0000 * ListToU16Be(a[..2]) + ListToU16Be(a[2..])
  }

  function ListToI32Le(a: seq<int>): (r: int)
    ensures |a| != 4 ==> r == 0
    ensures |a| == 4 && IsBytes(a) ==> InI32(r)
  {
    if |a| != 4 then 0 else Signed32(ListToU32Le(a))
  }

  function ListToI32Be(a: seq<int>): (r: int)
    ensures |a| != 4 ==> r == 0
    ensures |a| == 4 && IsBytes(a) ==> InI32(r)
  {
    if |a| != 4 then 0 else Signed32(ListToU32Be(a))
  }

  function ListToU8(a: seq<int>): (r: int)
    ensures |a| != 1 ==> r == 0
    ensures |a| == 1 && IsBytes(a) ==> IsByte(r) && [r] == a
  {
    if |a| != 1 then 0 else a[0]
  }

  /** A byte b >= 128 reads as b - 256. */
  function ListToI8(a: seq<int>): (r: int)
    ensures |a| != 1 ==> r == 0
    ensures |a| == 1 && IsBytes(a) ==> -128 <= r < 128 && r % 256 == a[0]
  {
    if |a| != 1 then 0 else if a[0] >= 128 then a[0] - 256 else a[0]
  }

  // ------------------------------------------------------------- round trips

  lemma {:induction false} U16RoundTrip(v: int)
    requires InU16(v)
    ensures ListToU16Le(U16ToListLe(v)) == v
    ensures ListToU16Be(U16ToListBe(v)) == v
  {
  }

  lemma {:induction false} I16RoundTrip(v: int)
    requires InI16(v)
    ensures ListToI16Le(I16ToListLe(v)) == v
    ensures ListToI16Be(I16ToListBe(v)) == v
  {
  }

  lemma {:induction false} U32RoundTrip(v: int)
    requires InU32(v)
    ensures ListToU32Le(U32ToListLe(v)) == v
    ensures ListToU32Be(U32ToListBe(v)) == v
  {
  }

  lemma {:induction false} I32RoundTrip(v: int)
    requires InI32(v)
    ensures ListToI32Le(I32ToListLe(v)) == v
    ensures ListToI32Be(I32ToListBe(v)) == v
  {
  }

  /** Every four-byte list is the encoding of the value it decodes to. */
  lemma {:induction false} U32Inverse(a: seq<int>)
    requires |a| == 4 && IsBytes(a)
    ensures U32ToListLe(ListToU32Le(a)) == a
    ensures U32ToListBe(ListToU32Be(a)) == a
    ensures I32ToListLe(ListToI32Le(a)) == a
    ensures I32ToListBe(ListToI32Be(a)) == a
  {
    U32InverseLe(a);
    U32InverseBe(a);
  }

  lemma {:induction false} U32InverseLe(a: seq<int>)
    requires |a| == 4 && IsBytes(a)
    ensures U32ToListLe(ListToU32Le(a)) == a
    ensures I32ToListLe(ListToI32Le(a)) == a
  {
    assert a == a[..2] + a[2..];
    var lo := ListToU16Le(a[..2]);
    var hi := ListToU16Le(a[2..]);
    DivModUnique(lo + 0x1_0000 * hi, 0x1_0000, hi, lo);
    var u := ListToU32Le(a);
    assert Signed32(u) % 0x1_0000_0000 == u;
  }

  lemma {:induction false} U32InverseBe(a: seq<int>)
    requires |a| == 4 && IsBytes(a)
    ensures U32ToListBe(ListToU32Be(a)) == a
    ensures I32ToListBe(ListToI32Be(a)) == a
  {
    assert a == a[..2] + a[2..];
    var hi := ListToU16Be(a[..2]);
    var lo := ListToU16Be(a[2..]);
    DivModUnique(0x1_0000 * hi + lo, 0x1_0000, hi, lo);
    var u := ListToU32Be(a);
    assert Signed32(u) % 0x1_0000_0000 == u;
  }

  // -------------------------------------------------------------- hex dump

  function HexDigit(d: int): (c: char)
    requires 0 <= d < 16
  {
    if d < 10 then ('0' as int + d) as char else ('A' as int + d - 10) as char
  }

  /** `hex(n)[2:].upper()` for n >= 0: no leading zeros, "0" for zero. */
  function HexDigits(n: nat): (s: string)
    ensures |s| >= 1
    decreases n
  {
    if n < 16 then [HexDigit(n)] else HexDigits(n / 16) + [HexDigit(n % 16)]
  }

  /**
   * One entry of the dump: `hex(num)[2:].upper().zfill(2)`. For a negative
   * number `hex` starts with "-0x", so dropping two characters leaves
   * "x..." and upper-casing gives "X...".
   */
  function HexEntry(num: int): string
  {
    var digits := if num >= 0 then HexDigits(num) else ['X'] + HexDigits(-num);
    ZFill(digits, 2)
  }

  /** `str.zfill(width)` for a string that does not start with a sign. */
  function ZFill(s: string, width: nat): (r: string)
    ensures |r| == if |s| >= width then |s| else width
  {
    if |s| >= width then s else seq(width - |s|, _ => '0') + s
  }

  /** `' '.join(hex_list)`. */
  function JoinSpaced(parts: seq<string>): string
  {
    if parts == [] then "" else if |parts| == 1 then parts[0]
    else parts[0] + " " + JoinSpaced(parts[1..])
  }

  function ListToHexString(input: seq<int>): string
  {
    JoinSpaced(seq(|input|, i requires 0 <= i < |input| => HexEntry(input[i])))
  }

  /** A byte always dumps as exactly two upper-case hex digits, high nibble first. */
  lemma {:induction false} HexEntryOfByte(b: int)
    requires IsByte(b)
    ensures HexEntry(b) == [HexDigit(b / 16), HexDigit(b % 16)]
  {
    if b >= 16 {
      assert HexDigits(b / 16) == [HexDigit(b / 16)];
    }
  }

  function HexValue(c: char): (r: Option<int>)
    ensures r.Some? ==> 0 <= r.value < 16
  {
    if '0' <= c <= '9' then Some(c as int - '0' as int)
    else if 'A' <= c <= 'F' then Some(c as int - 'A' as int + 10)
    else None
  }

  /** Reads a dump back: two hex digits per byte, single spaces between. */
  function ParseHexString(t: string): (r: Option<seq<int>>)
    decreases |t|
  {
    if t == [] then Some([])
    else if |t| < 2 then None
    else
      var hi := HexValue(t[0]);
      var lo := HexValue(t[1]);
      if hi.None? || lo.None? then None
      else if |t| == 2 then Some([16 * hi.value + lo.value])
      else if t[2] != ' ' || |t| == 3 then None
      else
        match ParseHexString(t[3..])
        case None => None
        case Some(rest) => Some([16 * hi.value + lo.value] + rest)
  }

  lemma {:induction false} HexDigitValue(d: int)
    requires 0 <= d < 16
    ensures HexValue(HexDigit(d)) == Some(d)
  {
  }

  /**
   * The dump of a byte list has two characters per byte and one space between
   * neighbours, and it reads back as the same list.
   */
  lemma {:induction false} HexStringRoundTrip(s: seq<int>)
    requires IsBytes(s)
    ensures |ListToHexString(s)| == if s == [] then 0 else 3 * |s| - 1
    ensures ParseHexString(ListToHexString(s)) == Some(s)
  {
    if s == [] {
    } else {
      var entries := seq(|s|, i requires 0 <= i < |s| => HexEntry(s[i]));
      var tail := seq(|s| - 1, i requires 0 <= i < |s| - 1 => HexEntry(s[1..][i]));
      assert entries[1..] == tail;
      HexEntryOfByte(s[0]);
      HexDigitValue(s[0] / 16);
      HexDigitValue(s[0] % 16);
      var e := HexEntry(s[0]);
      assert 16 * (s[0] / 16) + s[0] % 16 == s[0];
      assert entries[0] == e;
      assert e[0] == HexDigit(s[0] / 16) && e[1] == HexDigit(s[0] % 16);
      assert ParseHexString(e) == Some([s[0]]);
      if |s| == 1 {
        assert ListToHexString(s) == e;
        assert s == [s[0]];
      } else {
        HexStringRoundTrip(s[1..]);
        var t := ListToHexString(s);
        assert t == e + " " + ListToHexString(s[1..]);
        assert t[3..] == ListToHexString(s[1..]);
        assert [s[0]] + s[1..] == s;
      }
    }
  }
}
