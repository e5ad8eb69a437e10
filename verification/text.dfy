/**
 * Python's decimal `str(n)` and `int(s)` for the integers the library turns
 * into text: notification keys, firmware names, version strings.
 */
module Text {
  import opened Wrappers

  predicate IsDigit(c: char) { '0' <= c <= '9' }

  function DigitChar(d: int): (c: char)
    requires 0 <= d < 10
    ensures IsDigit(c)
  {
    ('0' as int + d) as char
  }

  function DigitValue(c: char): (d: int)
    requires IsDigit(c)
    ensures 0 <= d < 10 && DigitChar(d) == c
  {
    c as int - '0' as int
  }

  /** `str(n)` for n >= 0: decimal digits, no leading zero except for 0 itself. */
  function NatToString(n: nat): (s: string)
    ensures |s| >= 1
    ensures forall i :: 0 <= i < |s| ==> IsDigit(s[i])
    decreases n
  {
    if n < 10 then [DigitChar(n)] else NatToString(n / 10) + [DigitChar(n % 10)]
  }

  /** `str(n)` for any int: a minus sign in front of negative numbers. */
  function IntToString(n: int): (s: string)
    ensures |s| >= 1
    ensures forall i :: 0 <= i < |s| ==> IsDigit(s[i]) || (i == 0 && s[i] == '-')
  {
    if n >= 0 then NatToString(n) else "-" + NatToString(-n)
  }

  /** The value of a non-empty run of decimal digits (leading zeros allowed). */
  function DigitsValue(s: string): (n: nat)
    requires forall i :: 0 <= i < |s| ==> IsDigit(s[i])
    decreases |s|
  {
    if s == [] then 0 else 10 * DigitsValue(s[..|s| - 1]) + DigitValue(s[|s| - 1])
  }

  /**
   * `int(s)` for a string of plain decimal digits; anything else (an empty
   * string, a hex letter) raises ValueError.
   */
  function ParseInt(s: string): (r: Result<int>)
    ensures r.Ok? <==> s != [] && forall i :: 0 <= i < |s| ==> IsDigit(s[i])
    ensures r.Raised? ==> r.exc == ValueError
  {
    if s != [] && forall i :: 0 <= i < |s| ==> IsDigit(s[i]) then Ok(DigitsValue(s))
    else Raised(ValueError)
  }

  /** Reading the decimal digits of n gives n back. */
  lemma {:induction false} NatToStringRoundTrip(n: nat)
    ensures DigitsValue(NatToString(n)) == n
    decreases n
  {
    var s := NatToString(n);
    if n >= 10 {
      NatToStringRoundTrip(n / 10);
      assert s[..|s| - 1] == NatToString(n / 10);
    }
  }

  /** `str` is injective on ints: equal texts come from equal numbers. */
  lemma {:induction false} IntToStringInjective(a: int, b: int)
    requires IntToString(a) == IntToString(b)
    ensures a == b
  {
    assert IsDigit(IntToString(a)[0]) <==> a >= 0;
    assert IsDigit(IntToString(b)[0]) <==> b >= 0;
    if a >= 0 {
      NatToStringRoundTrip(a);
      NatToStringRoundTrip(b);
    } else {
      assert NatToString(-a) == IntToString(a)[1..];
      assert NatToString(-b) == IntToString(b)[1..];
      NatToStringRoundTrip(-a);
      NatToStringRoundTrip(-b);
    }
  }

  /** Lower-case hex digit, as Python's `hex()` prints it. */
  function HexDigitLower(d: int): (c: char)
    requires 0 <= d < 16
  {
    if d < 10 then DigitChar(d) else ('a' as int + d - 10) as char
  }

  /** `hex(n)[2:]` for n >= 0: lower-case digits without leading zeros. */
  function HexLower(n: nat): (s: string)
    ensures |s| >= 1
    decreases n
  {
    if n < 16 then [HexDigitLower(n)] else HexLower(n / 16) + [HexDigitLower(n % 16)]
  }

  lemma {:induction false} HexDigitLowerIsDigit(d: int)
    requires 0 <= d < 16
    ensures IsDigit(HexDigitLower(d)) <==> d < 10
  {
    if d >= 10 {
      assert HexDigitLower(d) as int == 'a' as int + d - 10;
    }
  }

  predicate AllDigits(s: string) { forall i :: 0 <= i < |s| ==> IsDigit(s[i]) }

  lemma {:induction false} AllDigitsConcat(a: string, b: string)
    ensures AllDigits(a + b) <==> AllDigits(a) && AllDigits(b)
  {
    if AllDigits(a + b) {
      forall i | 0 <= i < |a| ensures IsDigit(a[i]) { assert a[i] == (a + b)[i]; }
      forall i | 0 <= i < |b| ensures IsDigit(b[i]) { assert b[i] == (a + b)[|a| + i]; }
    }
  }

  /** The hex text of n is all decimal digits exactly when every nibble is below 10. */
  lemma {:induction false} HexLowerIsDecimal(n: nat)
    ensures AllDigits(HexLower(n)) <==> NibblesBelowTen(n)
    decreases n
  {
    HexDigitLowerIsDigit(n % 16);
    if n >= 16 {
      HexLowerIsDecimal(n / 16);
      AllDigitsConcat(HexLower(n / 16), [HexDigitLower(n % 16)]);
      assert [HexDigitLower(n % 16)][0] == HexDigitLower(n % 16);
    }
  }

  predicate NibblesBelowTen(n: nat)
    decreases n
  {
    n % 16 < 10 && (n < 16 || NibblesBelowTen(n / 16))
  }

  // ------------------------------------------------------------ characters

  /** A value `chr` accepts and Dafny can hold in a `char`. */
  predicate IsCodePoint(x: int) { 0 <= x < 0xD800 || 0xE000 <= x < 0x11_0000 }

  /**
   * Python `chr(x)`: a code point becomes a character; outside the Unicode
   * range it raises ValueError.
   */
  function Chr(x: int): (r: Result<char>)
    ensures 0 <= x < 256 ==> r.Ok?
    ensures r.Ok? ==> r.value as int == x
    ensures x < 0 || x > 0x10FFFF ==> r == Raised(ValueError)
  {
    if IsCodePoint(x) then Ok(x as char) else Raised(ValueError)
  }

  /** `"".join(chr(x) for x in p)`: any bad code point raises. */
  function Chars(p: seq<int>): (r: Result<string>)
    ensures (forall i :: 0 <= i < |p| ==> 0 <= p[i] < 256) ==> r.Ok?
    ensures r.Ok? ==> |r.value| == |p| && forall i :: 0 <= i < |p| ==> r.value[i] as int == p[i]
    ensures r.Raised? <==> exists i :: 0 <= i < |p| && Chr(p[i]).Raised?
    ensures r.Raised? ==> r.exc == ValueError
  {
    if forall i :: 0 <= i < |p| ==> IsCodePoint(p[i]) then Ok(seq(|p|, i requires 0 <= i < |p| => p[i] as char))
    else Raised(ValueError)
  }

  /** `s.rstrip("\x00")`. */
  function RStripNul(s: string): (r: string)
    ensures |r| <= |s| && r == s[..|r|]
    ensures r == [] || r[|r| - 1] != 0 as char
    ensures forall i :: |r| <= i < |s| ==> s[i] == 0 as char
    decreases |s|
  {
    if s != [] && s[|s| - 1] == 0 as char then RStripNul(s[..|s| - 1]) else s
  }

  /** Python `hex(x)[2:]`: for a negative x the slice keeps an "x". */
  function HexTail(x: int): (s: string)
    ensures x >= 0 ==> s == HexLower(x)
  {
    if x >= 0 then HexLower(x) else "x" + HexLower(-x)
  }

  /** `f"{b:02x}"` for a byte: always two lower-case hex digits. */
  function Hex2(b: int): (s: string)
    requires 0 <= b < 256
    ensures |s| == 2
  {
    [HexDigitLower(b / 16), HexDigitLower(b % 16)]
  }

  /** Four decimal digits read as a number. */
  lemma {:induction false} DigitsValue4(s: string)
    requires |s| == 4 && AllDigits(s)
    ensures DigitsValue(s) == 1000 * DigitValue(s[0]) + 100 * DigitValue(s[1])
                              + 10 * DigitValue(s[2]) + DigitValue(s[3])
  {
    var s3, s2, s1 := s[..3], s[..2], s[..1];
    assert s3[..2] == s2 && s2[..1] == s1 && s1[..0] == [];
    assert DigitsValue(s1) == DigitValue(s[0]);
    assert DigitsValue(s2) == 10 * DigitValue(s[0]) + DigitValue(s[1]);
    assert DigitsValue(s3) == 100 * DigitValue(s[0]) + 10 * DigitValue(s[1]) + DigitValue(s[2]);
  }

  // ------------------------------------------------------------ splitting

  /** Python `s.split(sep)`: the fields between separators, always at least one. */
  function Split(s: string, sep: char): (r: seq<string>)
    ensures |r| >= 1
    decreases |s|
  {
    if s == [] then [""]
    else
      var t := Split(s[1..], sep);
      if s[0] == sep then [""] + t
      else [[s[0]] + t[0]] + t[1..]
  }

  /** One field more than there are separators, and no field holds one. */
  lemma {:induction false} SplitCounts(s: string, sep: char)
    ensures |Split(s, sep)| == 1 + multiset(s)[sep]
    ensures forall i :: 0 <= i < |Split(s, sep)| ==> sep !in Split(s, sep)[i]
    decreases |s|
  {
    if s != [] {
      assert s == [s[0]] + s[1..];
      SplitCounts(s[1..], sep);
    }
  }

  /** The inverse of `Split`: the fields with a separator between neighbours. */
  function Join(fields: seq<string>, sep: char): string
  {
    if |fields| <= 1 then (if fields == [] then "" else fields[0])
    else fields[0] + [sep] + Join(fields[1..], sep)
  }

  /** Splitting loses nothing: joining the fields back gives the text. */
  lemma {:induction false} JoinSplit(s: string, sep: char)
    ensures Join(Split(s, sep), sep) == s
    decreases |s|
  {
    if s != [] {
      JoinSplit(s[1..], sep);
      var t := Split(s[1..], sep);
      if s[0] != sep {
        assert Split(s, sep) == [[s[0]] + t[0]] + t[1..];
        if |t| > 1 {
          assert Join(t, sep) == t[0] + [sep] + Join(t[1..], sep);
        }
      }
    }
  }

  /** A field without separator, then a separator: the field comes first, the rest is split on its own. */
  lemma {:induction false} SplitField(a: string, rest: string, sep: char)
    requires sep !in a
    ensures Split(a + [sep] + rest, sep) == [a] + Split(rest, sep)
    decreases |a|
  {
    if a == [] {
      assert a + [sep] + rest == [sep] + rest;
      assert ([sep] + rest)[1..] == rest;
    } else {
      var s := a + [sep] + rest;
      assert s[1..] == a[1..] + [sep] + rest;
      assert s[0] == a[0] && a[0] in a;
      SplitField(a[1..], rest, sep);
      var t := Split(s[1..], sep);
      assert Split(s, sep) == [[s[0]] + t[0]] + t[1..];
      assert [a[0]] + a[1..] == a;
    }
  }

  /** A text without separator is a single field. */
  lemma {:induction false} SplitNone(a: string, sep: char)
    requires sep !in a
    ensures Split(a, sep) == [a]
    decreases |a|
  {
    if a != [] {
      assert a[0] in a;
      SplitNone(a[1..], sep);
      assert [a[0]] + a[1..] == a;
    }
  }
}
