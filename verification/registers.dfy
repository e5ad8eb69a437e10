/**
 * Sensor registers (sensor/register.py) and how a sensor finds one from a
 * reference (`Sensor.is_register_address`, `Sensor.get_register` in
 * sensor/sensor.py), with the big-endian value encoding the register reads
 * and writes use.
 */
module Registers {
  import opened Wrappers
  import opened Bits
  import opened Text

  /** A register: its address bytes, most significant first; its size is their count. */
  datatype Register = Register(name: string, address: seq<int>, access: string, default: Option<int>)
  {
    function Size(): nat { |address| }
  }

  /** What `get_register` may be handed: a string, an int or a `Register`. */
  datatype Ref = Name(text: string) | Number(n: int) | Object(reg: Register)

  // ----------------------------------------------------- int(text, 16)

  /** The ASCII characters Python's `int()` strips from both ends. */
  predicate IsSpace(c: char)
  {
    c == ' ' || (9 <= c as int <= 13) || (0x1C <= c as int <= 0x1F)
  }

  function HexDigitValue(c: char): (r: Option<int>)
    ensures r.Some? ==> 0 <= r.value < 16
  {
    if '0' <= c <= '9' then Some(c as int - '0' as int)
    else if 'a' <= c <= 'f' then Some(c as int - 'a' as int + 10)
    else if 'A' <= c <= 'F' then Some(c as int - 'A' as int + 10)
    else None
  }

  function StripLeft(s: string): (r: string)
    ensures |r| <= |s| && r == s[|s| - |r|..]
    ensures r != [] ==> !IsSpace(r[0])
    ensures forall i :: 0 <= i < |s| - |r| ==> IsSpace(s[i])
  {
    if s != [] && IsSpace(s[0]) then StripLeft(s[1..]) else s
  }

  function StripRight(s: string): (r: string)
    ensures |r| <= |s| && r == s[..|r|]
    ensures r != [] ==> !IsSpace(r[|r| - 1])
    ensures forall i :: |r| <= i < |s| ==> IsSpace(s[i])
  {
    if s != [] && IsSpace(s[|s| - 1]) then StripRight(s[..|s| - 1]) else s
  }

  /**
   * The digits after the first, from accumulated value `acc`: hex digits,
   * each optionally preceded by one underscore.
   */
  function DigitsFrom(t: string, acc: int): (r: Option<int>)
    decreases |t|
  {
    if t == [] then Some(acc)
    else if t[0] == '_' then
      if |t| >= 2 && HexDigitValue(t[1]).Some? then DigitsFrom(t[2..], 16 * acc + HexDigitValue(t[1]).value)
      else None
    else if HexDigitValue(t[0]).Some? then DigitsFrom(t[1..], 16 * acc + HexDigitValue(t[0]).value)
    else None
  }

  /** A non-empty run of hex digits with single underscores between them. */
  function Digits(t: string): (r: Option<int>)
  {
    if t == [] || HexDigitValue(t[0]).None? then None else DigitsFrom(t[1..], HexDigitValue(t[0]).value)
  }

  /**
   * Python `int(text, 16)`, None where it raises ValueError: surrounding
   * whitespace, an optional sign, an optional `0x`/`0X` prefix that may be
   * followed by one underscore, then the digits.
   */
  function ParseHex(text: string): Option<int>
  {
    ParseSigned(StripRight(StripLeft(text)))
  }

  /** The stripped text: an optional sign, then the unsigned literal. */
  function ParseSigned(t: string): Option<int>
  {
    var u := if t != [] && (t[0] == '-' || t[0] == '+') then t[1..] else t;
    match ParseUnsigned(u)
    case None => None
    case Some(v) => Some(if t != [] && t[0] == '-' then -v else v)
  }

  /** An optional `0x`/`0X` prefix, possibly followed by one underscore, then the digits. */
  function ParseUnsigned(u: string): Option<int>
  {
    if |u| >= 2 && u[0] == '0' && (u[1] == 'x' || u[1] == 'X') then
      Digits(if |u| >= 3 && u[2] == '_' then u[3..] else u[2..])
    else Digits(u)
  }

  /**
   * `is_register_address(ref)`: a string that parses as hex to a value
   * below 0xFF. A non-string makes `int(ref, 16)` raise TypeError, which the
   * `except ValueError` does not catch.
   */
  function IsRegisterAddress(ref: Ref): (r: Result<bool>)
    ensures r.Raised? <==> !ref.Name?
    ensures r.Raised? ==> r.exc == TypeError
    ensures r.Ok? ==> (r.value <==> ParseHex(ref.text).Some? && ParseHex(ref.text).value < 0xFF)
  {
    if !ref.Name? then Raised(TypeError)
    else
      match ParseHex(ref.text)
      case None => Ok(false)
      case Some(v) => Ok(v < 0xFF)
  }

  /** Accumulating more digits of a hex text is base-16 shifting. */
  lemma {:induction false} DigitsOfHexLower(n: nat, rest: string, acc: int)
    ensures DigitsFrom(HexLower(n) + rest, acc) == DigitsFrom(rest, acc * Pow16(|HexLower(n)|) + n)
    decreases n
  {
    var d := HexDigitLower(n % 16);
    HexDigitLowerValue(n % 16);
    if n < 16 {
      assert HexLower(n) + rest == [d] + rest;
      assert ([d] + rest)[1..] == rest;
    } else {
      var h := HexLower(n / 16);
      assert HexLower(n) + rest == h + ([d] + rest);
      DigitsOfHexLower(n / 16, [d] + rest, acc);
      var a := acc * Pow16(|h|) + n / 16;
      DigitStep(d, rest, a);
      assert |HexLower(n)| == |h| + 1;
      ShiftDigit(acc, Pow16(|h|), n);
    }
  }

  lemma {:induction false} DigitStep(d: char, rest: string, a: int)
    requires HexDigitValue(d).Some?
    ensures DigitsFrom([d] + rest, a) == DigitsFrom(rest, 16 * a + HexDigitValue(d).value)
  {
    assert ([d] + rest)[1..] == rest;
  }

  lemma {:induction false} ShiftDigit(acc: int, p: int, n: nat)
    ensures 16 * (acc * p + n / 16) + n % 16 == acc * (16 * p) + n
  {
    assert 16 * (acc * p) == acc * (16 * p);
  }

  function Pow16(k: nat): (r: nat)
    ensures r >= 1
  {
    if k == 0 then 1 else 16 * Pow16(k - 1)
  }

  lemma {:induction false} HexDigitLowerValue(d: int)
    requires 0 <= d < 16
    ensures HexDigitValue(HexDigitLower(d)) == Some(d)
  {
    if d < 10 {
      assert HexDigitLower(d) == DigitChar(d);
    }
  }

  /** A text with no surrounding space, no sign and no `0x` prefix is read as its digits. */
  lemma {:induction false} ParseHexPlain(t: string)
    requires t != [] && !IsSpace(t[0]) && !IsSpace(t[|t| - 1])
    requires t[0] != '-' && t[0] != '+'
    requires |t| >= 2 ==> t[1] != 'x' && t[1] != 'X'
    ensures ParseHex(t) == Digits(t)
  {
    assert StripLeft(t) == t;
    assert StripRight(t) == t;
    assert ParseUnsigned(t) == Digits(t);
  }

  lemma {:induction false} DigitsOfHexLowerText(n: nat)
    ensures Digits(HexLower(n)) == Some(n)
  {
    var h := HexLower(n);
    NoSpaceInHexLower(n);
    DigitsOfHexLower(n, [], 0);
    assert h + [] == h;
    HexLowerSplit(n);
  }

  /** Python reads `hex(n)`'s digits back as n, with or without the `0x` prefix. */
  lemma {:induction false} ParseHexLower(n: nat)
    ensures ParseHex(HexLower(n)) == Some(n)
    ensures ParseHex("0x" + HexLower(n)) == Some(n)
  {
    var h := HexLower(n);
    NoSpaceInHexLower(n);
    DigitsOfHexLowerText(n);
    ParseHexPlain(h);
    PrefixedHexLower(n);
  }

  lemma {:induction false} PrefixedHexLower(n: nat)
    requires Digits(HexLower(n)) == Some(n)
    ensures ParseHex("0x" + HexLower(n)) == Some(n)
  {
    var h := HexLower(n);
    var p := "0x" + h;
    assert p[0] == '0' && p[1] == 'x';
    assert StripLeft(p) == p;
    assert p[|p| - 1] == HexDigitLower(n % 16);
    HexDigitLowerValue(n % 16);
    assert StripRight(p) == p;
    assert p[2..] == h;
    assert ParseUnsigned(p) == Digits(h);
  }

  lemma {:induction false} NoSpaceInHexLower(n: nat)
    ensures forall i :: 0 <= i < |HexLower(n)| ==>
      && HexDigitValue(HexLower(n)[i]).Some? && !IsSpace(HexLower(n)[i])
      && HexLower(n)[i] != '-' && HexLower(n)[i] != '+' && HexLower(n)[i] != '_'
      && HexLower(n)[i] != 'x' && HexLower(n)[i] != 'X'
    decreases n
  {
    HexDigitLowerValue(n % 16);
    if n >= 16 {
      NoSpaceInHexLower(n / 16);
    }
  }

  lemma {:induction false} LeadingDigitOfHexLower(n: nat)
    ensures HexDigitValue(HexLower(n)[0]).Some?
  {
    NoSpaceInHexLower(n);
  }

  /** Reading the first digit, then the rest, is reading the whole text. */
  lemma {:induction false} HexLowerSplit(n: nat)
    ensures Digits(HexLower(n)) == DigitsFrom(HexLower(n), 0)
  {
    var h := HexLower(n);
    NoSpaceInHexLower(n);
    assert h[0] != '_';
    assert DigitsFrom(h, 0) == DigitsFrom(h[1..], 16 * 0 + HexDigitValue(h[0]).value);
  }

  /** The hex text of an address names a register address exactly when it is below 0xFF. */
  lemma {:induction false} HexTextIsAddress(n: nat)
    ensures IsRegisterAddress(Name(HexLower(n))) == Ok(n < 0xFF)
    ensures IsRegisterAddress(Name("0x" + HexLower(n))) == Ok(n < 0xFF)
  {
    ParseHexLower(n);
  }

  /** A character no part of a hex literal can be. */
  predicate Foreign(c: char)
  {
    !IsSpace(c) && HexDigitValue(c).None? && c != '_' && c != '+' && c != '-' && c != 'x' && c != 'X'
  }

  lemma {:induction false} DigitsFromRejects(t: string, acc: int, i: nat)
    requires i < |t| && Foreign(t[i])
    ensures DigitsFrom(t, acc).None?
    decreases |t|
  {
    if t[0] == '_' {
      if |t| >= 2 && HexDigitValue(t[1]).Some? {
        assert i >= 2;
        assert t[2..][i - 2] == t[i];
        DigitsFromRejects(t[2..], 16 * acc + HexDigitValue(t[1]).value, i - 2);
      }
    } else if HexDigitValue(t[0]).Some? {
      assert t[1..][i - 1] == t[i];
      DigitsFromRejects(t[1..], 16 * acc + HexDigitValue(t[0]).value, i - 1);
    }
  }

  /**
   * A name with any character outside hex digits, whitespace, signs, `x`
   * and `_` is not an address, so a register name such as "Control1" goes
   * to the lookup by name.
   */
  lemma {:induction false} NamesAreNotAddresses(s: string, i: nat)
    requires i < |s| && Foreign(s[i])
    ensures ParseHex(s).None?
    ensures IsRegisterAddress(Name(s)) == Ok(false)
  {
    StripKeeps(s, i);
    var t := StripRight(StripLeft(s));
    SignedRejects(t, i - (|s| - |StripLeft(s)|));
  }

  lemma {:induction false} DigitsRejects(body: string, j: nat)
    requires j < |body| && Foreign(body[j])
    ensures Digits(body).None?
  {
    if HexDigitValue(body[0]).Some? {
      assert body[1..][j - 1] == body[j];
      DigitsFromRejects(body[1..], HexDigitValue(body[0]).value, j - 1);
    }
  }

  lemma {:induction false} UnsignedRejects(u: string, k: nat)
    requires k < |u| && Foreign(u[k])
    ensures ParseUnsigned(u).None?
  {
    if |u| >= 2 && u[0] == '0' && (u[1] == 'x' || u[1] == 'X') {
      var skip := if |u| >= 3 && u[2] == '_' then 3 else 2;
      assert u[skip..][k - skip] == u[k];
      DigitsRejects(u[skip..], k - skip);
    } else {
      DigitsRejects(u, k);
    }
  }

  lemma {:induction false} SignedRejects(t: string, k: nat)
    requires k < |t| && Foreign(t[k])
    ensures ParseSigned(t).None?
  {
    if t[0] == '-' || t[0] == '+' {
      assert t[1..][k - 1] == t[k];
      UnsignedRejects(t[1..], k - 1);
    } else {
      UnsignedRejects(t, k);
    }
  }

  /** Stripping keeps every character that is not whitespace. */
  lemma {:induction false} StripKeeps(s: string, i: nat)
    requires i < |s| && Foreign(s[i])
    ensures var l := StripLeft(s);
      var k := i - (|s| - |l|);
      0 <= k < |StripRight(l)| && Foreign(StripRight(l)[k])
  {
  }

  // ------------------------------------------------------------ lookups

  /**
   * The `regs` dict built from a chip's register list: each name maps to
   * the last register of the list with that name.
   */
  function ByName(table: seq<Register>, name: string): (r: Option<Register>)
    ensures r.Some? ==> r.value in table && r.value.name == name
    ensures r.None? <==> forall i :: 0 <= i < |table| ==> table[i].name != name
  {
    if table == [] then None
    else
      var last := table[|table| - 1];
      if last.name == name then Some(last) else ByName(table[..|table| - 1], name)
  }

  /**
   * `get_register` as written: a hex address reaches for `self.reg`, an
   * attribute no sensor defines (the dict is `self.regs`), and raises
   * AttributeError; a non-string raises TypeError in `is_register_address`;
   * any other string is looked up by name, and None when absent.
   */
  function GetRegister(table: seq<Register>, ref: Ref): (r: Result<Option<Register>>)
    ensures r.Raised? ==> r.exc == TypeError || r.exc == AttributeError
    ensures r.Raised? && r.exc == TypeError <==> !ref.Name?
    ensures r.Raised? && r.exc == AttributeError <==> IsRegisterAddress(ref) == Ok(true)
    ensures r.Ok? ==> r.value == ByName(table, ref.text)
  {
    match IsRegisterAddress(ref)
    case Raised(e) => Raised(e)
    case Ok(isAddr) => if isAddr then Raised(AttributeError) else Ok(ByName(table, ref.text))
  }

  /** The first register of the list at a one-byte address. */
  function AtAddress(table: seq<Register>, addr: int): (r: Option<Register>)
    ensures r.Some? ==> r.value in table && r.value.address == [addr]
    ensures r.None? <==> forall i :: 0 <= i < |table| ==> table[i].address != [addr]
  {
    if table == [] then None
    else if table[0].address == [addr] then Some(table[0])
    else AtAddress(table[1..], addr)
  }

  /**
   * `get_register` as evidently intended: a hex address is looked up among
   * the registers by their one-byte address, and an address no register has
   * gives a one-byte "unknown" register at it; a `Register` object is used
   * as it is. An int still raises TypeError: no branch takes one.
   */
  function GetRegisterCorrected(table: seq<Register>, ref: Ref): (r: Result<Option<Register>>)
    ensures r.Raised? <==> ref.Number?
    ensures r.Raised? ==> r.exc == TypeError
    ensures ref.Object? ==> r == Ok(Some(ref.reg))
    ensures IsRegisterAddress(ref) == Ok(true) ==>
      var v := ParseHex(ref.text).value;
      && r.Ok? && r.value.Some? && r.value.value.address == [v]
      && (r.value.value in table || r.value.value == Register("unknown", [v], "RW", Some(0)))
    ensures IsRegisterAddress(ref) == Ok(false) ==> r == Ok(ByName(table, ref.text))
  {
    if ref.Object? then Ok(Some(ref.reg))
    else
      match IsRegisterAddress(ref)
      case Raised(e) => Raised(e)
      case Ok(isAddr) =>
        if isAddr then
          var v := ParseHex(ref.text).value;
          match AtAddress(table, v)
          case Some(reg) => Ok(Some(reg))
          case None => Ok(Some(Register("unknown", [v], "RW", Some(0))))
        else Ok(ByName(table, ref.text))
  }

  /** Both lookups agree on names that are not hex addresses, and on ints. */
  lemma {:induction false} LookupsAgreeOnNames(table: seq<Register>, ref: Ref)
    requires !ref.Object? && IsRegisterAddress(ref) != Ok(true)
    ensures GetRegister(table, ref) == GetRegisterCorrected(table, ref)
  {
  }

  /** As written, any hex address below 0xFF raises, whatever registers the chip has. */
  lemma {:induction false} AddressLookupRaises(table: seq<Register>, n: nat)
    requires n < 0xFF
    ensures GetRegister(table, Name(HexLower(n))) == Raised(AttributeError)
    ensures GetRegisterCorrected(table, Name(HexLower(n))).Ok?
  {
    HexTextIsAddress(n);
  }

  // ------------------------------------------------- big-endian values

  /** The value loop of the reads: `value = value * 256 + b` over the bytes. */
  function BeValue(bytes: seq<int>): int
  {
    if bytes == [] then 0 else 256 * BeValue(bytes[..|bytes| - 1]) + bytes[|bytes| - 1]
  }

  function Pow256(k: nat): (r: nat)
    ensures r >= 1
  {
    if k == 0 then 1 else 256 * Pow256(k - 1)
  }

  /**
   * `[(val >> (8 * i)) & 0xFF for i in range(size - 1, -1, -1)]`: the low
   * `size` bytes of the value, most significant first.
   */
  function BeBytes(v: int, size: nat): (r: seq<int>)
    ensures |r| == size && IsBytes(r)
    decreases size
  {
    if size == 0 then [] else BeBytes(v / 256, size - 1) + [v % 256]
  }

  /** A byte of `BeBytes` is the value shifted right by its weight, masked. */
  lemma {:induction false} BeBytesAt(v: int, size: nat, i: nat)
    requires i < size
    ensures BeBytes(v, size)[i] == (v / Pow256(size - 1 - i)) % 256
    decreases size
  {
    if i < size - 1 {
      BeBytesAt(v / 256, size - 1, i);
      DivDiv(v, 256, Pow256(size - 2 - i));
    }
  }

  lemma {:induction false} DivDiv(v: int, a: int, b: int)
    requires a > 0 && b > 0
    ensures v / a / b == v / (a * b)
  {
    var q := v / a / b;
    var r := v / a % b;
    var s := v % a;
    assert v == a * (b * q + r) + s;
    assert v == (a * b) * q + (a * r + s);
    assert 0 <= a * r + s < a * b by {
      assert a * r <= a * (b - 1);
    }
    DivModUnique(v, a * b, q, a * r + s);
  }

  /** The low bytes of v: its low byte under 256 times the low bytes of v / 256. */
  lemma {:induction false} ModOfShifted(v: int, p: int)
    requires p > 0
    ensures v % (256 * p) == 256 * ((v / 256) % p) + v % 256
  {
    var q := (v / 256) / p;
    var r := (v / 256) % p;
    assert v / 256 == p * q + r;
    assert v == 256 * (p * q + r) + v % 256;
    assert v == (256 * p) * q + (256 * r + v % 256);
    assert 0 <= 256 * r + v % 256 < 256 * p by {
      assert r <= p - 1;
      assert 256 * r <= 256 * (p - 1);
    }
    DivModUnique(v, 256 * p, q, 256 * r + v % 256);
  }

  /** Reading back the bytes of a write gives the value modulo 256^size. */
  lemma {:induction false} BeRoundTrip(v: int, size: nat)
    ensures BeValue(BeBytes(v, size)) == v % Pow256(size)
    decreases size
  {
    if size > 0 {
      var b := BeBytes(v, size);
      assert b[..size - 1] == BeBytes(v / 256, size - 1);
      assert b[size - 1] == v % 256;
      BeRoundTrip(v / 256, size - 1);
      ModOfShifted(v, Pow256(size - 1));
    }
  }

  /** Every byte list is the encoding of its own value. */
  lemma {:induction false} BeBytesOfValue(bytes: seq<int>)
    requires IsBytes(bytes)
    ensures 0 <= BeValue(bytes) < Pow256(|bytes|)
    ensures BeBytes(BeValue(bytes), |bytes|) == bytes
    decreases |bytes|
  {
    if bytes != [] {
      var init := bytes[..|bytes| - 1];
      BeBytesOfValue(init);
      var v := BeValue(bytes);
      var last := bytes[|bytes| - 1];
      assert v == 256 * BeValue(init) + last;
      assert v / 256 == BeValue(init) && v % 256 == last by {
        DivModUnique(v, 256, BeValue(init), last);
      }
      assert bytes == init + [last];
    }
  }
}
