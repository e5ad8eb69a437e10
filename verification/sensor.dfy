/**
 * Register access on a sensor (`Sensor.read_register`, `write_register`
 * and `read_registers` in sensor/sensor.py).
 *
 * A sensor talks through its interface: chip select, firmware stop and
 * resume, and SPI transfers (modelled in SensorInterface). Here the
 * interface is a `Bus`: the calls made on it are logged in order, and the
 * bytes each transfer reads back are inputs, None when the device did not
 * answer.
 */
module Sensor {
  import opened Wrappers
  import opened Bits
  import opened Registers

  /** Or-ed into an address byte to read it. */
  const ReadMask := 0x80
  /** Or-ed into an address byte to write it. */
  const WriteMask := 0x00
  /** Sent last, to clock out the final byte. */
  const IdleByte := 0x80
  /** `read_registers` sends at most this many address bytes per transfer. */
  const MaxBatch := 14

  /** A call on the sensor interface. */
  datatype Op =
    | Transfer(sdo: seq<int>)
    | CsEnable
    | CsDisable
    | FwStop
    | FwResume
    | Progress(percent: int)

  datatype Bus = Bus(replies: seq<Option<seq<int>>>, log: seq<Op>)

  /** `transmission(sdo)`: logged, and the next answer read. */
  function Transmit(bus: Bus, sdo: seq<int>): (r: (Bus, Option<seq<int>>))
    ensures r.0.log == bus.log + [Transfer(sdo)]
    ensures bus.replies != [] ==> r.1 == bus.replies[0] && r.0.replies == bus.replies[1..]
    ensures bus.replies == [] ==> r.1.None? && r.0.replies == []
  {
    if bus.replies == [] then (bus.(log := bus.log + [Transfer(sdo)]), None)
    else (Bus(bus.replies[1..], bus.log + [Transfer(sdo)]), bus.replies[0])
  }

  /** An interface call that reads nothing back. */
  function Signal(bus: Bus, op: Op): (b: Bus)
    ensures b == bus.(log := bus.log + [op])
  {
    bus.(log := bus.log + [op])
  }

  /**
   * The loop `value = value * 256 + sdi[i + offset]` over `size` bytes.
   * A missing answer raises TypeError at the first subscript, a short one
   * IndexError.
   */
  function ReplyValue(sdi: Option<seq<int>>, offset: nat, size: nat): (r: Result<int>)
    ensures size == 0 ==> r == Ok(0)
    ensures size > 0 && sdi.None? ==> r == Raised(TypeError)
    ensures size > 0 && sdi.Some? ==> (r.Ok? <==> offset + size <= |sdi.value|)
    ensures r.Raised? ==> r.exc in {TypeError, IndexError}
    ensures r.Ok? && size > 0 ==> r.value == BeValue(sdi.value[offset..offset + size])
  {
    if size == 0 then Ok(0)
    else if sdi.None? then Raised(TypeError)
    else if offset + size > |sdi.value| then Raised(IndexError)
    else Ok(BeValue(sdi.value[offset..offset + size]))
  }

  /** The address bytes of a register, each or-ed with a mask. */
  function Masked(address: seq<int>, mask: int): (r: seq<int>)
    ensures |r| == |address|
    ensures forall i :: 0 <= i < |r| ==> r[i] == BitOr(address[i], mask)
  {
    seq(|address|, i requires 0 <= i < |address| => BitOr(address[i], mask))
  }

  /** What `read_register` sends: every address byte with the read bit, then the idle byte. */
  function ReadCommand(reg: Register): (sdo: seq<int>)
    ensures |sdo| == reg.Size() + 1
    ensures sdo[..reg.Size()] == Masked(reg.address, ReadMask) && sdo[reg.Size()] == IdleByte
  {
    Masked(reg.address, ReadMask) + [IdleByte]
  }

  /**
   * The body of `read_register` once `get_register` has answered: a
   * lookup that raised raises, one that found nothing gives None without a
   * transfer; otherwise one transfer, and the value is the answer's bytes 1
   * to size, most significant first.
   */
  function ReadFound(bus: Bus, found: Result<Option<Register>>): (r: (Bus, Result<Option<int>>))
    ensures |r.0.log| >= |bus.log| && r.0.log[..|bus.log|] == bus.log
    ensures found.Raised? ==> r == (bus, Raised(found.exc))
    ensures found == Ok(None) ==> r == (bus, Ok(None))
    ensures found.Ok? && found.value.Some? ==>
      var reg := found.value.value;
      var sdi := Transmit(bus, ReadCommand(reg)).1;
      && r.0 == Transmit(bus, ReadCommand(reg)).0
      && (r.1.Ok? <==> ReplyValue(sdi, 1, reg.Size()).Ok?)
      && (r.1.Ok? ==> r.1.value == Some(ReplyValue(sdi, 1, reg.Size()).value))
      && (r.1.Raised? ==> r.1.exc == ReplyValue(sdi, 1, reg.Size()).exc)
  {
    match found
    case Raised(e) => (bus, Raised(e))
    case Ok(found) =>
      if found.None? then (bus, Ok(None))
      else
        var reg := found.value;
        var t := Transmit(bus, ReadCommand(reg));
        match ReplyValue(t.1, 1, reg.Size())
        case Raised(e) => (t.0, Raised(e))
        case Ok(v) => (t.0, Ok(Some(v)))
  }

  /**
   * `read_register(ref)` as written: a hex address raises AttributeError
   * and anything but a string TypeError, both before any transfer; a name
   * is read as the register of that name, None when there is none.
   */
  function ReadRegister(table: seq<Register>, bus: Bus, ref: Ref): (r: (Bus, Result<Option<int>>))
    ensures |r.0.log| >= |bus.log| && r.0.log[..|bus.log|] == bus.log
    ensures IsRegisterAddress(ref) == Ok(true) ==> r == (bus, Raised(AttributeError))
    ensures !ref.Name? ==> r == (bus, Raised(TypeError))
    ensures GetRegister(table, ref) == Ok(None) ==> r == (bus, Ok(None))
    ensures IsRegisterAddress(ref) == Ok(false) && ByName(table, ref.text).Some? ==>
      r == ReadFound(bus, Ok(ByName(table, ref.text)))
  {
    ReadFound(bus, GetRegister(table, ref))
  }

  /**
   * `read_register(ref)` with the corrected lookup: a hex address and a
   * `Register` object are read like a name.
   */
  function ReadRegisterCorrected(table: seq<Register>, bus: Bus, ref: Ref): (r: (Bus, Result<Option<int>>))
    ensures |r.0.log| >= |bus.log| && r.0.log[..|bus.log|] == bus.log
    ensures ref.Number? ==> r == (bus, Raised(TypeError))
    ensures ref.Object? ==> r == ReadFound(bus, Ok(Some(ref.reg)))
    ensures IsRegisterAddress(ref) == Ok(true) ==>
      var v := ParseHex(ref.text).value;
      var reg := if AtAddress(table, v).Some? then AtAddress(table, v).value else Register("unknown", [v], "RW", Some(0));
      r == ReadFound(bus, Ok(Some(reg)))
  {
    ReadFound(bus, GetRegisterCorrected(table, ref))
  }

  /** Away from hex addresses and `Register` objects, both lookups read the same. */
  lemma {:induction false} ReadRegisterAgrees(table: seq<Register>, bus: Bus, ref: Ref)
    requires !ref.Object? && IsRegisterAddress(ref) != Ok(true)
    ensures ReadRegister(table, bus, ref) == ReadRegisterCorrected(table, bus, ref)
  {
    LookupsAgreeOnNames(table, ref);
  }

  /**
   * A register whose answer carries its value after the first byte reads
   * as that value, modulo 256^size.
   */
  lemma {:induction false} ReadRegisterRoundTrip(table: seq<Register>, bus: Bus, ref: Ref, reg: Register, first: int, v: int, rest: seq<int>)
    requires GetRegister(table, ref) == Ok(Some(reg))
    requires bus.replies != [] && bus.replies[0] == Some([first] + BeBytes(v, reg.Size()) + rest)
    ensures ReadRegister(table, bus, ref).1 == Ok(Some(v % Pow256(reg.Size())))
    ensures ReadRegister(table, bus, ref).0.log == bus.log + [Transfer(ReadCommand(reg))]
  {
    var n := reg.Size();
    var sdi := [first] + BeBytes(v, n) + rest;
    assert ReadRegister(table, bus, ref) == ReadFound(bus, Ok(Some(reg)));
    assert sdi[1..1 + n] == BeBytes(v, n);
    BeRoundTrip(v, n);
  }

  /** `[f(i) for i in range(size) for f in (address, value byte)]`: the two lists alternated. */
  function Interleave(a: seq<int>, b: seq<int>): (r: seq<int>)
    requires |a| == |b|
    ensures |r| == 2 * |a|
    ensures forall i :: 0 <= i < |a| ==> r[2 * i] == a[i] && r[2 * i + 1] == b[i]
  {
    if a == [] then []
    else
      var t := Interleave(a[1..], b[1..]);
      var r := [a[0], b[0]] + t;
      assert forall i :: 1 <= i < |a| ==> r[2 * i] == t[2 * (i - 1)] && r[2 * i + 1] == t[2 * (i - 1) + 1];
      r
  }

  /** The odd positions of an alternated list. */
  function Odds(s: seq<int>): (r: seq<int>)
    ensures |r| == |s| / 2
    ensures forall i :: 0 <= i < |r| ==> r[i] == s[2 * i + 1]
  {
    seq(|s| / 2, i requires 0 <= i < |s| / 2 => s[2 * i + 1])
  }

  /**
   * What `write_register` sends: each address byte (or-ed with the write
   * mask, which leaves it unchanged) followed by the value's byte of the
   * same rank, most significant first; then the idle byte.
   */
  function WriteCommand(reg: Register, val: int): (sdo: seq<int>)
    ensures |sdo| == 2 * reg.Size() + 1 && sdo[2 * reg.Size()] == IdleByte
  {
    Interleave(Masked(reg.address, WriteMask), BeBytes(val, reg.Size())) + [IdleByte]
  }

  /**
   * The write command addresses the register byte by byte, and the value
   * bytes it carries read back as the value modulo 256^size.
   */
  lemma {:induction false} WriteCommandCarriesValue(reg: Register, val: int)
    ensures var sdo := WriteCommand(reg, val);
      && (forall i :: 0 <= i < reg.Size() ==> sdo[2 * i] == reg.address[i])
      && BeValue(Odds(sdo[..2 * reg.Size()])) == val % Pow256(reg.Size())
  {
    var n := reg.Size();
    var sdo := WriteCommand(reg, val);
    var inter := Interleave(Masked(reg.address, WriteMask), BeBytes(val, n));
    assert sdo[..2 * n] == inter;
    assert Odds(inter) == BeBytes(val, n);
    BeRoundTrip(val, n);
  }

  /**
   * The body of `write_register` once `get_register` has answered: one
   * transfer of the write command, and the bytes read back during it, as
   * `read_register` reads them. A lookup that found nothing falls through
   * to `transmission([ref | write_mask, val])`, where or-ing a string
   * raises TypeError before anything is sent.
   */
  function WriteFound(bus: Bus, found: Result<Option<Register>>, val: int): (r: (Bus, Result<int>))
    ensures |r.0.log| >= |bus.log| && r.0.log[..|bus.log|] == bus.log
    ensures found.Raised? ==> r == (bus, Raised(found.exc))
    ensures found == Ok(None) ==> r == (bus, Raised(TypeError))
    ensures found.Ok? && found.value.Some? ==>
      var reg := found.value.value;
      && r.0 == Transmit(bus, WriteCommand(reg, val)).0
      && r.1 == ReplyValue(Transmit(bus, WriteCommand(reg, val)).1, 1, reg.Size())
  {
    match found
    case Raised(e) => (bus, Raised(e))
    case Ok(found) =>
      if found.None? then (bus, Raised(TypeError))
      else
        var reg := found.value;
        var t := Transmit(bus, WriteCommand(reg, val));
        (t.0, ReplyValue(t.1, 1, reg.Size()))
  }

  /**
   * `write_register(ref, val)` as written: a hex address raises
   * AttributeError, anything but a string TypeError, and so does a name
   * with no register; a register's name is written with one transfer.
   */
  function WriteRegister(table: seq<Register>, bus: Bus, ref: Ref, val: int): (r: (Bus, Result<int>))
    ensures |r.0.log| >= |bus.log| && r.0.log[..|bus.log|] == bus.log
    ensures IsRegisterAddress(ref) == Ok(true) ==> r == (bus, Raised(AttributeError))
    ensures !ref.Name? ==> r == (bus, Raised(TypeError))
    ensures GetRegister(table, ref) == Ok(None) ==> r == (bus, Raised(TypeError))
    ensures IsRegisterAddress(ref) == Ok(false) && ByName(table, ref.text).Some? ==>
      var reg := ByName(table, ref.text).value;
      && r.0 == Transmit(bus, WriteCommand(reg, val)).0
      && r.1 == ReplyValue(Transmit(bus, WriteCommand(reg, val)).1, 1, reg.Size())
  {
    WriteFound(bus, GetRegister(table, ref), val)
  }

  /**
   * `write_register(ref, val)` with the corrected lookup: a hex address
   * and a `Register` object are written like a name.
   */
  function WriteRegisterCorrected(table: seq<Register>, bus: Bus, ref: Ref, val: int): (r: (Bus, Result<int>))
    ensures |r.0.log| >= |bus.log| && r.0.log[..|bus.log|] == bus.log
    ensures ref.Number? ==> r == (bus, Raised(TypeError))
    ensures ref.Object? ==> r.0 == Transmit(bus, WriteCommand(ref.reg, val)).0
    ensures IsRegisterAddress(ref) == Ok(true) ==>
      var v := ParseHex(ref.text).value;
      var reg := if AtAddress(table, v).Some? then AtAddress(table, v).value else Register("unknown", [v], "RW", Some(0));
      r.0 == Transmit(bus, WriteCommand(reg, val)).0
  {
    WriteFound(bus, GetRegisterCorrected(table, ref), val)
  }

  // ------------------------------------------------------ read_registers

  function Total(regs: seq<Register>): nat
  {
    if regs == [] then 0 else Total(regs[..|regs| - 1]) + regs[|regs| - 1].Size()
  }

  /** The address bytes of a batch, read bits set, in register order. */
  function ReadAddresses(regs: seq<Register>): (r: seq<int>)
    ensures |r| == Total(regs)
  {
    if regs == [] then [] else ReadAddresses(regs[..|regs| - 1]) + Masked(regs[|regs| - 1].address, ReadMask)
  }

  /** The transfer for a batch: its address bytes, then the idle byte. */
  function BatchCommand(regs: seq<Register>): (sdo: seq<int>)
    ensures |sdo| == Total(regs) + 1
  {
    ReadAddresses(regs) + [IdleByte]
  }

  /**
   * The values of a batch from its answer: each register's bytes follow the
   * previous register's, from `offset` on.
   */
  function DecodeBatch(sdi: seq<int>, offset: nat, regs: seq<Register>): (r: Result<seq<int>>)
    ensures r.Raised? ==> r.exc == IndexError
    ensures r.Ok? ==> |r.value| == |regs|
    decreases |regs|
  {
    if regs == [] then Ok([])
    else
      match ReplyValue(Some(sdi), offset, regs[0].Size())
      case Raised(e) => Raised(e)
      case Ok(v) =>
        match DecodeBatch(sdi, offset + regs[0].Size(), regs[1..])
        case Raised(e) => Raised(e)
        case Ok(vs) => Ok([v] + vs)
  }

  /** The bytes a sensor answers for a batch: each register's value after the previous one. */
  function BatchAnswer(regs: seq<Register>, vals: seq<int>): (r: seq<int>)
    requires |vals| == |regs|
    ensures |r| == Total(regs)
  {
    if regs == [] then []
    else BatchAnswer(regs[..|regs| - 1], vals[..|vals| - 1]) + BeBytes(vals[|vals| - 1], regs[|regs| - 1].Size())
  }

  /** Each value cut to its register's width. */
  function Reduced(regs: seq<Register>, vals: seq<int>): (r: seq<int>)
    requires |vals| == |regs|
    ensures |r| == |regs|
    decreases |regs|
  {
    if regs == [] then [] else [vals[0] % Pow256(regs[0].Size())] + Reduced(regs[1..], vals[1..])
  }

  /** The i-th reduced value is the i-th value modulo 256 to the width of the i-th register. */
  lemma {:induction false} ReducedValues(regs: seq<Register>, vals: seq<int>)
    requires |vals| == |regs|
    ensures forall i :: 0 <= i < |regs| ==> Reduced(regs, vals)[i] == vals[i] % Pow256(regs[i].Size())
    decreases |regs|
  {
    if regs != [] {
      ReducedValues(regs[1..], vals[1..]);
      forall i | 0 < i < |regs|
        ensures Reduced(regs, vals)[i] == vals[i] % Pow256(regs[i].Size())
      {
        assert Reduced(regs, vals)[i] == Reduced(regs[1..], vals[1..])[i - 1];
        assert regs[1..][i - 1] == regs[i] && vals[1..][i - 1] == vals[i];
      }
    }
  }

  /** A batch answered with its registers' values gives them back in order, each modulo its width. */
  lemma {:induction false} DecodeBatchRoundTrip(prefix: seq<int>, regs: seq<Register>, vals: seq<int>, rest: seq<int>)
    requires |vals| == |regs|
    ensures DecodeBatch(prefix + BatchAnswer(regs, vals) + rest, |prefix|, regs) == Ok(Reduced(regs, vals))
  {
    var sdi := prefix + BatchAnswer(regs, vals) + rest;
    assert sdi[|prefix|..|prefix| + Total(regs)] == BatchAnswer(regs, vals);
    DecodeBatchAt(sdi, |prefix|, regs, vals);
  }

  /** Decoding from `offset` where the batch's answer sits in the reply gives back the reduced values. */
  lemma {:induction false} DecodeBatchAt(sdi: seq<int>, offset: nat, regs: seq<Register>, vals: seq<int>)
    requires |vals| == |regs| && offset + Total(regs) <= |sdi|
    requires sdi[offset..offset + Total(regs)] == BatchAnswer(regs, vals)
    ensures DecodeBatch(sdi, offset, regs) == Ok(Reduced(regs, vals))
    decreases |regs|
  {
    if regs != [] {
      var n := regs[0].Size();
      TailAnswerAt(sdi, offset, regs, vals);
      DecodeBatchAt(sdi, offset + n, regs[1..], vals[1..]);
      HeadAnswerAt(sdi, offset, regs, vals);
      DecodeBatchStep(sdi, offset, regs, vals[0] % Pow256(n), Reduced(regs[1..], vals[1..]));
    }
  }

  /** Where a batch's answer sits, the first register's bytes decode to its value. */
  lemma {:induction false} HeadAnswerAt(sdi: seq<int>, offset: nat, regs: seq<Register>, vals: seq<int>)
    requires |vals| == |regs| && regs != [] && offset + Total(regs) <= |sdi|
    requires sdi[offset..offset + Total(regs)] == BatchAnswer(regs, vals)
    ensures ReplyValue(Some(sdi), offset, regs[0].Size()) == Ok(vals[0] % Pow256(regs[0].Size()))
  {
    var b := BeBytes(vals[0], regs[0].Size());
    BatchAnswerFirst(regs, vals);
    SliceHead(sdi, offset, offset + Total(regs), b, BatchAnswer(regs[1..], vals[1..]));
    BeRoundTrip(vals[0], regs[0].Size());
    if b != [] {
      ReplyOfSlice(sdi, offset, b);
    }
  }

  /** Where a batch's answer sits, the answer of the other registers follows the first's bytes. */
  lemma {:induction false} TailAnswerAt(sdi: seq<int>, offset: nat, regs: seq<Register>, vals: seq<int>)
    requires |vals| == |regs| && regs != [] && offset + Total(regs) <= |sdi|
    requires sdi[offset..offset + Total(regs)] == BatchAnswer(regs, vals)
    ensures offset + regs[0].Size() + Total(regs[1..]) <= |sdi|
    ensures sdi[offset + regs[0].Size()..offset + regs[0].Size() + Total(regs[1..])] == BatchAnswer(regs[1..], vals[1..])
  {
    BatchAnswerFirst(regs, vals);
    SliceTail(sdi, offset, offset + Total(regs), BeBytes(vals[0], regs[0].Size()), BatchAnswer(regs[1..], vals[1..]));
  }

  /** A slice holding `x + y` starts with `x`. */
  lemma {:induction false} SliceHead(s: seq<int>, lo: nat, hi: nat, x: seq<int>, y: seq<int>)
    requires lo <= hi <= |s| && s[lo..hi] == x + y
    ensures lo + |x| <= hi && s[lo..lo + |x|] == x
  {
    assert s[lo..lo + |x|] == s[lo..hi][..|x|];
  }

  /** A slice holding `x + y` ends with `y`. */
  lemma {:induction false} SliceTail(s: seq<int>, lo: nat, hi: nat, x: seq<int>, y: seq<int>)
    requires lo <= hi <= |s| && s[lo..hi] == x + y
    ensures lo + |x| + |y| == hi && s[lo + |x|..hi] == y
  {
    assert s[lo + |x|..hi] == s[lo..hi][|x|..];
  }

  /** The bytes the reply holds at `offset` give the value read there. */
  lemma {:induction false} ReplyOfSlice(sdi: seq<int>, offset: nat, b: seq<int>)
    requires b != [] && offset + |b| <= |sdi| && sdi[offset..offset + |b|] == b
    ensures ReplyValue(Some(sdi), offset, |b|) == Ok(BeValue(b))
  {
  }

  /** DecodeBatch takes the first register's value, then the rest's. */
  lemma {:induction false} DecodeBatchStep(sdi: seq<int>, offset: nat, regs: seq<Register>, v: int, vs: seq<int>)
    requires regs != []
    requires ReplyValue(Some(sdi), offset, regs[0].Size()) == Ok(v)
    requires DecodeBatch(sdi, offset + regs[0].Size(), regs[1..]) == Ok(vs)
    ensures DecodeBatch(sdi, offset, regs) == Ok([v] + vs)
  {
  }

  /** The answer of a batch seen from the front: the first value, then the others'. */
  lemma {:induction false} BatchAnswerFirst(regs: seq<Register>, vals: seq<int>)
    requires |vals| == |regs| && regs != []
    ensures BatchAnswer(regs, vals) == BeBytes(vals[0], regs[0].Size()) + BatchAnswer(regs[1..], vals[1..])
    decreases |regs|
  {
    if |regs| > 1 {
      var k := |regs| - 1;
      var head := BeBytes(vals[0], regs[0].Size());
      var last := BeBytes(vals[k], regs[k].Size());
      var middle := BatchAnswer(regs[1..][..k - 1], vals[1..][..k - 1]);
      BatchAnswerFirst(regs[..k], vals[..k]);
      assert regs[..k][1..] == regs[1..][..k - 1];
      assert vals[..k][1..] == vals[1..][..k - 1];
      assert BatchAnswer(regs, vals) == BatchAnswer(regs[..k], vals[..k]) + last;
      assert BatchAnswer(regs[1..], vals[1..]) == middle + last;
      assert BatchAnswer(regs, vals) == head + middle + last;
    }
  }

  /**
   * Sends a batch and decodes its answer. No answer, or an empty one, gives
   * no values for the batch; a short one raises IndexError.
   */
  function Flush(bus: Bus, regs: seq<Register>): (r: (Bus, Result<seq<int>>))
    ensures r.0 == Transmit(bus, BatchCommand(regs)).0
    ensures var sdi := Transmit(bus, BatchCommand(regs)).1;
      && (sdi.None? || sdi.value == [] ==> r.1 == Ok([]))
      && (sdi.Some? && sdi.value != [] ==> r.1 == DecodeBatch(sdi.value, 1, regs))
  {
    var t := Transmit(bus, BatchCommand(regs));
    if t.1.None? || t.1.value == [] then (t.0, Ok([]))
    else (t.0, DecodeBatch(t.1.value, 1, regs))
  }

  /**
   * What `get_register` as written gives for each reference: AttributeError
   * for a hex address, TypeError for anything but a string, otherwise the
   * register of that name if any.
   */
  function Lookups(table: seq<Register>, refs: seq<Ref>): (found: seq<Result<Option<Register>>>)
    ensures |found| == |refs|
    ensures forall k :: 0 <= k < |refs| ==>
      && (IsRegisterAddress(refs[k]) == Ok(true) ==> found[k] == Raised(AttributeError))
      && (!refs[k].Name? ==> found[k] == Raised(TypeError))
      && (IsRegisterAddress(refs[k]) == Ok(false) ==> found[k] == Ok(ByName(table, refs[k].text)))
  {
    seq(|refs|, k requires 0 <= k < |refs| => GetRegister(table, refs[k]))
  }

  /**
   * What the corrected `get_register` gives for each reference: an int
   * alone raises, a `Register` object is itself, a hex address finds a
   * register at that address.
   */
  function LookupsCorrected(table: seq<Register>, refs: seq<Ref>): (found: seq<Result<Option<Register>>>)
    ensures |found| == |refs|
    ensures forall k :: 0 <= k < |refs| ==>
      && (found[k].Raised? <==> refs[k].Number?)
      && (refs[k].Object? ==> found[k] == Ok(Some(refs[k].reg)))
      && (IsRegisterAddress(refs[k]) == Ok(true) ==>
            found[k].Ok? && found[k].value.Some? && found[k].value.value.address == [ParseHex(refs[k].text).value])
      && (IsRegisterAddress(refs[k]) == Ok(false) ==> found[k] == Ok(ByName(table, refs[k].text)))
  {
    seq(|refs|, k requires 0 <= k < |refs| => GetRegisterCorrected(table, refs[k]))
  }

  /**
   * The loop of `read_registers` over the remaining lookups, with the batch
   * being gathered (`pending`) and the values so far (`ans`). A register
   * that would take the batch past 14 bytes first sends the batch; the last
   * batch is sent after the loop. An unknown reference returns None at
   * once, after the batches already sent. (The lookups are pure, so
   * resolving them before the loop changes nothing.)
   */
  function ReadLoop(bus: Bus, found: seq<Result<Option<Register>>>,
                    pending: seq<Register>, ans: seq<int>): (r: (Bus, Result<Option<seq<int>>>))
    ensures r.1.Ok? && r.1.value.Some? ==> |ans| <= |r.1.value.value| <= |ans| + |pending| + |found|
    ensures r.1.Ok? && r.1.value.Some? ==> r.1.value.value[..|ans|] == ans
    ensures |r.0.log| >= |bus.log| && r.0.log[..|bus.log|] == bus.log
    ensures r.1.Ok? && r.1.value.Some? ==> |r.0.log| > |bus.log|
    decreases |found|
  {
    if found == [] then
      var f := Flush(bus, pending);
      match f.1
      case Raised(e) => (f.0, Raised(e))
      case Ok(vals) => (f.0, Ok(Some(ans + vals)))
    else
      match found[0]
      case Raised(e) => (bus, Raised(e))
      case Ok(lookup) =>
        if lookup.None? then (bus, Ok(None))
        else
          var reg := lookup.value;
          if Total(pending) + reg.Size() > MaxBatch then
            var f := Flush(bus, pending);
            match f.1
            case Raised(e) => (f.0, Raised(e))
            case Ok(vals) =>
              var r := ReadLoop(f.0, found[1..], [reg], ans + vals);
              assert (ans + vals)[..|ans|] == ans;
              r
          else ReadLoop(bus, found[1..], pending + [reg], ans)
  }

  /**
   * The loop returns None only at a lookup that found nothing, and raises
   * only what a lookup raised or IndexError from a short answer.
   */
  lemma {:induction false} ReadLoopFailures(bus: Bus, found: seq<Result<Option<Register>>>,
                                            pending: seq<Register>, ans: seq<int>)
    ensures var r := ReadLoop(bus, found, pending, ans);
      && (r.1 == Ok(None) ==> exists k :: 0 <= k < |found| && found[k] == Ok(None))
      && (r.1.Raised? ==> r.1.exc == IndexError || exists k :: 0 <= k < |found| && found[k] == Raised(r.1.exc))
    decreases |found|
  {
    if found != [] && found[0].Ok? && found[0].value.Some? {
      var reg := found[0].value.value;
      if Total(pending) + reg.Size() > MaxBatch {
        var f := Flush(bus, pending);
        if f.1.Ok? {
          ReadLoopFailures(f.0, found[1..], [reg], ans + f.1.value);
          LaterLookup(found);
        }
      } else {
        ReadLoopFailures(bus, found[1..], pending + [reg], ans);
        LaterLookup(found);
      }
    }
  }

  /** A lookup of the rest of the list is a lookup of the list. */
  lemma {:induction false} LaterLookup(found: seq<Result<Option<Register>>>)
    requires found != []
    ensures forall k :: 0 <= k < |found| - 1 ==> found[1..][k] == found[k + 1]
  {
  }

  /**
   * `read_registers(refs)` as written: None only for a name with no
   * register; AttributeError from a hex address, TypeError from anything
   * but a string, or IndexError from a short answer.
   */
  function ReadRegisters(table: seq<Register>, bus: Bus, refs: seq<Ref>): (r: (Bus, Result<Option<seq<int>>>))
    ensures r.1.Ok? && r.1.value.Some? ==> |r.1.value.value| <= |refs|
    ensures r.1 == Ok(None) ==> exists k :: 0 <= k < |refs| && refs[k].Name? && ByName(table, refs[k].text).None?
    ensures r.1.Raised? ==> r.1.exc in {TypeError, AttributeError, IndexError}
    ensures r.1.Raised? && r.1.exc == AttributeError ==> exists k :: 0 <= k < |refs| && IsRegisterAddress(refs[k]) == Ok(true)
  {
    ReadLoopFailures(bus, Lookups(table, refs), [], []);
    ReadLoop(bus, Lookups(table, refs), [], [])
  }

  /** `read_registers(refs)` with the corrected lookup: hex addresses and `Register` objects never fail it. */
  function ReadRegistersCorrected(table: seq<Register>, bus: Bus, refs: seq<Ref>): (r: (Bus, Result<Option<seq<int>>>))
    ensures r.1.Ok? && r.1.value.Some? ==> |r.1.value.value| <= |refs|
    ensures r.1 == Ok(None) ==> exists k :: 0 <= k < |refs| && refs[k].Name? && ByName(table, refs[k].text).None?
    ensures r.1.Raised? ==> r.1.exc in {TypeError, IndexError}
    ensures r.1.Raised? && r.1.exc == TypeError ==> exists k :: 0 <= k < |refs| && refs[k].Number?
  {
    ReadLoopFailures(bus, LookupsCorrected(table, refs), [], []);
    ReadLoop(bus, LookupsCorrected(table, refs), [], [])
  }

  /** As written, a hex address first in the list raises AttributeError before any transfer. */
  lemma {:induction false} ReadRegistersHexFirstRaises(table: seq<Register>, bus: Bus, refs: seq<Ref>)
    requires refs != [] && IsRegisterAddress(refs[0]) == Ok(true)
    ensures ReadRegisters(table, bus, refs) == (bus, Raised(AttributeError))
  {
  }

  /** Away from hex addresses and `Register` objects, both lookups read the same registers. */
  lemma {:induction false} ReadRegistersAgree(table: seq<Register>, bus: Bus, refs: seq<Ref>)
    requires forall k :: 0 <= k < |refs| ==> !refs[k].Object? && IsRegisterAddress(refs[k]) != Ok(true)
    ensures ReadRegisters(table, bus, refs) == ReadRegistersCorrected(table, bus, refs)
  {
    forall k | 0 <= k < |refs| ensures Lookups(table, refs)[k] == LookupsCorrected(table, refs)[k] {
      LookupsAgreeOnNames(table, refs[k]);
    }
    assert Lookups(table, refs) == LookupsCorrected(table, refs);
  }

  // ------------------------------------------------------------- batches

  /** Lookups that all found a register. */
  function Found(regs: seq<Register>): (found: seq<Result<Option<Register>>>)
    ensures |found| == |regs|
    ensures forall k :: 0 <= k < |regs| ==> found[k] == Ok(Some(regs[k]))
  {
    seq(|regs|, k requires 0 <= k < |regs| => Ok(Some(regs[k])))
  }

  /**
   * The batches of the loop from `pending` on: a register that does not fit
   * closes the current batch and opens the next; the last batch closes at
   * the end.
   */
  function BatchesFrom(regs: seq<Register>, pending: seq<Register>): (bs: seq<seq<Register>>)
    ensures |bs| >= 1
    decreases |regs|
  {
    if regs == [] then [pending]
    else if Total(pending) + regs[0].Size() > MaxBatch then [pending] + BatchesFrom(regs[1..], [regs[0]])
    else BatchesFrom(regs[1..], pending + [regs[0]])
  }

  function Batches(regs: seq<Register>): seq<seq<Register>>
  {
    BatchesFrom(regs, [])
  }

  function Flatten(bs: seq<seq<Register>>): seq<Register>
  {
    if bs == [] then [] else bs[0] + Flatten(bs[1..])
  }

  /** The transfers the batches make, in order. */
  function Sends(bs: seq<seq<Register>>): (ops: seq<Op>)
    ensures |ops| == |bs|
  {
    if bs == [] then [] else [Transfer(BatchCommand(bs[0]))] + Sends(bs[1..])
  }

  lemma {:induction false} TotalAppend(pending: seq<Register>, reg: Register)
    ensures Total(pending + [reg]) == Total(pending) + reg.Size()
  {
    assert (pending + [reg])[..|pending|] == pending;
  }

  /** The batches hold every register once, in order. */
  lemma {:induction false} BatchesKeepOrder(regs: seq<Register>, pending: seq<Register>)
    ensures Flatten(BatchesFrom(regs, pending)) == pending + regs
    decreases |regs|
  {
    if regs != [] {
      if Total(pending) + regs[0].Size() > MaxBatch {
        BatchesKeepOrder(regs[1..], [regs[0]]);
        assert [regs[0]] + regs[1..] == regs;
      } else {
        BatchesKeepOrder(regs[1..], pending + [regs[0]]);
        assert pending + [regs[0]] + regs[1..] == pending + regs;
      }
    }
  }

  /**
   * Every batch fits in 14 address bytes unless it is a single register
   * that alone exceeds them; so when every register fits, every transfer
   * has at most 15 bytes and the interface's cut at 15 never applies.
   */
  lemma {:induction false} BatchesFit(regs: seq<Register>, pending: seq<Register>)
    requires Total(pending) <= MaxBatch || |pending| == 1
    ensures forall k :: 0 <= k < |BatchesFrom(regs, pending)| ==>
      Total(BatchesFrom(regs, pending)[k]) <= MaxBatch || |BatchesFrom(regs, pending)[k]| == 1
    decreases |regs|
  {
    if regs != [] {
      if Total(pending) + regs[0].Size() > MaxBatch {
        assert Total([regs[0]]) == regs[0].Size() by { assert [regs[0]][..0] == []; }
        BatchesFit(regs[1..], [regs[0]]);
      } else {
        TotalAppend(pending, regs[0]);
        BatchesFit(regs[1..], pending + [regs[0]]);
      }
    }
  }

  /**
   * The batching is greedy: each batch after the first starts with a
   * register that would not have fitted in the batch before it.
   */
  lemma {:induction false} BatchesAreGreedy(regs: seq<Register>, pending: seq<Register>)
    ensures var bs := BatchesFrom(regs, pending);
      forall k :: 0 < k < |bs| ==> bs[k] != [] && Total(bs[k - 1]) + bs[k][0].Size() > MaxBatch
    decreases |regs|
  {
    if regs != [] {
      var bs: seq<seq<Register>> := BatchesFrom(regs, pending);
      if Total(pending) + regs[0].Size() > MaxBatch {
        var tail := BatchesFrom(regs[1..], [regs[0]]);
        BatchesAreGreedy(regs[1..], [regs[0]]);
        BatchesStartWith(regs[1..], [regs[0]]);
        assert bs == [pending] + tail;
        forall k | 0 < k < |bs|
          ensures bs[k] != [] && Total(bs[k - 1]) + bs[k][0].Size() > MaxBatch
        {
          if k > 1 {
            assert bs[k] == tail[k - 1] && bs[k - 1] == tail[k - 2];
          }
        }
      } else {
        BatchesAreGreedy(regs[1..], pending + [regs[0]]);
        assert bs == BatchesFrom(regs[1..], pending + [regs[0]]);
      }
    }
  }

  /** A non-empty pending batch stays at the head of the first batch. */
  lemma {:induction false} BatchesStartWith(regs: seq<Register>, pending: seq<Register>)
    requires pending != []
    ensures BatchesFrom(regs, pending)[0] != [] && BatchesFrom(regs, pending)[0][0] == pending[0]
    decreases |regs|
  {
    if regs != [] && Total(pending) + regs[0].Size() <= MaxBatch {
      BatchesStartWith(regs[1..], pending + [regs[0]]);
    }
  }

  /** The transfers of the batches when the next register does not fit: the pending batch's, then the rest. */
  lemma {:induction false} SendsAtFlush(regs: seq<Register>, pending: seq<Register>)
    requires regs != [] && Total(pending) + regs[0].Size() > MaxBatch
    ensures Sends(BatchesFrom(regs, pending)) == [Transfer(BatchCommand(pending))] + Sends(BatchesFrom(regs[1..], [regs[0]]))
  {
    var bs := BatchesFrom(regs, pending);
    assert bs == [pending] + BatchesFrom(regs[1..], [regs[0]]);
    assert bs[1..] == BatchesFrom(regs[1..], [regs[0]]);
  }

  /**
   * When every reference names a register and nothing raises, the loop
   * makes exactly one transfer per batch, each the batch's address bytes
   * and the idle byte.
   */
  lemma {:induction false} ReadRegistersSendsBatches(bus: Bus, regs: seq<Register>, pending: seq<Register>, ans: seq<int>)
    requires ReadLoop(bus, Found(regs), pending, ans).1.Ok?
    ensures ReadLoop(bus, Found(regs), pending, ans).0.log == bus.log + Sends(BatchesFrom(regs, pending))
    ensures ReadLoop(bus, Found(regs), pending, ans).1.value.Some?
    decreases |regs|, 1
  {
    if regs == [] {
      ReadLoopEnd(bus, pending, ans);
    } else if Total(pending) + regs[0].Size() > MaxBatch {
      SendsBatchesAtFlush(bus, regs, pending, ans);
    } else {
      SendsBatchesAtJoin(bus, regs, pending, ans);
    }
  }

  /** The induction step of ReadRegistersSendsBatches at a register that does not fit. */
  lemma {:induction false} SendsBatchesAtFlush(bus: Bus, regs: seq<Register>, pending: seq<Register>, ans: seq<int>)
    requires regs != [] && Total(pending) + regs[0].Size() > MaxBatch
    requires ReadLoop(bus, Found(regs), pending, ans).1.Ok?
    ensures ReadLoop(bus, Found(regs), pending, ans).0.log == bus.log + Sends(BatchesFrom(regs, pending))
    ensures ReadLoop(bus, Found(regs), pending, ans).1.value.Some?
    decreases |regs|, 0
  {
    var f := Flush(bus, pending);
    ReadLoopAtFlush(bus, regs, pending, ans);
    ReadRegistersSendsBatches(f.0, regs[1..], [regs[0]], ans + f.1.value);
    SendsAtFlush(regs, pending);
    LogAfter(bus.log, Transfer(BatchCommand(pending)), Sends(BatchesFrom(regs[1..], [regs[0]])));
  }

  /** One more transfer ahead of a log's later transfers. */
  lemma {:induction false} LogAfter(log: seq<Op>, t: Op, later: seq<Op>)
    ensures log + [t] + later == log + ([t] + later)
  {
  }

  /** The induction step of ReadRegistersSendsBatches at a register that joins the batch. */
  lemma {:induction false} SendsBatchesAtJoin(bus: Bus, regs: seq<Register>, pending: seq<Register>, ans: seq<int>)
    requires regs != [] && Total(pending) + regs[0].Size() <= MaxBatch
    requires ReadLoop(bus, Found(regs), pending, ans).1.Ok?
    ensures ReadLoop(bus, Found(regs), pending, ans).0.log == bus.log + Sends(BatchesFrom(regs, pending))
    ensures ReadLoop(bus, Found(regs), pending, ans).1.value.Some?
    decreases |regs|, 0
  {
    assert BatchesFrom(regs, pending) == BatchesFrom(regs[1..], pending + [regs[0]]);
    ReadLoopAtJoin(bus, regs, pending, ans);
    ReadRegistersSendsBatches(bus, regs[1..], pending + [regs[0]], ans);
  }

  /** The end of the loop: the last batch is sent, and nothing raises unless its answer is short. */
  lemma {:induction false} ReadLoopEnd(bus: Bus, pending: seq<Register>, ans: seq<int>)
    ensures ReadLoop(bus, Found([]), pending, ans).0.log == bus.log + Sends(BatchesFrom([], pending))
    ensures ReadLoop(bus, Found([]), pending, ans).1.Ok? ==> ReadLoop(bus, Found([]), pending, ans).1.value.Some?
  {
    assert Found([]) == [];
    assert BatchesFrom([], pending) == [pending];
    assert Sends([pending]) == [Transfer(BatchCommand(pending))];
  }

  /** A turn of the loop at a register that does not fit: the pending batch is sent first, and must not raise. */
  lemma {:induction false} ReadLoopAtFlush(bus: Bus, regs: seq<Register>, pending: seq<Register>, ans: seq<int>)
    requires regs != [] && Total(pending) + regs[0].Size() > MaxBatch
    requires ReadLoop(bus, Found(regs), pending, ans).1.Ok?
    ensures Flush(bus, pending).1.Ok?
    ensures ReadLoop(bus, Found(regs), pending, ans)
      == ReadLoop(Flush(bus, pending).0, Found(regs[1..]), [regs[0]], ans + Flush(bus, pending).1.value)
  {
    assert Found(regs)[1..] == Found(regs[1..]);
    assert Found(regs)[0] == Ok(Some(regs[0]));
  }

  /** A turn of the loop at a register that joins the pending batch. */
  lemma {:induction false} ReadLoopAtJoin(bus: Bus, regs: seq<Register>, pending: seq<Register>, ans: seq<int>)
    requires regs != [] && Total(pending) + regs[0].Size() <= MaxBatch
    ensures ReadLoop(bus, Found(regs), pending, ans) == ReadLoop(bus, Found(regs[1..]), pending + [regs[0]], ans)
  {
    assert Found(regs)[1..] == Found(regs[1..]);
    assert Found(regs)[0] == Ok(Some(regs[0]));
  }

  /**
   * When every reference names a register that fits in a transfer and
   * nothing raises, every transfer `read_registers` makes is one of its
   * batches, at most 15 bytes long, and all registers are asked for in
   * order.
   */
  lemma {:induction false} ReadRegistersTransfersFit(table: seq<Register>, bus: Bus, refs: seq<Ref>, regs: seq<Register>)
    requires |regs| == |refs|
    requires forall k :: 0 <= k < |refs| ==> GetRegister(table, refs[k]) == Ok(Some(regs[k]))
    requires forall k :: 0 <= k < |regs| ==> regs[k].Size() <= MaxBatch
    requires ReadRegisters(table, bus, refs).1.Ok?
    ensures ReadRegisters(table, bus, refs).1.value.Some?
    ensures ReadRegisters(table, bus, refs).0.log == bus.log + Sends(Batches(regs))
    ensures Flatten(Batches(regs)) == regs
    ensures forall k :: 0 <= k < |Batches(regs)| ==> |BatchCommand(Batches(regs)[k])| <= MaxBatch + 1
  {
    assert Lookups(table, refs) == Found(regs);
    ReadRegistersSendsBatches(bus, regs, [], []);
    var bs := Batches(regs);
    BatchesFit(regs, []);
    BatchesKeepOrder(regs, []);
    forall k | 0 <= k < |bs| ensures Total(bs[k]) <= MaxBatch {
      if |bs[k]| == 1 {
        SingleInFlatten(bs, k);
        assert Total(bs[k]) == bs[k][0].Size() by { assert bs[k][..0] == []; }
      }
    }
  }

  /** The only register of a one-register batch is one of the flattened registers. */
  lemma {:induction false} SingleInFlatten(bs: seq<seq<Register>>, k: nat)
    requires k < |bs| && |bs[k]| == 1
    ensures bs[k][0] in Flatten(bs)
    decreases k
  {
    if k == 0 {
      assert Flatten(bs) == bs[0] + Flatten(bs[1..]);
    } else {
      SingleInFlatten(bs[1..], k - 1);
      assert Flatten(bs) == bs[0] + Flatten(bs[1..]);
    }
  }
}
