/**
 * Reading the bitstream version and loading a bitstream into a sensor
 * (`read_bitstream_version`, `load_bitstream` and `fw_resume` in
 * sensor/sensor.py), over the same logged bus as Sensor.
 */
module SensorUpload {
  import opened Wrappers
  import opened Bits
  import opened Registers
  import opened Sensor
  import opened Bitstream

  /** What a chip model fixes: its registers and where its bitstream keeps the version. */
  datatype Chip = Chip(table: seq<Register>, startAddr: int, versionAddr: int,
                       buildAddr: Option<int>, variantAddr: Option<int>)

  /**
   * The register saved and cleared around an upload and written back on
   * resume. The operations below take it as their `ctl` parameter; the
   * sensor always passes this name.
   */
  const Control1: Ref := Name("Control1")

  /** Sent after the bitstream: closes the access to the chip's RAM. */
  const DisableRamAccess: seq<int> := [0x2A, 0x00]

  // ---------------------------------------------------- read_bitstream_version

  /**
   * The transfer that reads the word at a RAM address: the address goes out
   * high byte (`addr >> 8`) then low byte (`addr & 0xFF`), and the word
   * comes back in bytes 9 and 10.
   */
  function VersionCommand(addr: int): (sdo: seq<int>)
    ensures |sdo| == 13
    ensures 256 * sdo[5] + sdo[7] == addr && 0 <= sdo[7] < 256
    ensures 0 <= addr < 0x1_0000 ==> 0 <= sdo[5] < 256
  {
    [0x2A, 0xCF, 0x2B, 0x02, 0x2C, addr / 256, 0x2D, addr % 256, 0xAE, 0xAF, 0x80, 0x2A, 0x00]
  }

  /** `sdi[9] * 256 + sdi[10]`, raising as Python does on a missing or short answer. */
  function ReplyWord(sdi: Option<seq<int>>): (r: Result<int>)
    ensures sdi.None? ==> r == Raised(TypeError)
    ensures sdi.Some? ==> (r.Ok? <==> |sdi.value| >= 11)
    ensures sdi.Some? && r.Raised? ==> r.exc == IndexError
  {
    if sdi.None? then Raised(TypeError)
    else if |sdi.value| < 11 then Raised(IndexError)
    else Ok(sdi.value[9] * 256 + sdi.value[10])
  }

  /** The build or variant word, or None without reading when the chip has no address for it. */
  function ReadOptionalWord(bus: Bus, start: int, offset: Option<int>): (r: (Bus, Result<Option<int>>))
    ensures offset.None? ==> r == (bus, Ok(None))
    ensures offset.Some? ==>
      var t := Transmit(bus, VersionCommand(start + offset.value));
      && r.0 == t.0
      && (r.1.Ok? <==> ReplyWord(t.1).Ok?)
      && (r.1.Ok? ==> r.1.value == Some(ReplyWord(t.1).value))
      && (r.1.Raised? ==> r.1.exc == ReplyWord(t.1).exc)
  {
    if offset.None? then (bus, Ok(None))
    else
      var t := Transmit(bus, VersionCommand(start + offset.value));
      match ReplyWord(t.1)
      case Raised(e) => (t.0, Raised(e))
      case Ok(w) => (t.0, Ok(Some(w)))
  }

  /** The transfers for the optional words the chip has: build first, then variant. */
  function OptionalReads(chip: Chip): seq<Op>
  {
    (if chip.buildAddr.Some? then [Transfer(VersionCommand(chip.startAddr + chip.buildAddr.value))] else [])
    + (if chip.variantAddr.Some? then [Transfer(VersionCommand(chip.startAddr + chip.variantAddr.value))] else [])
  }

  /** The build word, then the variant word, each read only when the chip has an address for it. */
  function ReadOptionalWords(chip: Chip, bus: Bus): (r: (Bus, Result<(Option<int>, Option<int>)>))
    ensures r.1.Ok? ==>
      && r.0.log == bus.log + OptionalReads(chip)
      && (r.1.value.0.Some? <==> chip.buildAddr.Some?)
      && (r.1.value.1.Some? <==> chip.variantAddr.Some?)
    ensures r.1.Raised? ==>
      && r.1.exc in {TypeError, IndexError}
      && |r.0.log| > |bus.log| && r.0.log[|r.0.log| - 1].Transfer?
    ensures |r.0.log| >= |bus.log| && r.0.log[..|bus.log|] == bus.log
  {
    var b := ReadOptionalWord(bus, chip.startAddr, chip.buildAddr);
    match b.1
    case Raised(e) => (b.0, Raised(e))
    case Ok(build) =>
      var w := ReadOptionalWord(b.0, chip.startAddr, chip.variantAddr);
      assert w.0.log[..|bus.log|] == bus.log by {
        assert w.0.log[..|b.0.log|] == b.0.log;
        assert w.0.log[..|bus.log|] == b.0.log[..|bus.log|];
      }
      match w.1
      case Raised(e) => (w.0, Raised(e))
      case Ok(variant) => (w.0, Ok((build, variant)))
  }

  /**
   * `read_bitstream_version()`: with chip select enabled, major and minor
   * from one transfer, the build and the variant from one more transfer
   * each when the chip has them, then chip select disabled. A missing or
   * short answer raises, and chip select then stays enabled: the last
   * operation on the bus is the failed transfer.
   */
  function ReadBitstreamVersion(chip: Chip, bus: Bus): (r: (Bus, Result<BitstreamVersion>))
    ensures r.1.Ok? ==>
      && r.0.log == bus.log + [CsEnable] + [Transfer(VersionCommand(chip.startAddr + chip.versionAddr))]
                            + OptionalReads(chip) + [CsDisable]
      && (r.1.value.build.Some? <==> chip.buildAddr.Some?)
      && (r.1.value.variant.Some? <==> chip.variantAddr.Some?)
    ensures r.1.Raised? ==> r.1.exc in {TypeError, IndexError}
    ensures |r.0.log| >= |bus.log| && r.0.log[..|bus.log|] == bus.log
    ensures r.1.Raised? ==> |r.0.log| >= |bus.log| + 2 && r.0.log[|r.0.log| - 1].Transfer?
  {
    var b0 := Signal(bus, CsEnable);
    var t := Transmit(b0, VersionCommand(chip.startAddr + chip.versionAddr));
    assert t.0.log == bus.log + [CsEnable] + [Transfer(VersionCommand(chip.startAddr + chip.versionAddr))];
    if t.1.None? then (t.0, Raised(TypeError))
    else if |t.1.value| < 11 then (t.0, Raised(IndexError))
    else
      var major := t.1.value[9];
      var minor := t.1.value[10];
      var o := ReadOptionalWords(chip, t.0);
      assert o.0.log[..|bus.log|] == bus.log by {
        assert o.0.log[..|t.0.log|] == t.0.log;
        assert o.0.log[..|bus.log|] == t.0.log[..|bus.log|];
      }
      match o.1
      case Raised(e) => (o.0, Raised(e))
      case Ok(words) => (Signal(o.0, CsDisable), Ok(BitstreamVersion(major, minor, words.0, words.1)))
  }

  /** An answer carrying a word in bytes 9 and 10, after nine bytes of anything. */
  function WordReply(pre: seq<int>, hi: int, lo: int, post: seq<int>): (sdi: seq<int>)
    requires |pre| == 9
    ensures |sdi| >= 11 && sdi[9] == hi && sdi[10] == lo
  {
    pre + [hi, lo] + post
  }

  /**
   * A chip answering with its version's bytes is read back exactly: major
   * and minor as the two bytes, build and variant as 16-bit words.
   */
  lemma {:induction false} ReadBitstreamVersionAnswered(chip: Chip, bus: Bus, pre: seq<int>, post: seq<int>,
                                     major: int, minor: int, build: Option<int>, variant: Option<int>)
    requires |pre| == 9
    requires build.Some? <==> chip.buildAddr.Some?
    requires variant.Some? <==> chip.variantAddr.Some?
    requires build.Some? ==> 0 <= build.value < 0x1_0000
    requires variant.Some? ==> 0 <= variant.value < 0x1_0000
    requires bus.replies == [Some(WordReply(pre, major, minor, post))]
                          + WordReplies(pre, post, build) + WordReplies(pre, post, variant)
    ensures ReadBitstreamVersion(chip, bus).1 == Ok(BitstreamVersion(major, minor, build, variant))
  {
    var b0 := Signal(bus, CsEnable);
    var t := Transmit(b0, VersionCommand(chip.startAddr + chip.versionAddr));
    assert t.0.replies == WordReplies(pre, post, build) + WordReplies(pre, post, variant);
    var b := ReadOptionalWord(t.0, chip.startAddr, chip.buildAddr);
    assert b.1 == Ok(build) && b.0.replies == WordReplies(pre, post, variant) by {
      if build.Some? {
        WordRoundTrip(build.value);
      }
    }
    if variant.Some? {
      WordRoundTrip(variant.value);
    }
  }

  /** The answer for an optional word: none when the chip does not have it. */
  function WordReplies(pre: seq<int>, post: seq<int>, word: Option<int>): (rs: seq<Option<seq<int>>>)
    requires |pre| == 9
    ensures |rs| == (if word.Some? then 1 else 0)
  {
    if word.Some? then [Some(WordReply(pre, word.value / 256, word.value % 256, post))] else []
  }

  lemma {:induction false} WordRoundTrip(w: int)
    ensures (w / 256) * 256 + w % 256 == w
  {
  }

  // --------------------------------------------------------- the upload

  /** The bytes that go in whole steps of six. */
  function Offset(bytes: seq<int>): (n: nat)
    ensures n <= |bytes| && n % 6 == 0 && n % 2 == 0 && |bytes| - n < 6
    ensures n == |bytes| - |bytes| % 6
  {
    var q := |bytes| / 6;
    assert |bytes| - |bytes| % 6 == 6 * q;
    assert (6 * q) % 6 == 0 && (6 * q) % 2 == 0 by {
      DivModUnique(6 * q, 6, q, 0);
      DivModUnique(6 * q, 2, 3 * q, 0);
    }
    |bytes| - |bytes| % 6
  }

  /** Six bytes in one transfer, each after a 0x2E or 0x2F prefix, alternately. */
  function SixCommand(b: seq<int>): (sdo: seq<int>)
    requires |b| == 6
    ensures |sdo| == 12 && Odds(sdo) == b
    ensures forall i :: 0 <= i < 6 ==> sdo[2 * i] == (if i % 2 == 0 then 0x2E else 0x2F)
  {
    var sdo := [0x2E, b[0], 0x2F, b[1], 0x2E, b[2], 0x2F, b[3], 0x2E, b[4], 0x2F, b[5]];
    assert Odds(sdo) == b;
    sdo
  }

  /** Two bytes in one transfer, after 0x2E and 0x2F. */
  function PairCommand(a: int, b: int): (sdo: seq<int>)
    ensures |sdo| == 4 && Odds(sdo) == [a, b] && sdo[0] == 0x2E && sdo[2] == 0x2F
  {
    var sdo := [0x2E, a, 0x2F, b];
    assert Odds(sdo) == [a, b];
    sdo
  }

  /** The progress callback, when one is set: the percentage of bytes sent so far, rounded down. */
  function Reported(reporting: bool, sent: nat, total: nat): (ops: seq<Op>)
    requires total > 0
    ensures reporting <==> ops != []
    ensures ops != [] ==> ops == [Progress(sent * 100 / total)]
  {
    if reporting then [Progress(sent * 100 / total)] else []
  }

  /** The whole-step transfers from step k on. */
  function SixChunks(bytes: seq<int>, k: nat, reporting: bool): seq<Op>
    decreases |bytes| - 6 * k
  {
    if 6 * k + 6 > |bytes| then []
    else [Transfer(SixCommand(bytes[6 * k..6 * k + 6]))] + Reported(reporting, 6 * k + 6, |bytes|)
         + SixChunks(bytes, k + 1, reporting)
  }

  /**
   * The remainder as written: `zip(bytes[offset::6], bytes[offset + 1::6])`
   * steps by six past a remainder shorter than six, so at most its first
   * two bytes are sent.
   */
  function RemainderAsWritten(bytes: seq<int>, reporting: bool): seq<Op>
  {
    var offset := Offset(bytes);
    if |bytes| % 6 != 0 && offset + 1 < |bytes| then
      [Transfer(PairCommand(bytes[offset], bytes[offset + 1]))] + Reported(reporting, offset + 2, |bytes|)
    else []
  }

  /** The remainder as evidently intended: pair after pair, from position `at` on. */
  function Pairs(bytes: seq<int>, at: nat, reporting: bool): seq<Op>
    decreases |bytes| - at
  {
    if at + 2 > |bytes| then []
    else [Transfer(PairCommand(bytes[at], bytes[at + 1]))] + Reported(reporting, at + 2, |bytes|)
         + Pairs(bytes, at + 2, reporting)
  }

  /**
   * The upload loop of `load_bitstream` as written: it sends the whole
   * steps and at most two bytes of the remainder.
   */
  function UploadAsWritten(bytes: seq<int>, reporting: bool): (ops: seq<Op>)
    ensures Offset(bytes) + (if |bytes| % 6 >= 2 then 2 else 0) <= |bytes|
    ensures Data(ops) == bytes[..Offset(bytes) + (if |bytes| % 6 >= 2 then 2 else 0)]
  {
    SixChunksData(bytes, 0, reporting);
    RemainderAsWrittenData(bytes, reporting);
    DataAppend(SixChunks(bytes, 0, reporting), RemainderAsWritten(bytes, reporting));
    SliceJoin(bytes, Offset(bytes), Offset(bytes) + (if |bytes| % 6 >= 2 then 2 else 0));
    SixChunks(bytes, 0, reporting) + RemainderAsWritten(bytes, reporting)
  }

  /**
   * The upload loop with the remainder sent pair by pair: every byte of the
   * bitstream goes out, in order, except a final odd byte.
   */
  function Upload(bytes: seq<int>, reporting: bool): (ops: seq<Op>)
    ensures Data(ops) == bytes[..|bytes| - |bytes| % 2]
  {
    SixChunksData(bytes, 0, reporting);
    StepsBeforePairs(|bytes|);
    PairsData(bytes, Offset(bytes), reporting);
    DataAppend(SixChunks(bytes, 0, reporting), Pairs(bytes, Offset(bytes), reporting));
    assert bytes[0..Offset(bytes)] + bytes[Offset(bytes)..Even(bytes)] == bytes[..Even(bytes)];
    SixChunks(bytes, 0, reporting) + Pairs(bytes, Offset(bytes), reporting)
  }

  /** The bitstream bytes the transfers carry, in order (the odd positions of each transfer). */
  function Data(ops: seq<Op>): seq<int>
  {
    if ops == [] then []
    else (if ops[0].Transfer? then Odds(ops[0].sdo) else []) + Data(ops[1..])
  }

  lemma {:induction false} DataAppend(a: seq<Op>, b: seq<Op>)
    ensures Data(a + b) == Data(a) + Data(b)
    decreases |a|
  {
    if a != [] {
      DataAppend(a[1..], b);
      var h := if a[0].Transfer? then Odds(a[0].sdo) else [];
      assert (a + b)[0] == a[0];
      assert (a + b)[1..] == a[1..] + b;
      assert Data(a) == h + Data(a[1..]);
      assert Data(a + b) == h + Data(a[1..] + b);
    } else {
      assert a + b == b;
    }
  }

  lemma {:induction false} ReportedCarriesNoData(reporting: bool, sent: nat, total: nat)
    requires total > 0
    ensures Data(Reported(reporting, sent, total)) == []
  {
  }

  /** One transfer followed by its progress report carries the transfer's bytes. */
  lemma {:induction false} StepData(sdo: seq<int>, reporting: bool, sent: nat, total: nat, rest: seq<Op>)
    requires total > 0
    ensures Data([Transfer(sdo)] + Reported(reporting, sent, total) + rest) == Odds(sdo) + Data(rest)
  {
    DataAppend([Transfer(sdo)] + Reported(reporting, sent, total), rest);
    DataAppend([Transfer(sdo)], Reported(reporting, sent, total));
    ReportedCarriesNoData(reporting, sent, total);
  }

  /** The whole steps carry the bytes up to the remainder, in order. */
  lemma {:induction false} SixChunksData(bytes: seq<int>, k: nat, reporting: bool)
    requires 6 * k <= Offset(bytes)
    ensures Data(SixChunks(bytes, k, reporting)) == bytes[6 * k..Offset(bytes)]
    decreases |bytes| - 6 * k
  {
    if 6 * k + 6 <= |bytes| {
      SixChunksData(bytes, k + 1, reporting);
      StepData(SixCommand(bytes[6 * k..6 * k + 6]), reporting, 6 * k + 6, |bytes|, SixChunks(bytes, k + 1, reporting));
      assert bytes[6 * k..6 * k + 6] + bytes[6 * k + 6..Offset(bytes)] == bytes[6 * k..Offset(bytes)];
    }
  }

  /** The bytes before a final odd one. */
  function Even(bytes: seq<int>): (n: nat)
    ensures n <= |bytes| && n % 2 == 0 && |bytes| - n < 2
  {
    |bytes| - |bytes| % 2
  }

  /** An even position at most the even length: another pair fits exactly when it is below it. */
  lemma {:induction false} PairBound(len: nat, even: nat, at: nat)
    requires even <= len < even + 2 && even % 2 == 0 && at % 2 == 0 && at <= even
    ensures at + 2 <= len <==> at < even
    ensures at + 2 > len ==> at == even
  {
  }

  /** The pairs carry the remainder up to a final odd byte. */
  lemma {:induction false} PairsData(bytes: seq<int>, at: nat, reporting: bool)
    requires at % 2 == 0 && at <= Even(bytes)
    ensures Data(Pairs(bytes, at, reporting)) == bytes[at..Even(bytes)]
    decreases |bytes| - at
  {
    PairBound(|bytes|, Even(bytes), at);
    if at + 2 <= |bytes| {
      PairsData(bytes, at + 2, reporting);
      StepData(PairCommand(bytes[at], bytes[at + 1]), reporting, at + 2, |bytes|, Pairs(bytes, at + 2, reporting));
      SlicePair(bytes, at, Even(bytes));
    }
  }

  /** The whole steps end at an even position, no later than the last pair. */
  lemma {:induction false} StepsBeforePairs(len: nat)
    ensures len - len % 6 <= len - len % 2
  {
    assert len % 6 % 2 == len % 2;
  }

  lemma {:induction false} SlicePair(s: seq<int>, at: nat, end: nat)
    requires at + 2 <= end <= |s|
    ensures [s[at], s[at + 1]] + s[at + 2..end] == s[at..end]
  {
  }

  /** The remainder of the whole steps holds a pair exactly when it is at least two bytes long. */
  lemma {:induction false} RemainderHasPair(len: nat)
    ensures len % 6 != 0 && len - len % 6 + 1 < len <==> len % 6 >= 2
  {
  }

  /** As written, the remainder contributes its first two bytes, or nothing when it has fewer. */
  lemma {:induction false} RemainderAsWrittenData(bytes: seq<int>, reporting: bool)
    ensures Offset(bytes) + (if |bytes| % 6 >= 2 then 2 else 0) <= |bytes|
    ensures Data(RemainderAsWritten(bytes, reporting))
         == bytes[Offset(bytes)..Offset(bytes) + (if |bytes| % 6 >= 2 then 2 else 0)]
  {
    var offset := Offset(bytes);
    RemainderHasPair(|bytes|);
    if |bytes| % 6 >= 2 {
      StepData(PairCommand(bytes[offset], bytes[offset + 1]), reporting, offset + 2, |bytes|, []);
      assert RemainderAsWritten(bytes, reporting)
          == [Transfer(PairCommand(bytes[offset], bytes[offset + 1]))] + Reported(reporting, offset + 2, |bytes|) + [];
    }
  }

  lemma {:induction false} SliceJoin(s: seq<int>, a: nat, b: nat)
    requires a <= b <= |s|
    ensures s[0..a] + s[a..b] == s[..b]
  {
  }

  /** A ten-byte bitstream: as written its last two bytes are never sent; corrected, all ten are. */
  lemma {:induction false} TenByteBitstreamLosesTail(bytes: seq<int>, reporting: bool)
    requires |bytes| == 10
    ensures Data(UploadAsWritten(bytes, reporting)) == bytes[..8]
    ensures Data(Upload(bytes, reporting)) == bytes
  {
  }

  // ------------------------------------------------------ load_bitstream

  /** Calls on the interface, one after another; each transfer takes the next answer, unread. */
  function Run(bus: Bus, ops: seq<Op>): (b: Bus)
    ensures b.log == bus.log + ops
    decreases |ops|
  {
    if ops == [] then bus
    else
      var next := if ops[0].Transfer? then Transmit(bus, ops[0].sdo).0 else Signal(bus, ops[0]);
      assert next.log == bus.log + [ops[0]];
      assert bus.log + [ops[0]] + ops[1..] == bus.log + ops;
      Run(next, ops[1..])
  }

  /**
   * `write_register(ref, val)` where val may be None: shifting None raises
   * TypeError as soon as the register has a byte to fill.
   */
  function WriteValue(table: seq<Register>, bus: Bus, ref: Ref, val: Option<int>): (r: (Bus, Result<int>))
    ensures val.Some? ==> r == WriteRegister(table, bus, ref, val.value)
    ensures (val.None? && GetRegister(table, ref).Ok? && GetRegister(table, ref).value.Some?
             && GetRegister(table, ref).value.value.Size() > 0) ==> r == (bus, Raised(TypeError))
  {
    if val.Some? then WriteRegister(table, bus, ref, val.value)
    else
      match GetRegister(table, ref)
      case Raised(e) => (bus, Raised(e))
      case Ok(found) =>
        if found.None? then (bus, Raised(TypeError))
        else if found.value.Size() > 0 then (bus, Raised(TypeError))
        else WriteRegister(table, bus, ref, 0)
  }

  /**
   * `fw_resume()`: Control1 is written back first when a saved value is
   * set and non-zero; then the firmware resumes.
   */
  function ResumeFirmware(table: seq<Register>, bus: Bus, saved: Option<int>, ctl: Ref): (r: (Bus, Result<()>))
    ensures saved.None? || saved == Some(0) ==> r == (Signal(bus, FwResume), Ok(()))
    ensures r.1.Ok? && saved.Some? && saved.value != 0 ==>
      r.0 == Signal(WriteRegister(table, bus, ctl, saved.value).0, FwResume)
    ensures |r.0.log| >= |bus.log| && r.0.log[..|bus.log|] == bus.log
  {
    if saved.Some? && saved.value != 0 then
      var w := WriteRegister(table, bus, ctl, saved.value);
      match w.1
      case Raised(e) => (w.0, Raised(e))
      case Ok(_) => (Signal(w.0, FwResume), Ok(()))
    else (Signal(bus, FwResume), Ok(()))
  }

  /**
   * The first part of `load_bitstream(bitstream)`: stop the firmware,
   * enable chip select, save Control1 and clear it, upload, close the RAM
   * access, restore Control1, disable chip select. `transfers` are the
   * upload's own operations, `UploadAsWritten(bitstream)` in `LoadBitstream`. Any
   * exception ends the sequence where it was raised.
   */
  function UploadPhase(table: seq<Register>, bus: Bus, transfers: seq<Op>, ctl: Ref): (r: (Bus, Result<()>))
    ensures GetRegister(table, ctl) == Ok(None) ==>
      r == (Signal(Signal(bus, FwStop), CsEnable), Raised(TypeError))
    ensures |r.0.log| >= |bus.log| && r.0.log[..|bus.log|] == bus.log
  {
    var b0 := Signal(Signal(bus, FwStop), CsEnable);
    assert b0.log == bus.log + [FwStop, CsEnable];
    var rd := ReadRegister(table, b0, ctl);
    assert GetRegister(table, ctl) == Ok(None) ==> rd == (b0, Ok(None));
    match rd.1
    case Raised(e) => (rd.0, Raised(e))
    case Ok(before) => ClearAndUpload(table, rd.0, transfers, ctl, before)
  }

  /** Control1 cleared, the upload, RAM access closed, then Control1 restored. */
  function ClearAndUpload(table: seq<Register>, bus: Bus, transfers: seq<Op>, ctl: Ref, before: Option<int>)
    : (r: (Bus, Result<()>))
    ensures |r.0.log| >= |bus.log| && r.0.log[..|bus.log|] == bus.log
    ensures GetRegister(table, ctl) == Ok(None) ==> r == (bus, Raised(TypeError))
  {
    var wr := WriteRegister(table, bus, ctl, 0);
    match wr.1
    case Raised(e) => (wr.0, Raised(e))
    case Ok(_) => Restore(table, Run(wr.0, transfers + [Transfer(DisableRamAccess)]), ctl, before)
  }

  /** Control1 written back with the saved value, then chip select off. */
  function Restore(table: seq<Register>, bus: Bus, ctl: Ref, before: Option<int>): (r: (Bus, Result<()>))
    ensures |r.0.log| >= |bus.log| && r.0.log[..|bus.log|] == bus.log
  {
    var back := WriteValue(table, bus, ctl, before);
    match back.1
    case Raised(e) => (back.0, Raised(e))
    case Ok(_) => (Signal(back.0, CsDisable), Ok(()))
  }

  /**
   * `load_bitstream(bitstream)` as written: the upload (whose remainder
   * loop sends at most one pair), then the version read back (kept by the
   * sensor as its current bitstream version, and the result here), then
   * the firmware resumed.
   */
  function LoadBitstream(chip: Chip, bus: Bus, bytes: seq<int>, saved: Option<int>, reporting: bool,
                         ctl: Ref)
    : (r: (Bus, Result<BitstreamVersion>))
    ensures GetRegister(chip.table, ctl) == Ok(None) ==>
      r == (Signal(Signal(bus, FwStop), CsEnable), Raised(TypeError))
    ensures r.1.Ok? ==>
      && (r.1.value.build.Some? <==> chip.buildAddr.Some?)
      && (r.1.value.variant.Some? <==> chip.variantAddr.Some?)
    ensures r.1.Ok? ==> UploadPhase(chip.table, bus, UploadAsWritten(bytes, reporting), ctl).1.Ok?
    ensures var u := UploadPhase(chip.table, bus, UploadAsWritten(bytes, reporting), ctl).0;
      |r.0.log| >= |u.log| && r.0.log[..|u.log|] == u.log
  {
    var u := UploadPhase(chip.table, bus, UploadAsWritten(bytes, reporting), ctl);
    match u.1
    case Raised(e) => (u.0, Raised(e))
    case Ok(_) => VersionAndResume(chip, u.0, saved, ctl)
  }

  /** `load_bitstream(bitstream)` with the remainder sent pair by pair. */
  function LoadBitstreamCorrected(chip: Chip, bus: Bus, bytes: seq<int>, saved: Option<int>, reporting: bool,
                                  ctl: Ref)
    : (r: (Bus, Result<BitstreamVersion>))
    ensures GetRegister(chip.table, ctl) == Ok(None) ==>
      r == (Signal(Signal(bus, FwStop), CsEnable), Raised(TypeError))
    ensures r.1.Ok? ==>
      && (r.1.value.build.Some? <==> chip.buildAddr.Some?)
      && (r.1.value.variant.Some? <==> chip.variantAddr.Some?)
    ensures r.1.Ok? ==> UploadPhase(chip.table, bus, Upload(bytes, reporting), ctl).1.Ok?
    ensures var u := UploadPhase(chip.table, bus, Upload(bytes, reporting), ctl).0;
      |r.0.log| >= |u.log| && r.0.log[..|u.log|] == u.log
  {
    var u := UploadPhase(chip.table, bus, Upload(bytes, reporting), ctl);
    match u.1
    case Raised(e) => (u.0, Raised(e))
    case Ok(_) => VersionAndResume(chip, u.0, saved, ctl)
  }

  /** After the upload: the version read back, then the firmware resumed. */
  function VersionAndResume(chip: Chip, bus: Bus, saved: Option<int>, ctl: Ref): (r: (Bus, Result<BitstreamVersion>))
    ensures r.1.Ok? ==>
      && (r.1.value.build.Some? <==> chip.buildAddr.Some?)
      && (r.1.value.variant.Some? <==> chip.variantAddr.Some?)
    ensures |r.0.log| >= |bus.log| && r.0.log[..|bus.log|] == bus.log
  {
    var v := ReadBitstreamVersion(chip, bus);
    match v.1
    case Raised(e) => (v.0, Raised(e))
    case Ok(version) =>
      var res := ResumeFirmware(chip.table, v.0, saved, ctl);
      match res.1
      case Raised(e) => (res.0, Raised(e))
      case Ok(_) => (res.0, Ok(version))
  }

  /** The answer the next transfer on the bus reads back, if any. */
  function FirstReply(bus: Bus): (sdi: Option<seq<int>>)
    ensures bus.replies != [] ==> sdi == bus.replies[0]
    ensures bus.replies == [] ==> sdi.None?
  {
    if bus.replies == [] then None else bus.replies[0]
  }

  /** The value of Control1 that the read opening an upload gets back. */
  function Control1Before(bus: Bus, reg: Register): (v: Result<int>)
    ensures reg.Size() > 0 && bus.replies == [] ==> v == Raised(TypeError)
  {
    ReplyValue(FirstReply(bus), 1, reg.Size())
  }

  /**
   * What a completed upload logs: firmware stopped, chip select on,
   * Control1 read and cleared, the upload, RAM access closed, Control1
   * written back with the value read before, chip select off.
   */
  function UploadLog(reg: Register, before: int, transfers: seq<Op>): seq<Op>
  {
    [FwStop, CsEnable, Transfer(ReadCommand(reg)), Transfer(WriteCommand(reg, 0))]
    + (transfers + [Transfer(DisableRamAccess)])
    + [Transfer(WriteCommand(reg, before)), CsDisable]
  }

  /**
   * An upload that completes logs exactly the upload sequence, with
   * Control1 written back with the value the device reported before it.
   */
  lemma {:induction false} UploadPhaseRestoresControl1(table: seq<Register>, bus: Bus, transfers: seq<Op>, ctl: Ref, reg: Register)
    requires GetRegister(table, ctl) == Ok(Some(reg)) && reg.Size() > 0
    requires UploadPhase(table, bus, transfers, ctl).1.Ok?
    ensures Control1Before(bus, reg).Ok?
    ensures UploadPhase(table, bus, transfers, ctl).0.log
         == bus.log + UploadLog(reg, Control1Before(bus, reg).value, transfers)
  {
    var v := Control1Before(bus, reg);
    var rd := ReadRegister(table, Signal(Signal(bus, FwStop), CsEnable), ctl);
    ReadPhaseLogs(table, bus, ctl, reg);
    ReadPhaseValue(table, bus, ctl, reg);
    assert v.Ok?;
    assert UploadPhase(table, bus, transfers, ctl) == ClearAndUpload(table, rd.0, transfers, ctl, Some(v.value));
    ClearAndUploadLogs(table, rd.0, transfers, ctl, reg, v.value);
    UploadLogSplits(bus.log, reg, v.value, transfers);
  }

  /** Opening the upload logs the two signals and the read of Control1. */
  lemma {:induction false} ReadPhaseLogs(table: seq<Register>, bus: Bus, ctl: Ref, reg: Register)
    requires GetRegister(table, ctl) == Ok(Some(reg))
    ensures ReadRegister(table, Signal(Signal(bus, FwStop), CsEnable), ctl).0.log
         == bus.log + [FwStop] + [CsEnable] + [Transfer(ReadCommand(reg))]
  {
    var b0 := Signal(Signal(bus, FwStop), CsEnable);
    assert ReadRegister(table, b0, ctl).0.log == b0.log + [Transfer(ReadCommand(reg))];
  }

  /** The read of Control1 that opens the upload yields the first reply's value. */
  lemma {:induction false} ReadPhaseValue(table: seq<Register>, bus: Bus, ctl: Ref, reg: Register)
    requires GetRegister(table, ctl) == Ok(Some(reg)) && reg.Size() > 0
    ensures ReadRegister(table, Signal(Signal(bus, FwStop), CsEnable), ctl).1.Ok? <==> Control1Before(bus, reg).Ok?
    ensures ReadRegister(table, Signal(Signal(bus, FwStop), CsEnable), ctl).1.Ok? ==>
      ReadRegister(table, Signal(Signal(bus, FwStop), CsEnable), ctl).1.value == Some(Control1Before(bus, reg).value)
  {
    var b0 := Signal(Signal(bus, FwStop), CsEnable);
    assert Transmit(b0, ReadCommand(reg)).1 == FirstReply(bus);
  }

  /** The upload log is the read phase followed by the clear-and-upload phase. */
  lemma {:induction false} UploadLogSplits(log: seq<Op>, reg: Register, v: int, transfers: seq<Op>)
    ensures log + [FwStop] + [CsEnable] + [Transfer(ReadCommand(reg))] + [Transfer(WriteCommand(reg, 0))]
            + (transfers + [Transfer(DisableRamAccess)]) + [Transfer(WriteCommand(reg, v))] + [CsDisable]
         == log + UploadLog(reg, v, transfers)
  {
  }

  /** A completed clear-and-upload logs the clear, the transfers, the RAM close and the restore. */
  lemma {:induction false} ClearAndUploadLogs(table: seq<Register>, bus: Bus, transfers: seq<Op>, ctl: Ref, reg: Register, v: int)
    requires GetRegister(table, ctl) == Ok(Some(reg))
    requires ClearAndUpload(table, bus, transfers, ctl, Some(v)).1.Ok?
    ensures ClearAndUpload(table, bus, transfers, ctl, Some(v)).0.log
         == bus.log + [Transfer(WriteCommand(reg, 0))] + (transfers + [Transfer(DisableRamAccess)])
            + [Transfer(WriteCommand(reg, v))] + [CsDisable]
  {
    var rest := transfers + [Transfer(DisableRamAccess)];
    var wr := WriteRegister(table, bus, ctl, 0);
    assert wr.0 == Transmit(bus, WriteCommand(reg, 0)).0 && wr.1.Ok?;
    var up := Run(wr.0, rest);
    assert ClearAndUpload(table, bus, transfers, ctl, Some(v)) == Restore(table, up, ctl, Some(v));
    RestoreLogs(table, up, ctl, reg, v);
  }

  /** A completed restore logs the write of the saved value, then chip select off. */
  lemma {:induction false} RestoreLogs(table: seq<Register>, bus: Bus, ctl: Ref, reg: Register, v: int)
    requires GetRegister(table, ctl) == Ok(Some(reg))
    requires Restore(table, bus, ctl, Some(v)).1.Ok?
    ensures Restore(table, bus, ctl, Some(v)).0.log == bus.log + [Transfer(WriteCommand(reg, v))] + [CsDisable]
  {
    var back := WriteValue(table, bus, ctl, Some(v));
    assert back.0 == Transmit(bus, WriteCommand(reg, v)).0;
    assert back.1.Ok? && Restore(table, bus, ctl, Some(v)).0 == Signal(back.0, CsDisable);
  }

  /**
   * A load that completes is a completed upload, which logs exactly the
   * upload sequence with Control1 restored, followed by the version read
   * and the firmware resume on the bus the upload leaves. As written, the
   * upload's transfers carry the bitstream only up to the whole steps of
   * six and at most two bytes after them.
   */
  lemma {:induction false} LoadBitstreamRestoresControl1(chip: Chip, bus: Bus, bytes: seq<int>, saved: Option<int>,
                                      reporting: bool, ctl: Ref, reg: Register)
    requires GetRegister(chip.table, ctl) == Ok(Some(reg)) && reg.Size() > 0
    requires LoadBitstream(chip, bus, bytes, saved, reporting, ctl).1.Ok?
    ensures Control1Before(bus, reg).Ok?
    ensures UploadPhase(chip.table, bus, UploadAsWritten(bytes, reporting), ctl).1.Ok?
    ensures UploadPhase(chip.table, bus, UploadAsWritten(bytes, reporting), ctl).0.log
         == bus.log + UploadLog(reg, Control1Before(bus, reg).value, UploadAsWritten(bytes, reporting))
    ensures Data(UploadAsWritten(bytes, reporting)) == bytes[..Offset(bytes) + (if |bytes| % 6 >= 2 then 2 else 0)]
    ensures LoadBitstream(chip, bus, bytes, saved, reporting, ctl)
         == VersionAndResume(chip, UploadPhase(chip.table, bus, UploadAsWritten(bytes, reporting), ctl).0, saved, ctl)
  {
    UploadPhaseRestoresControl1(chip.table, bus, UploadAsWritten(bytes, reporting), ctl, reg);
  }

  /**
   * With the remainder sent pair by pair, a load that completes logs the
   * same sequence around transfers that carry every byte of the bitstream
   * but a final odd one.
   */
  lemma {:induction false} LoadBitstreamCorrectedRestoresControl1(chip: Chip, bus: Bus, bytes: seq<int>, saved: Option<int>,
                                      reporting: bool, ctl: Ref, reg: Register)
    requires GetRegister(chip.table, ctl) == Ok(Some(reg)) && reg.Size() > 0
    requires LoadBitstreamCorrected(chip, bus, bytes, saved, reporting, ctl).1.Ok?
    ensures Control1Before(bus, reg).Ok?
    ensures UploadPhase(chip.table, bus, Upload(bytes, reporting), ctl).1.Ok?
    ensures UploadPhase(chip.table, bus, Upload(bytes, reporting), ctl).0.log
         == bus.log + UploadLog(reg, Control1Before(bus, reg).value, Upload(bytes, reporting))
    ensures Data(Upload(bytes, reporting)) == bytes[..|bytes| - |bytes| % 2]
    ensures LoadBitstreamCorrected(chip, bus, bytes, saved, reporting, ctl)
         == VersionAndResume(chip, UploadPhase(chip.table, bus, Upload(bytes, reporting), ctl).0, saved, ctl)
  {
    UploadPhaseRestoresControl1(chip.table, bus, Upload(bytes, reporting), ctl, reg);
  }
}
