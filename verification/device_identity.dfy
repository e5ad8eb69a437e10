/**
 * Feature 0x0003, DeviceInformation (features/x0003.py), and the
 * `get_device_info` routine of `ConnectedDevice` that fills the directory
 * from it (core/connected_device.py).
 */
module DeviceIdentity {
  import opened Wrappers
  import opened Bits
  import opened IntCodec
  import opened Text
  import opened Frame
  import opened Device
  import opened Connection
  import opened FeatureCall

  const FeatureId := 0x0003

  function GetDeviceInfoRequest(): (q: Payload)
    ensures q.func == 0 && q.params == [0, 0, 0]
  {
    Payload(0, [0, 0, 0])
  }

  function GetFwInfoRequest(entityIdx: int): (q: Payload)
    ensures q.func == 1 && q.params == [entityIdx, 0, 0]
  {
    Payload(1, [entityIdx, 0, 0])
  }

  function GetSerialNumberRequest(): (q: Payload)
    ensures q.func == 2 && q.params == [0, 0, 0]
  {
    Payload(2, [0, 0, 0])
  }

  /**
   * `get_device_info`'s decoding: entity count from p0, unit id as a u32
   * big-endian from p1..4, transport as a u16 big-endian from p5..6, mode id
   * p7..12, capabilities p14 (p13 is skipped).
   */
  function ParseDeviceInfo(p: seq<int>): (r: Result<DeviceInfoStruct>)
    ensures r.Raised? <==> |p| < 15
    ensures r.Raised? ==> r.exc == IndexError
    ensures r.Ok? ==>
      && r.value.entityCount == p[0]
      && r.value.unitId == ListToU32Be(p[1..5])
      && r.value.transport == ListToU16Be(p[5..7])
      && r.value.modeId == p[7..13]
      && r.value.capabilities == p[14]
  {
    if |p| < 15 then Raised(IndexError)
    else Ok(DeviceInfoStruct(p[0], ListToU32Be(Slice(p, 1, 5)), ListToU16Be(Slice(p, 5, 7)),
                             Slice(p, 7, 13), p[14]))
  }

  /** The reply a device sends for its identity. */
  function DeviceInfoReply(d: DeviceInfoStruct): (p: seq<int>)
    requires InU32(d.unitId) && InU16(d.transport) && |d.modeId| == 6
    ensures |p| == 15
  {
    [d.entityCount] + U32ToListBe(d.unitId) + U16ToListBe(d.transport) + d.modeId + [0, d.capabilities]
  }

  /** Decoding the identity a device sends gives it back. */
  lemma {:induction false} DeviceInfoRoundTrip(d: DeviceInfoStruct)
    requires InU32(d.unitId) && InU16(d.transport) && |d.modeId| == 6
    ensures ParseDeviceInfo(DeviceInfoReply(d)) == Ok(d)
  {
    var p := DeviceInfoReply(d);
    assert p[1..5] == U32ToListBe(d.unitId);
    assert p[5..7] == U16ToListBe(d.transport);
    assert p[7..13] == d.modeId;
    U32RoundTrip(d.unitId);
    U16RoundTrip(d.transport);
  }

  /** `str(x >> 4) + str(x & 0x0F)`: the two nibbles of the version byte in decimal. */
  function NibbleText(x: int): string
  {
    IntToString(ShiftRight(x, 4)) + IntToString(LowBits(x, 4))
  }

  /**
   * The build number as written: the unpadded hex digits of p6 and p7,
   * concatenated and read as a decimal number. Digits a-f, or an empty
   * slice, raise ValueError.
   */
  function BuildAsWritten(hiLo: seq<int>): (r: Result<int>)
  {
    var text := if |hiLo| == 0 then "" else if |hiLo| == 1 then HexTail(hiLo[0])
                else HexTail(hiLo[0]) + HexTail(hiLo[1]);
    ParseInt(text)
  }

  /** The build number read from p6 and p7: padded to two digits per byte, or as written. */
  function BuildOf(padded: bool, hiLo: seq<int>): (r: Result<int>)
    ensures r.Raised? ==> r.exc == ValueError
  {
    if padded then BuildFixed(hiLo) else BuildAsWritten(hiLo)
  }

  /**
   * `get_fw_info`'s decoding, exception by exception in the order the
   * source evaluates the fields: device type p0, name from p1..p4, revision
   * p5, build from p6..p7 (as `BuildOf` reads it), active bit 0 of p8,
   * transport pid u16 big-endian from p9..10.
   */
  function DecodeFwInfo(entityIdx: int, p: seq<int>, padded: bool): (r: Result<FirmwareInfo>)
    ensures r.Raised? ==> r.exc == IndexError || r.exc == ValueError
    ensures IsBytes(p) && |p| >= 9 && BuildOf(padded, p[6..8]).Ok? ==> r.Ok?
    ensures r.Ok? ==>
      && |p| >= 9
      && r.value.entityIdx == entityIdx
      && r.value.devType == p[0]
      && |r.value.fwName| >= 5
      && (forall i :: 0 <= i < 3 ==> r.value.fwName[i] as int == p[1 + i])
      && r.value.fwName[3..] == NibbleText(p[4])
      && r.value.rev == p[5]
      && BuildOf(padded, p[6..8]) == Ok(r.value.build)
      && (r.value.active <==> p[8] % 2 == 1)
      && r.value.trPid == ListToU16Be(Slice(p, 9, 11))
  {
    if |p| < 1 then Raised(IndexError)
    else
      match Chars(Slice(p, 1, 4))
      case Raised(e) => Raised(e)
      case Ok(prefix) =>
        if |p| < 6 then Raised(IndexError)
        else
          assert |p| >= 8 ==> Slice(p, 6, 8) == p[6..8];
          match BuildOf(padded, Slice(p, 6, 8))
          case Raised(e) => Raised(e)
          case Ok(build) =>
            if |p| < 9 then Raised(IndexError)
            else
              Ok(FirmwareInfo(entityIdx, p[0], prefix + NibbleText(p[4]), p[5], build,
                              ListToU16Be(Slice(p, 9, 11)), p[8] % 2 == 1))
  }

  /**
   * `get_fw_info`'s decoding as written: the build joins the unpadded hex
   * digits of p6 and p7, so packed-BCD build bytes always parse, but give
   * the four-digit build only when neither byte is below 0x10.
   */
  function ParseFwInfo(entityIdx: int, p: seq<int>): (r: Result<FirmwareInfo>)
    ensures r.Raised? ==> r.exc == IndexError || r.exc == ValueError
    ensures IsBytes(p) && |p| >= 9 && IsBcdByte(p[6]) && IsBcdByte(p[7]) ==> r.Ok?
    ensures IsBytes(p) && |p| >= 9 && IsBcdByte(p[6]) && IsBcdByte(p[7]) && p[6] >= 0x10 && p[7] >= 0x10 ==>
      r.Ok? && r.value.build == BuildCorrected(p[6], p[7])
    ensures r.Ok? ==> |p| >= 9 && BuildAsWritten(p[6..8]) == Ok(r.value.build)
  {
    assert |p| >= 9 && IsBcdByte(p[6]) && IsBcdByte(p[7]) ==>
      BuildAsWritten(p[6..8]).Ok?
      && (p[6] >= 0x10 && p[7] >= 0x10 ==> BuildAsWritten(p[6..8]) == Ok(BuildCorrected(p[6], p[7]))) by {
      if |p| >= 9 && IsBcdByte(p[6]) && IsBcdByte(p[7]) {
        assert p[6..8] == [p[6], p[7]];
        BuildAsWrittenBcd(p[6], p[7]);
        BuildFixedIsBcd(p[6], p[7]);
      }
    }
    DecodeFwInfo(entityIdx, p, false)
  }

  /**
   * `get_fw_info`'s decoding with the build corrected (see `BuildFixed`):
   * nine byte params whose build bytes are packed BCD always parse, with
   * the four-digit build.
   */
  function ParseFwInfoCorrected(entityIdx: int, p: seq<int>): (r: Result<FirmwareInfo>)
    ensures r.Raised? ==> r.exc == IndexError || r.exc == ValueError
    ensures IsBytes(p) && |p| >= 9 && IsBcdByte(p[6]) && IsBcdByte(p[7]) ==>
      r.Ok? && r.value.build == BuildCorrected(p[6], p[7])
    ensures r.Ok? ==> |p| >= 9 && BuildFixed(p[6..8]) == Ok(r.value.build)
  {
    assert |p| >= 9 && IsBcdByte(p[6]) && IsBcdByte(p[7]) ==>
      BuildFixed(p[6..8]) == Ok(BuildCorrected(p[6], p[7])) by {
      if |p| >= 9 && IsBcdByte(p[6]) && IsBcdByte(p[7]) {
        assert p[6..8] == [p[6], p[7]];
        BuildFixedIsBcd(p[6], p[7]);
      }
    }
    DecodeFwInfo(entityIdx, p, true)
  }

  /**
   * As written, packed-BCD build bytes always parse, and when neither byte
   * is below 0x10 the unpadded text is the padded one.
   */
  lemma {:induction false} BuildAsWrittenBcd(hi: int, lo: int)
    requires IsBcdByte(hi) && IsBcdByte(lo)
    ensures BuildAsWritten([hi, lo]).Ok?
    ensures hi >= 0x10 && lo >= 0x10 ==> BuildAsWritten([hi, lo]) == BuildFixed([hi, lo])
  {
    assert NibblesBelowTen(hi) && NibblesBelowTen(lo);
    HexLowerIsDecimal(hi);
    HexLowerIsDecimal(lo);
    AllDigitsConcat(HexTail(hi), HexTail(lo));
    if hi >= 0x10 && lo >= 0x10 {
      assert HexLower(hi) == Hex2(hi);
      assert HexLower(lo) == Hex2(lo);
      assert [hi, lo][..1] == [hi] && [hi][..0] == [];
      assert Hex2s([hi, lo]) == Hex2(hi) + Hex2(lo);
    }
  }

  /**
   * Firmware BCD build 0x0105 reads as 15: the low byte 0x05 is printed as
   * "5", not "05", so a digit is lost.
   */
  lemma {:induction false} BuildLosesLeadingZero()
    ensures BuildAsWritten([0x01, 0x05]) == Ok(15)
    ensures BuildCorrected(0x01, 0x05) == 105
    ensures BuildFixed([0x01, 0x05]) == Ok(105)
  {
    assert HexLower(1) == "1" && HexLower(5) == "5";
    assert HexTail(1) + HexTail(5) == "15";
    assert DigitsValue("15") == 15 by {
      assert "15"[..1] == "1";
    }
    BuildCorrectedIsBcd(0x01, 0x05);
    BuildFixedIsBcd(0x01, 0x05);
  }

  /** A byte whose two hex digits are both decimal digits (packed BCD). */
  predicate IsBcdByte(b: int) { 0 <= b < 256 && b / 16 < 10 && b % 16 < 10 }

  /** The build number as evidently intended: both bytes as two hex digits each. */
  function BuildCorrected(hi: int, lo: int): (r: int)
    requires IsBcdByte(hi) && IsBcdByte(lo)
  {
    var text := Hex2(hi) + Hex2(lo);
    HexDigitLowerIsDigit(hi / 16);
    HexDigitLowerIsDigit(hi % 16);
    HexDigitLowerIsDigit(lo / 16);
    HexDigitLowerIsDigit(lo % 16);
    DigitsValue(text)
  }

  /** The two-digit hex text of each byte, in order. */
  function Hex2s(bs: seq<int>): (s: string)
    requires IsBytes(bs)
    ensures |s| == 2 * |bs|
    decreases |bs|
  {
    if bs == [] then [] else Hex2s(bs[..|bs| - 1]) + Hex2(bs[|bs| - 1])
  }

  /**
   * The build number as evidently intended: p6 and p7 each printed with two
   * hex digits, `f"{b:02x}"`, then read as a decimal number. A digit a-f
   * raises ValueError, as does a param that is not a byte, which no frame
   * carries.
   */
  function BuildFixed(hiLo: seq<int>): (r: Result<int>)
  {
    if IsBytes(hiLo) then ParseInt(Hex2s(hiLo)) else Raised(ValueError)
  }

  /** For packed-BCD bytes, the fixed decoding is the corrected build number. */
  lemma {:induction false} BuildFixedIsBcd(hi: int, lo: int)
    requires IsBcdByte(hi) && IsBcdByte(lo)
    ensures BuildFixed([hi, lo]) == Ok(BuildCorrected(hi, lo))
  {
    var text := Hex2(hi) + Hex2(lo);
    assert [hi, lo][..1] == [hi] && [hi][..0] == [];
    assert Hex2s([hi, lo]) == text;
    HexDigitLowerIsDigit(hi / 16);
    HexDigitLowerIsDigit(hi % 16);
    HexDigitLowerIsDigit(lo / 16);
    HexDigitLowerIsDigit(lo % 16);
    assert AllDigits(text);
  }

  /** The corrected build number is the four BCD digits read in order. */
  lemma {:induction false} BuildCorrectedIsBcd(hi: int, lo: int)
    requires IsBcdByte(hi) && IsBcdByte(lo)
    ensures BuildCorrected(hi, lo) == 1000 * (hi / 16) + 100 * (hi % 16) + 10 * (lo / 16) + lo % 16
  {
    var text := Hex2(hi) + Hex2(lo);
    HexDigitLowerIsDigit(hi / 16);
    HexDigitLowerIsDigit(hi % 16);
    HexDigitLowerIsDigit(lo / 16);
    HexDigitLowerIsDigit(lo % 16);
    DigitsValue4(text);
    assert DigitValue(text[0]) == hi / 16;
    assert DigitValue(text[1]) == hi % 16;
    assert DigitValue(text[2]) == lo / 16;
    assert DigitValue(text[3]) == lo % 16;
  }

  /** `get_device_serial_number`: the characters of the first twelve params. */
  function ParseSerialNumber(p: seq<int>): (r: Result<string>)
    ensures IsBytes(p) ==> r.Ok?
    ensures r.Raised? ==> r.exc == ValueError
    ensures r.Ok? ==>
      |r.value| == Min(12, |p|) && forall i :: 0 <= i < |r.value| ==> r.value[i] as int == p[i]
  {
    Chars(Slice(p, 0, 12))
  }

  /** The serial number text gives back the twelve bytes it was read from. */
  lemma {:induction false} SerialNumberKeepsBytes(p: seq<int>)
    requires IsBytes(p) && |p| >= 12
    ensures var s := ParseSerialNumber(p).value;
      |s| == 12 && seq(12, i requires 0 <= i < 12 => s[i] as int) == p[..12]
  {
  }

  /**
   * `ConnectedDevice.get_device_info`: makes sure feature 0x0003 is known,
   * stores the identity, then reads each entity's firmware and records the
   * transport pid of the active main application (type 0) as `tid`. A
   * missing firmware reply makes the next attribute read raise. With
   * `printRes`, the report formats `tid` as hex, which raises TypeError
   * while no main entity has been recorded.
   */
  function ReadDeviceInfo(c: Conn, link: Link, printRes: bool): (s: Step<()>)
    requires Valid(c.info)
    ensures Valid(s.conn.info) && s.conn == c.(info := s.conn.info)
    ensures !c.connected ==> s == Step(c, link, Ok(()))
    ensures s.conn.info.features.Keys >= c.info.features.Keys
    ensures s.conn.info.identity != c.info.identity ==> IsEnumerated(s.conn.info, FeatureId)
    ensures printRes && s.out.Ok? && s.conn.info.identity != c.info.identity ==> s.conn.info.tid.Some?
  {
    if !c.connected then Step(c, link, Ok(()))
    else
      var e := if IsEnumerated(c.info, FeatureId) then Step(c, link, Ok(true))
               else EnumerateFeature(c, link, FeatureId);
      match e.out
      case Raised(x) => Step(e.conn, e.link, Raised(x))
      case Ok(found) =>
        if !found then Step(e.conn, e.link, Ok(()))
        else ReadIdentity(e.conn, e.link, printRes)
  }

  /**
   * The part of `get_device_info` after 0x0003 is found: the identity
   * request, the entity loop, and the report.
   */
  function ReadIdentity(c: Conn, link: Link, printRes: bool): (s: Step<()>)
    requires Valid(c.info) && IsEnumerated(c.info, FeatureId)
    ensures Valid(s.conn.info) && s.conn == c.(info := s.conn.info)
    ensures s.conn.info.features == c.info.features
    ensures printRes && s.out.Ok? && s.conn.info.identity != c.info.identity ==> s.conn.info.tid.Some?
  {
    var d := Call(c, link, FeatureId, GetDeviceInfoRequest(), ParseDeviceInfo);
    CallOnKnownFeature(c, link, FeatureId, GetDeviceInfoRequest(), ParseDeviceInfo);
    match d.out
    case Raised(x) => Step(c, d.link, Raised(x))
    case Ok(None) => Step(c, d.link, Ok(()))
    case Ok(Some(ident)) =>
      var r := ReadEntities(c.(info := SetDeviceInfo(c.info, ident)), d.link, ident.entityCount);
      if printRes && r.out.Ok? && r.conn.info.tid.None? then Step(r.conn, r.link, Raised(TypeError))
      else r
  }

  /**
   * The report changes nothing but the outcome, and only by raising
   * TypeError after a read that completed without a main entity.
   */
  lemma {:induction false} ReportRaisesOnlyWithoutTid(c: Conn, link: Link)
    requires Valid(c.info)
    ensures var q := ReadDeviceInfo(c, link, false);
      var p := ReadDeviceInfo(c, link, true);
      && p.conn == q.conn && p.link == q.link
      && (p.out != q.out ==> q.out == Ok(()) && q.conn.info.tid.None? && p.out == Raised(TypeError))
  {
    if c.connected {
      var e := if IsEnumerated(c.info, FeatureId) then Step(c, link, Ok(true))
               else EnumerateFeature(c, link, FeatureId);
      if e.out == Ok(true) {
        IdentityReportRaisesOnlyWithoutTid(e.conn, e.link);
      }
    }
  }

  /** The same, for the part after 0x0003 is found. */
  lemma {:induction false} IdentityReportRaisesOnlyWithoutTid(c: Conn, link: Link)
    requires Valid(c.info) && IsEnumerated(c.info, FeatureId)
    ensures var q := ReadIdentity(c, link, false);
      var p := ReadIdentity(c, link, true);
      && p.conn == q.conn && p.link == q.link
      && (p.out != q.out ==> q.out == Ok(()) && q.conn.info.tid.None? && p.out == Raised(TypeError))
  {
    var d := Call(c, link, FeatureId, GetDeviceInfoRequest(), ParseDeviceInfo);
    if d.out.Ok? && d.out.value.Some? {
      var ident := d.out.value.value;
      var r := ReadEntities(c.(info := SetDeviceInfo(c.info, ident)), d.link, ident.entityCount);
      assert r.out.Ok? ==> r.out.value == ();
    }
  }

  /**
   * A device that reports no entities leaves `tid` unset, so asking for the
   * report raises TypeError where the plain read succeeds.
   */
  lemma {:induction false} NoEntitiesReportRaises(c: Conn, link: Link, ident: DeviceInfoStruct)
    requires Valid(c.info) && c.connected && IsEnumerated(c.info, FeatureId) && c.info.tid.None?
    requires Call(c, link, FeatureId, GetDeviceInfoRequest(), ParseDeviceInfo).out == Ok(Some(ident))
    requires ident.entityCount <= 0
    ensures ReadDeviceInfo(c, link, true).out == Raised(TypeError)
    ensures ReadDeviceInfo(c, link, false).out == Ok(())
  {
  }

  /** An entity whose firmware is the active main application. */
  predicate IsMainEntity(fw: FirmwareInfo) { fw.devType == 0 && fw.active }

  /**
   * `get_fw_info(k)` for a feature already in the directory: one request to
   * function 1, and a missing reply makes the next attribute read raise.
   */
  function FetchFirmware(c: Conn, link: Link, k: int): (s: Step<FirmwareInfo>)
    requires Valid(c.info) && IsEnumerated(c.info, FeatureId)
    ensures s.conn == c
    ensures s.out.Raised? ==> s.out.exc in {IndexError, ValueError, AttributeError}
    ensures s.out.Ok? ==> s.out.value.entityIdx == k
  {
    var f := Call(c, link, FeatureId, GetFwInfoRequest(k), (p: seq<int>) => ParseFwInfo(k, p));
    CallOnKnownFeature(c, link, FeatureId, GetFwInfoRequest(k), (p: seq<int>) => ParseFwInfo(k, p));
    match f.out
    case Raised(x) => Step(c, f.link, Raised(x))
    case Ok(None) => Step(c, f.link, Raised(AttributeError))
    case Ok(Some(fw)) => Step(c, f.link, Ok(fw))
  }

  /** The firmware records read before the loop stopped, and why it stopped. */
  datatype Fetched = Fetched(fws: seq<FirmwareInfo>, link: Link, out: Result<()>)

  /**
   * The requests of the loop over `range(entity_count)`, from entity `k` on.
   * Recording an entity changes only the entity list and `tid`, which the
   * request does not read, so every request is made on the same connection.
   */
  function FetchEntities(c: Conn, link: Link, k: int, count: int): (f: Fetched)
    requires Valid(c.info) && IsEnumerated(c.info, FeatureId)
    ensures |f.fws| <= (if k < count then count - k else 0)
    ensures f.out.Ok? ==> |f.fws| == (if k < count then count - k else 0)
    ensures forall i :: 0 <= i < |f.fws| ==> f.fws[i].entityIdx == k + i
    decreases if k < count then count - k else 0
  {
    if k >= count then Fetched([], link, Ok(()))
    else
      var s := FetchFirmware(c, link, k);
      match s.out
      case Raised(x) => Fetched([], s.link, Raised(x))
      case Ok(fw) =>
        var rest := FetchEntities(c, s.link, k + 1, count);
        Fetched([fw] + rest.fws, rest.link, rest.out)
  }

  /**
   * `add_entity_fw_info` for each record in order, and `tid` set to the
   * transport pid of each main-application entity met.
   */
  function RecordEntities(d: DeviceInfo, fws: seq<FirmwareInfo>): (r: DeviceInfo)
    ensures r == d.(entities := d.entities + fws, tid := r.tid)
    ensures r.tid != d.tid ==>
      exists i :: 0 <= i < |fws| && IsMainEntity(fws[i]) && r.tid == Some(fws[i].trPid)
    ensures (forall i :: 0 <= i < |fws| ==> !IsMainEntity(fws[i])) ==> r.tid == d.tid
    decreases |fws|
  {
    if fws == [] then d
    else
      var d1 := AddEntityFwInfo(d, fws[0]);
      var d2 := if IsMainEntity(fws[0]) then d1.(tid := Some(fws[0].trPid)) else d1;
      var r := RecordEntities(d2, fws[1..]);
      assert d.entities + fws == d2.entities + fws[1..];
      assert r.tid != d2.tid ==> exists i :: 0 <= i < |fws| && IsMainEntity(fws[i]) && r.tid == Some(fws[i].trPid) by {
        if r.tid != d2.tid {
          var j :| 0 <= j < |fws[1..]| && IsMainEntity(fws[1..][j]) && r.tid == Some(fws[1..][j].trPid);
          assert fws[j + 1] == fws[1..][j];
        }
      }
      r
  }

  /** The last main-application entity read decides `tid`. */
  lemma {:induction false} LastMainEntityWins(d: DeviceInfo, fws: seq<FirmwareInfo>, i: int)
    requires 0 <= i < |fws| && IsMainEntity(fws[i])
    requires forall j :: i < j < |fws| ==> !IsMainEntity(fws[j])
    ensures RecordEntities(d, fws).tid == Some(fws[i].trPid)
    decreases |fws|
  {
    var d1 := AddEntityFwInfo(d, fws[0]);
    var d2 := if IsMainEntity(fws[0]) then d1.(tid := Some(fws[0].trPid)) else d1;
    if i == 0 {
      assert forall j :: 0 <= j < |fws[1..]| ==> !IsMainEntity(fws[1..][j]) by {
        forall j | 0 <= j < |fws[1..]| ensures !IsMainEntity(fws[1..][j]) {
          assert fws[1..][j] == fws[j + 1];
        }
      }
    } else {
      assert fws[1..][i - 1] == fws[i];
      assert forall j :: i - 1 < j < |fws[1..]| ==> !IsMainEntity(fws[1..][j]) by {
        forall j | i - 1 < j < |fws[1..]| ensures !IsMainEntity(fws[1..][j]) {
          assert fws[1..][j] == fws[j + 1];
        }
      }
      LastMainEntityWins(d2, fws[1..], i - 1);
    }
  }

  /** The entity loop: the records read are kept even when a later read raises. */
  function ReadEntities(c: Conn, link: Link, count: int): (s: Step<()>)
    requires Valid(c.info) && IsEnumerated(c.info, FeatureId)
    ensures s.conn == c.(info := s.conn.info) && Valid(s.conn.info)
    ensures s.out.Ok? ==> |s.conn.info.entities| == |c.info.entities| + (if count > 0 then count else 0)
    ensures |c.info.entities| <= |s.conn.info.entities| <= |c.info.entities| + (if count > 0 then count else 0)
    ensures s.conn.info == c.info.(entities := s.conn.info.entities, tid := s.conn.info.tid)
    ensures s.conn.info.entities[..|c.info.entities|] == c.info.entities
    ensures forall i :: |c.info.entities| <= i < |s.conn.info.entities| ==>
      s.conn.info.entities[i].entityIdx == i - |c.info.entities|
  {
    var f := FetchEntities(c, link, 0, count);
    var info := RecordEntities(c.info, f.fws);
    assert info.entities[..|c.info.entities|] == c.info.entities;
    Step(c.(info := info), f.link, f.out)
  }
}
