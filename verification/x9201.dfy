/**
 * Feature 0x9201 (features/x9201.py): a rotary sensor with proximity
 * sensing. Requests are sixteen params; 16-bit values travel high byte
 * first; no method checks for a missing reply.
 *
 * Two payloads come out a different length from the sixteen the others
 * use: `read_sensor_register` stores the two address bytes into a
 * one-element slice, lengthening the list to seventeen, and
 * `write_sensor_register` stores two value bytes into a four-element
 * slice, shortening it to fourteen. The first overflows its report and
 * is a finding; the second is padded back to the same report and is
 * harmless. `write_calibration` raises through a tuple index.
 */
module X9201 {
  import opened Wrappers
  import opened Bits
  import opened IntCodec
  import opened Packing
  import opened Frame
  import opened Device
  import opened Connection
  import opened FeatureCall

  const FeatureId := 0x9201

  /** Shutdown 3, reset 4, calibration start 6, stop 7 and read 8 send sixteen zeros. */
  function PlainRequest(func: int): (q: Payload)
    ensures q.func == func && q.params == Zeros16()
  {
    Payload(func, Zeros16())
  }

  datatype Capabilities = Capabilities(product: int, major: int, minor: int)

  /** `getCapabilities`: three big-endian pairs; slices only, so it never raises. */
  function ParseCapabilities(p: seq<int>): (r: Capabilities)
    ensures |p| >= 6 && IsBytes(p[..6]) ==>
      r == Capabilities(256 * p[0] + p[1], 256 * p[2] + p[3], 256 * p[4] + p[5])
    ensures |p| < 2 ==> r == Capabilities(0, 0, 0)
  {
    Capabilities(U16At(p, 0), U16At(p, 2), U16At(p, 4))
  }

  /** The register address at params 0-1 and the length at 2, as written: seventeen params. */
  function ReadRegisterRequestAsWritten(reg: int, length: int): (q: Result<Payload>)
    ensures q.Raised? ==> q.exc == StructError
  {
    match PackU16Be(reg)
    case Raised(e) => Raised(e)
    case Ok(b) => Ok(Payload(1, SliceAssign(Zeros16(), 0, 1, b)[2 := length]))
  }

  /** The same request with the address stored over params 0-1: sixteen params. */
  function ReadRegisterRequest(reg: int, length: int): (q: Result<Payload>)
    ensures q.Raised? ==> q.exc == StructError
  {
    match PutU16s(Zeros16()[2 := length], 0, [reg])
    case Raised(e) => Raised(e)
    case Ok(d) => Ok(Payload(1, d))
  }

  /**
   * Both requests succeed for the same addresses and agree on their first
   * sixteen params, the written one having a zero more; that extra param
   * overflows the long report the request is sent as.
   */
  lemma {:induction false} ReadRegisterSeventeenParams(reg: int, length: int)
    ensures ReadRegisterRequestAsWritten(reg, length).Ok? <==> InU16(reg)
    ensures ReadRegisterRequest(reg, length).Ok? <==> InU16(reg)
    ensures InU16(reg) ==>
      var w := ReadRegisterRequestAsWritten(reg, length).value.params;
      var d := ReadRegisterRequest(reg, length).value.params;
      && |d| == 16 && w == d + [0]
      && RequestTypeFor(|w|) == Long && RequestTypeFor(|d|) == Long
      && |BuildRequest(FromFields(0, 0, 0, DefaultSwId, w, TypeName(Long)).value).value| > TypeLength(Long)
  {
    PutU16sOk(Zeros16()[2 := length], 0, [reg]);
    if InU16(reg) {
      var w := ReadRegisterRequestAsWritten(reg, length).value.params;
      var d := ReadRegisterRequest(reg, length).value.params;
      assert w == d + [0] && |d| == 16 by {
        ReadRegisterShapes(reg, length);
      }
      SeventeenToTwentyParamsOverflowLong(w);
    }
  }

  lemma {:induction false} ReadRegisterShapes(reg: int, length: int)
    requires InU16(reg)
    ensures ReadRegisterRequestAsWritten(reg, length).Ok? && ReadRegisterRequest(reg, length).Ok?
    ensures ReadRegisterRequestAsWritten(reg, length).value.params == Be16(reg) + [length] + Zeros(14)
    ensures ReadRegisterRequest(reg, length).value.params == Be16(reg) + [length] + Zeros(13)
  {
    var s := Zeros16()[2 := length];
    PutU16One(s, 0, reg);
    assert s[2..] == [length] + Zeros(13);
    assert SliceAssign(Zeros16(), 0, 1, Be16(reg))[2 := length] == Be16(reg) + [length] + Zeros(14);
  }

  /** The register read: the first param, or a big-endian pair or quad for lengths 2 and 4. */
  function ParseRegister(length: int, p: seq<int>): (r: Result<int>)
    ensures r.Ok? <==> |p| >= 1
    ensures r.Raised? ==> r.exc == IndexError
    ensures r.Ok? && length != 2 && length != 4 ==> r.value == p[0]
    ensures length == 2 && |p| >= 2 && IsBytes(p[..2]) ==> r.value == 256 * p[0] + p[1]
    ensures length == 4 && |p| >= 4 && IsBytes(p[..4]) ==> InU32(r.value)
  {
    match At(p, 0)
    case Raised(e) => Raised(e)
    case Ok(v) =>
      if length == 2 then Ok(U16At(p, 0))
      else if length == 4 then Ok(ListToU32Be(Slice(p, 0, 4)))
      else Ok(v)
  }

  /**
   * `write_sensor_register`: address at 0-1, length at 2, then two value
   * bytes stored over the four-element slice 3..7, which leaves fourteen
   * params.
   */
  function WriteRegisterRequest(reg: int, length: int, value: int): (q: Result<Payload>)
    ensures q.Raised? ==> q.exc == StructError
  {
    match PutU16s(Zeros16()[2 := length], 0, [reg])
    case Raised(e) => Raised(e)
    case Ok(d) =>
      match PackU16Be(value)
      case Raised(e) => Raised(e)
      case Ok(b) => Ok(Payload(2, SliceAssign(d, 3, 7, b)))
  }

  /**
   * The shortened write still goes out as the sixteen-param long request
   * with the value at params 3-4: the library pads it back with zeros.
   */
  lemma {:induction false} WriteRegisterPadded(reg: int, length: int, value: int)
    ensures WriteRegisterRequest(reg, length, value).Ok? <==> InU16(reg) && InU16(value)
    ensures WriteRegisterRequest(reg, length, value).Ok? ==>
      var p := WriteRegisterRequest(reg, length, value).value.params;
      && |p| == 14 && RequestTypeFor(|p|) == Long
      && PadTo(p, Capacity(Long)) == Be16(reg) + [length] + Be16(value) + Zeros(11)
  {
    var s := Zeros16()[2 := length];
    PutU16sOk(s, 0, [reg]);
    if InU16(reg) && InU16(value) {
      var d := PutU16s(s, 0, [reg]).value;
      assert d == Be16(reg) + [length] + Zeros(13) by {
        PutU16sFrame(s, 0, [reg]);
        PutU16sPairs(s, 0, [reg]);
        assert d == d[..2] + d[2..];
        assert s[2..] == [length] + Zeros(13);
      }
      var p := SliceAssign(d, 3, 7, Be16(value));
      assert p == Be16(reg) + [length] + Be16(value) + Zeros(9);
      assert PadTo(p, 16) == p + Zeros(2);
    }
  }

  /** `setMonitoringMode`: the count at params 0-1 and the mode at 2. */
  function MonitorModeRequest(count: int, mode: int): (q: Result<Payload>)
    ensures q.Raised? ==> q.exc == StructError
  {
    match PutU16s(Zeros16()[2 := mode], 0, [count])
    case Raised(e) => Raised(e)
    case Ok(d) => Ok(Payload(5, d))
  }

  lemma {:induction false} MonitorModeLayout(count: int, mode: int)
    ensures MonitorModeRequest(count, mode).Ok? <==> InU16(count)
    ensures MonitorModeRequest(count, mode).Ok? ==>
      var p := MonitorModeRequest(count, mode).value.params;
      |p| == 16 && U16At(p, 0) == count && p[2] == mode
  {
    var s := Zeros16()[2 := mode];
    PutU16sOk(s, 0, [count]);
    if InU16(count) {
      var d := PutU16s(s, 0, [count]).value;
      PutU16sReadBack(s, 0, [count]);
      PutU16sFrame(s, 0, [count]);
      assert d[2] == d[2..][0];
    }
  }

  /** Calibration: the turn count and the A and B ranges. */
  datatype Calibration = Calibration(turns: int, minA: int, minB: int, maxA: int, maxB: int)

  /** `stop_calibration` and `read_calibration`: p0, then min A, min B, max A, max B big-endian. */
  function ParseCalibration(p: seq<int>): (r: Result<Calibration>)
    ensures r.Ok? <==> |p| >= 1
    ensures r.Raised? ==> r.exc == IndexError
    ensures r.Ok? ==> r.value.turns == p[0]
  {
    match At(p, 0)
    case Raised(e) => Raised(e)
    case Ok(turns) => Ok(Calibration(turns, U16At(p, 1), U16At(p, 3), U16At(p, 5), U16At(p, 7)))
  }

  /** `write_calibration(nb_turns, min_x, max_x, min_y, max_y)` as written: it raises. */
  function WriteCalibrationAsWritten(turns: int, minX: int, maxX: int, minY: int, maxY: int): Result<Payload>
  {
    Raised(TupleIndexStore(minX))
  }

  /** With slice stores: min X, min Y, max X, max Y from param 1, the reader's order. */
  function WriteCalibrationRequest(turns: int, minX: int, maxX: int, minY: int, maxY: int): (q: Result<Payload>)
    ensures q.Raised? ==> q.exc == StructError
    ensures q.Ok? ==> q.value.func == 9 && |q.value.params| == 16
  {
    match PutU16s(Zeros16()[0 := turns], 1, [minX, minY, maxX, maxY])
    case Raised(e) => Raised(e)
    case Ok(d) => Ok(Payload(9, d))
  }

  /** Params with the turns first and the four pairs from 1 parse to the calibration. */
  lemma {:induction false} ParseCalibrationOf(d: seq<int>, c: Calibration)
    requires |d| >= 9 && d[0] == c.turns
    requires [U16At(d, 1), U16At(d, 3), U16At(d, 5), U16At(d, 7)] == [c.minA, c.minB, c.maxA, c.maxB]
    ensures ParseCalibration(d) == Ok(c)
  {
    assert U16At(d, 1) == [U16At(d, 1), U16At(d, 3), U16At(d, 5), U16At(d, 7)][0];
    assert U16At(d, 3) == [U16At(d, 1), U16At(d, 3), U16At(d, 5), U16At(d, 7)][1];
    assert U16At(d, 5) == [U16At(d, 1), U16At(d, 3), U16At(d, 5), U16At(d, 7)][2];
    assert U16At(d, 7) == [U16At(d, 1), U16At(d, 3), U16At(d, 5), U16At(d, 7)][3];
  }

  /**
   * The corrected write succeeds exactly for 16-bit values, and its params
   * read back as the calibration with X as range A and Y as range B.
   */
  lemma {:induction false} CalibrationRoundTrip(turns: int, minX: int, maxX: int, minY: int, maxY: int)
    ensures WriteCalibrationRequest(turns, minX, maxX, minY, maxY).Ok?
        <==> InU16(minX) && InU16(maxX) && InU16(minY) && InU16(maxY)
    ensures WriteCalibrationRequest(turns, minX, maxX, minY, maxY).Ok? ==>
      ParseCalibration(WriteCalibrationRequest(turns, minX, maxX, minY, maxY).value.params)
        == Ok(Calibration(turns, minX, minY, maxX, maxY))
  {
    var s := Zeros16()[0 := turns];
    var vs := [minX, minY, maxX, maxY];
    assert PutU16s(s, 1, vs).Ok? <==> InU16(minX) && InU16(maxX) && InU16(minY) && InU16(maxY) by {
      PutU16sOk(s, 1, vs);
      assert vs[0] == minX && vs[1] == minY && vs[2] == maxX && vs[3] == maxY;
    }
    if PutU16s(s, 1, vs).Ok? {
      FourPairsAfterHead(s, vs);
      ParseCalibrationOf(PutU16s(s, 1, vs).value, Calibration(turns, minX, minY, maxX, maxY));
    }
  }

  /** The written method never sends; for values the corrected write sends, it raises TypeError. */
  lemma {:induction false} WriteCalibrationAlwaysRaises(turns: int, minX: int, maxX: int, minY: int, maxY: int)
    ensures WriteCalibrationAsWritten(turns, minX, maxX, minY, maxY).Raised?
    ensures WriteCalibrationRequest(turns, minX, maxX, minY, maxY).Ok? ==>
      WriteCalibrationAsWritten(turns, minX, maxX, minY, maxY).exc == TypeError
  {
    CalibrationRoundTrip(turns, minX, maxX, minY, maxY);
  }

  // ------------------------------------------------------ monitor reports

  datatype MonitorData = MonitorData(
    angle: int, interval: int, rotation: int, slot: int, ratchet: int,
    proxTouch: int, proxFusion: int, counter: int)

  /**
   * `decode_monitor_data`: params 4 to 7 are indexed and must be present;
   * the counter is everything from param 14, so it is 0 unless exactly two
   * params remain there.
   */
  function DecodeMonitorData(m: seq<int>): (r: Result<MonitorData>)
    ensures r.Ok? <==> |m| >= 8
    ensures r.Raised? ==> r.exc == IndexError
    ensures r.Ok? ==>
      && r.value.rotation == m[4] && r.value.slot == m[5]
      && r.value.ratchet == m[6] && r.value.proxTouch == m[7]
    ensures r.Ok? && |m| != 16 ==> r.value.counter == 0
  {
    if |m| < 8 then Raised(IndexError)
    else
      Ok(MonitorData(ListToU16Be(Slice(m, 0, 2)), ListToU16Be(Slice(m, 2, 4)), m[4], m[5], m[6], m[7],
                     ListToU16Be(Slice(m, 8, 10)), ListToU16Be(Drop(m, 14))))
  }

  predicate Representable(d: MonitorData)
  {
    InU16(d.angle) && InU16(d.interval) && InU16(d.proxFusion) && InU16(d.counter)
  }

  /** A sixteen-param report laid out as the decoder reads it; params 10 to 13 are unused. */
  function MonitorReport(d: MonitorData, unused: seq<int>): (m: seq<int>)
    requires Representable(d) && |unused| == 4
    ensures |m| == 16
  {
    U16ToListBe(d.angle) + U16ToListBe(d.interval) + [d.rotation, d.slot, d.ratchet, d.proxTouch]
    + U16ToListBe(d.proxFusion) + unused + U16ToListBe(d.counter)
  }

  lemma {:induction false} MonitorRoundTrip(d: MonitorData, unused: seq<int>)
    requires Representable(d) && |unused| == 4
    ensures DecodeMonitorData(MonitorReport(d, unused)) == Ok(d)
  {
    var m := MonitorReport(d, unused);
    assert Slice(m, 0, 2) == U16ToListBe(d.angle) && Slice(m, 2, 4) == U16ToListBe(d.interval);
    assert m[4] == d.rotation && m[5] == d.slot && m[6] == d.ratchet && m[7] == d.proxTouch;
    assert Slice(m, 8, 10) == U16ToListBe(d.proxFusion) && Drop(m, 14) == U16ToListBe(d.counter);
    U16RoundTrip(d.angle);
    U16RoundTrip(d.interval);
    U16RoundTrip(d.proxFusion);
    U16RoundTrip(d.counter);
  }

  // -------------------------------------------------------- device calls

  function GetCapabilities(c: Conn, link: Link): Step<Capabilities>
    requires Valid(c.info)
  {
    CallStrict(c, link, FeatureId, PlainRequest(0), (p: seq<int>) => Ok(ParseCapabilities(p)))
  }

  /**
   * `read_sensor_register` as written: the seventeen-param request, then
   * the length-dependent read. On a known feature a 16-bit address sends
   * exactly that request, typed long although it overflows a long report.
   */
  function ReadSensorRegister(c: Conn, link: Link, reg: int, length: int): (s: Step<int>)
    requires Valid(c.info)
    ensures !InU16(reg) ==> s == Step(c, link, Raised(StructError))
    ensures InU16(reg) && c.connected && IsEnumerated(c.info, FeatureId) ==>
      && s.conn == c && |s.link.sent| == |link.sent| + 1 && s.link.sent[..|link.sent|] == link.sent
      && s.link.sent[|link.sent|].reqType == Some(Long)
      && s.link.sent[|link.sent|].params == Be16(reg) + [length] + Zeros(14)
  {
    ReadRegisterSeventeenParams(reg, length);
    match ReadRegisterRequestAsWritten(reg, length)
    case Raised(e) => Step(c, link, Raised(e))
    case Ok(q) =>
      assert InU16(reg) && c.connected && IsEnumerated(c.info, FeatureId) ==>
        Call(c, link, FeatureId, q, p => ParseRegister(length, p)).link.sent == link.sent + [CallRequest(c, FeatureId, q)]
        && Call(c, link, FeatureId, q, p => ParseRegister(length, p)).conn == c
        && CallRequest(c, FeatureId, q).params == Be16(reg) + [length] + Zeros(14) by {
        if InU16(reg) && c.connected && IsEnumerated(c.info, FeatureId) {
          CallSendsOneRequest(c, link, FeatureId, q, p => ParseRegister(length, p));
          ReadRegisterShapes(reg, length);
        }
      }
      CallStrict(c, link, FeatureId, q, p => ParseRegister(length, p))
  }

  /**
   * `read_sensor_register` with the address stored over params 0-1: on a
   * known feature a 16-bit address sends exactly the sixteen-param request.
   */
  function ReadSensorRegisterCorrected(c: Conn, link: Link, reg: int, length: int): (s: Step<int>)
    requires Valid(c.info)
    ensures !InU16(reg) ==> s == Step(c, link, Raised(StructError))
    ensures InU16(reg) && c.connected && IsEnumerated(c.info, FeatureId) ==>
      && s.conn == c && |s.link.sent| == |link.sent| + 1 && s.link.sent[..|link.sent|] == link.sent
      && s.link.sent[|link.sent|].reqType == Some(Long)
      && s.link.sent[|link.sent|].params == Be16(reg) + [length] + Zeros(13)
  {
    ReadRegisterSeventeenParams(reg, length);
    match ReadRegisterRequest(reg, length)
    case Raised(e) => Step(c, link, Raised(e))
    case Ok(q) =>
      assert InU16(reg) && c.connected && IsEnumerated(c.info, FeatureId) ==>
        Call(c, link, FeatureId, q, p => ParseRegister(length, p)).link.sent == link.sent + [CallRequest(c, FeatureId, q)]
        && Call(c, link, FeatureId, q, p => ParseRegister(length, p)).conn == c
        && CallRequest(c, FeatureId, q).params == Be16(reg) + [length] + Zeros(13) by {
        if InU16(reg) && c.connected && IsEnumerated(c.info, FeatureId) {
          CallSendsOneRequest(c, link, FeatureId, q, p => ParseRegister(length, p));
          ReadRegisterShapes(reg, length);
          FullPayloadSentAsIs(c, FeatureId, q);
        }
      }
      CallStrict(c, link, FeatureId, q, p => ParseRegister(length, p))
  }

  function WriteSensorRegister(c: Conn, link: Link, reg: int, length: int, value: int): Step<Option<Request>>
    requires Valid(c.info)
  {
    Invoke(c, link, FeatureId, WriteRegisterRequest(reg, length, value))
  }

  function SetMonitoringMode(c: Conn, link: Link, count: int, mode: int): Step<Option<Request>>
    requires Valid(c.info)
  {
    Invoke(c, link, FeatureId, MonitorModeRequest(count, mode))
  }

  function StopCalibration(c: Conn, link: Link): Step<Calibration>
    requires Valid(c.info)
  {
    CallStrict(c, link, FeatureId, PlainRequest(7), ParseCalibration)
  }

  function ReadCalibration(c: Conn, link: Link): Step<Calibration>
    requires Valid(c.info)
  {
    CallStrict(c, link, FeatureId, PlainRequest(8), ParseCalibration)
  }

  /**
   * `write_calibration` as written: the tuple index raises while the
   * payload is built, TypeError for values that fit 16 bits, so nothing is
   * ever sent.
   */
  function WriteCalibration(c: Conn, link: Link, turns: int, minX: int, maxX: int, minY: int, maxY: int)
    : (s: Step<Option<Request>>)
    requires Valid(c.info)
    ensures s.conn == c && s.link == link && s.out.Raised?
    ensures InU16(minX) && InU16(maxX) && InU16(minY) && InU16(maxY) ==> s.out == Raised(TypeError)
  {
    WriteCalibrationAlwaysRaises(turns, minX, maxX, minY, maxY);
    CalibrationRoundTrip(turns, minX, maxX, minY, maxY);
    Invoke(c, link, FeatureId, WriteCalibrationAsWritten(turns, minX, maxX, minY, maxY))
  }

  /**
   * `write_calibration` with slice stores: values outside 16 bits raise
   * struct.error before anything is sent; otherwise, on a known feature,
   * exactly one request is sent and its params read back as the calibration.
   */
  function WriteCalibrationCorrected(c: Conn, link: Link, turns: int, minX: int, maxX: int, minY: int, maxY: int)
    : (s: Step<Option<Request>>)
    requires Valid(c.info)
    ensures !(InU16(minX) && InU16(maxX) && InU16(minY) && InU16(maxY)) ==> s == Step(c, link, Raised(StructError))
    ensures InU16(minX) && InU16(maxX) && InU16(minY) && InU16(maxY) && c.connected && IsEnumerated(c.info, FeatureId) ==>
      && s.conn == c && |s.link.sent| == |link.sent| + 1 && s.link.sent[..|link.sent|] == link.sent
      && ParseCalibration(s.link.sent[|link.sent|].params) == Ok(Calibration(turns, minX, minY, maxX, maxY))
  {
    CalibrationRoundTrip(turns, minX, maxX, minY, maxY);
    var q := WriteCalibrationRequest(turns, minX, maxX, minY, maxY);
    assert q.Ok? && IsEnumerated(c.info, FeatureId) ==> CallRequest(c, FeatureId, q.value).params == q.value.params by {
      if q.Ok? && IsEnumerated(c.info, FeatureId) {
        FullPayloadSentAsIs(c, FeatureId, q.value);
      }
    }
    Invoke(c, link, FeatureId, q)
  }
}
