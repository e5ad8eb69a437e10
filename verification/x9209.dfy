/**
 * Feature 0x9209 (features/x9209.py): an angle sensor calibrated by its
 * arctangent range. Every request is sixteen params with the sensor index
 * first; 16-bit values travel high byte first. Replies echo the sensor
 * index, and no method checks for a missing reply.
 *
 * `write_calibration` stores its pairs through a tuple index and raises
 * before sending; it is modelled as written next to the slice stores
 * evidently meant.
 */
module X9209 {
  import opened Wrappers
  import opened Bits
  import opened IntCodec
  import opened Packing
  import opened Frame
  import opened Device
  import opened Connection
  import opened FeatureCall

  const FeatureId := 0x9209

  /** Sixteen zero params with the sensor index first. */
  function Block(sensor: int): (d: seq<int>)
    ensures |d| == 16 && d[0] == sensor
    ensures forall i :: 0 < i < 16 ==> d[i] == 0
  {
    Zeros16()[0 := sensor]
  }

  /** Reset 2, shutdown 3, calibration start 5, stop 6 and read 7 carry only the sensor index. */
  function SensorRequest(func: int, sensor: int): (q: Payload)
    ensures q.func == func && q.params == Block(sensor)
  {
    Payload(func, Block(sensor))
  }

  function ReadRegisterRequest(sensor: int, reg: int): (q: Payload)
    ensures q.func == 0 && |q.params| == 16 && q.params[0] == sensor && q.params[1] == reg
    ensures forall i :: 1 < i < 16 ==> q.params[i] == 0
  {
    Payload(0, Block(sensor)[1 := reg])
  }

  /** `write_sensor_register`: the value at params 2-3, struct.error outside 16 bits. */
  function WriteRegisterRequest(sensor: int, reg: int, value: int): (q: Result<Payload>)
    ensures q.Raised? ==> q.exc == StructError
  {
    match PutU16s(Block(sensor)[1 := reg], 2, [value])
    case Raised(e) => Raised(e)
    case Ok(d) => Ok(Payload(1, d))
  }

  /** What register reads and writes report: sensor, register and value. */
  datatype Register = Register(sensor: int, reg: int, value: int)

  /** The register reply: p0 and p1, then the value big-endian in p2-3. */
  function ParseRegister(p: seq<int>): (r: Result<Register>)
    ensures r.Ok? <==> |p| >= 2
    ensures r.Raised? ==> r.exc == IndexError
    ensures r.Ok? ==> r.value.sensor == p[0] && r.value.reg == p[1]
    ensures |p| >= 4 && IsBytes(p[2..4]) ==> r.value.value == 256 * p[2] + p[3]
  {
    match At(p, 0)
    case Raised(e) => Raised(e)
    case Ok(sensor) =>
      match At(p, 1)
      case Raised(e) => Raised(e)
      case Ok(reg) => Ok(Register(sensor, reg, U16At(p, 2)))
  }

  /**
   * A device echoing a register write reports exactly the sensor, register
   * and value written, and the write fails only for values outside 16 bits.
   */
  lemma {:induction false} WriteRegisterEcho(sensor: int, reg: int, value: int)
    ensures WriteRegisterRequest(sensor, reg, value).Ok? <==> InU16(value)
    ensures WriteRegisterRequest(sensor, reg, value).Ok? ==>
      ParseRegister(WriteRegisterRequest(sensor, reg, value).value.params) == Ok(Register(sensor, reg, value))
  {
    var s := Block(sensor)[1 := reg];
    PutU16sOk(s, 2, [value]);
    if InU16(value) {
      var d := PutU16s(s, 2, [value]).value;
      PutU16sReadBack(s, 2, [value]);
      PutU16sFrame(s, 2, [value]);
      assert d[0] == d[..2][0] && d[1] == d[..2][1];
    }
  }

  /** `reset_sensor` and `shutdown_sensor` report the sensor index in p0. */
  function ParseSensor(p: seq<int>): (r: Result<int>)
    ensures r.Ok? <==> |p| >= 1
    ensures r.Ok? ==> r.value == p[0]
    ensures r.Raised? ==> r.exc == IndexError
  {
    At(p, 0)
  }

  /** `monitor_test`: the count at params 1-2 and the threshold at 4. */
  function MonitorTestRequest(sensor: int, count: int, threshold: int): (q: Result<Payload>)
    ensures q.Raised? ==> q.exc == StructError
  {
    match PutU16s(Block(sensor)[4 := threshold], 1, [count])
    case Raised(e) => Raised(e)
    case Ok(d) => Ok(Payload(4, d))
  }

  datatype MonitorEcho = MonitorEcho(sensor: int, count: int, threshold: int)

  /** The monitor reply: sensor, the count from p1-2, and the threshold from p3. */
  function ParseMonitorEcho(p: seq<int>): (r: Result<MonitorEcho>)
    ensures r.Ok? <==> |p| >= 4
    ensures r.Raised? ==> r.exc == IndexError
    ensures r.Ok? ==> r.value.sensor == p[0] && r.value.threshold == p[3]
  {
    match At(p, 0)
    case Raised(e) => Raised(e)
    case Ok(sensor) =>
      var count := U16At(p, 1);
      match At(p, 3)
      case Raised(e) => Raised(e)
      case Ok(threshold) => Ok(MonitorEcho(sensor, count, threshold))
  }

  /**
   * The request and the reply place the threshold differently (param 4
   * out, param 3 back): a device echoing the request params reports the
   * count written but a zero threshold.
   */
  lemma {:induction false} MonitorEchoMovesThreshold(sensor: int, count: int, threshold: int)
    ensures MonitorTestRequest(sensor, count, threshold).Ok? <==> InU16(count)
    ensures MonitorTestRequest(sensor, count, threshold).Ok? ==>
      ParseMonitorEcho(MonitorTestRequest(sensor, count, threshold).value.params) == Ok(MonitorEcho(sensor, count, 0))
      && MonitorTestRequest(sensor, count, threshold).value.params[4] == threshold
  {
    var s := Block(sensor)[4 := threshold];
    PutU16sOk(s, 1, [count]);
    if InU16(count) {
      var d := PutU16s(s, 1, [count]).value;
      PutU16sReadBack(s, 1, [count]);
      PutU16sFrame(s, 1, [count]);
      assert d[0] == d[..1][0] && d[3] == d[3..][0] && d[4] == d[3..][1];
    }
  }

  /** The calibrated arctangent range reported by the calibration functions. */
  datatype AtanRange = AtanRange(sensor: int, minAtan: int, maxAtan: int)

  /** Calibration replies: the sensor in p0, then the minimum and maximum big-endian. */
  function ParseAtanRange(p: seq<int>): (r: Result<AtanRange>)
    ensures r.Ok? <==> |p| >= 1
    ensures r.Raised? ==> r.exc == IndexError
    ensures r.Ok? ==> r.value.sensor == p[0]
    ensures |p| >= 5 && IsBytes(p[1..5]) ==>
      r.value.minAtan == 256 * p[1] + p[2] && r.value.maxAtan == 256 * p[3] + p[4]
  {
    match At(p, 0)
    case Raised(e) => Raised(e)
    case Ok(sensor) => Ok(AtanRange(sensor, U16At(p, 1), U16At(p, 3)))
  }

  /** `write_calibration` as written: a tuple index, so it raises before building a request. */
  function WriteCalibrationAsWritten(sensor: int, minAtan: int, maxAtan: int): Result<Payload>
  {
    Raised(TupleIndexStore(minAtan))
  }

  /** `write_calibration` with slice stores: the range at params 1-4. */
  function WriteCalibrationRequest(sensor: int, minAtan: int, maxAtan: int): (q: Result<Payload>)
    ensures q.Raised? ==> q.exc == StructError
    ensures q.Ok? ==> q.value.func == 8 && |q.value.params| == 16
  {
    match PutU16s(Block(sensor), 1, [minAtan, maxAtan])
    case Raised(e) => Raised(e)
    case Ok(d) => Ok(Payload(8, d))
  }

  /**
   * The corrected write succeeds exactly for a 16-bit range, and a device
   * echoing it reports the range written.
   */
  lemma {:induction false} CalibrationRoundTrip(sensor: int, minAtan: int, maxAtan: int)
    ensures WriteCalibrationRequest(sensor, minAtan, maxAtan).Ok? <==> InU16(minAtan) && InU16(maxAtan)
    ensures WriteCalibrationRequest(sensor, minAtan, maxAtan).Ok? ==>
      ParseAtanRange(WriteCalibrationRequest(sensor, minAtan, maxAtan).value.params)
        == Ok(AtanRange(sensor, minAtan, maxAtan))
  {
    var s := Block(sensor);
    var vs := [minAtan, maxAtan];
    PutU16sOk(s, 1, vs);
    assert (forall k :: 0 <= k < |vs| ==> InU16(vs[k])) <==> InU16(minAtan) && InU16(maxAtan) by {
      assert vs[0] == minAtan && vs[1] == maxAtan;
    }
    if InU16(minAtan) && InU16(maxAtan) {
      var d := PutU16s(s, 1, vs).value;
      PutU16sReadBack(s, 1, vs);
      PutU16sFrame(s, 1, vs);
      assert d[0] == d[..1][0];
      assert U16At(d, 1) == vs[0] && U16At(d, 3) == vs[1];
    }
  }

  /** The written method never sends; for a range the corrected write sends, it raises TypeError. */
  lemma {:induction false} WriteCalibrationAlwaysRaises(sensor: int, minAtan: int, maxAtan: int)
    ensures WriteCalibrationAsWritten(sensor, minAtan, maxAtan).Raised?
    ensures WriteCalibrationRequest(sensor, minAtan, maxAtan).Ok? ==>
      WriteCalibrationAsWritten(sensor, minAtan, maxAtan).exc == TypeError
  {
    CalibrationRoundTrip(sensor, minAtan, maxAtan);
  }

  /** `calibrate`: reference point index and value at params 1 and 2. */
  function CalibrateRequest(sensor: int, pointIdx: int, pointValue: int): (q: Payload)
    ensures q.func == 9 && |q.params| == 16
    ensures q.params[..3] == [sensor, pointIdx, pointValue]
    ensures forall i :: 3 <= i < 16 ==> q.params[i] == 0
  {
    Payload(9, Block(sensor)[1 := pointIdx][2 := pointValue])
  }

  datatype Calibrated = Calibrated(sensor: int, pointIdx: int, pointValue: int, atan: int)

  /** The calibrate reply: three params echoed, then the arctangent big-endian in p3-4. */
  function ParseCalibrated(p: seq<int>): (r: Result<Calibrated>)
    ensures r.Ok? <==> |p| >= 3
    ensures r.Raised? ==> r.exc == IndexError
    ensures r.Ok? ==> r.value.sensor == p[0] && r.value.pointIdx == p[1] && r.value.pointValue == p[2]
    ensures |p| >= 5 && IsBytes(p[3..5]) ==> r.value.atan == 256 * p[3] + p[4]
  {
    match At(p, 0)
    case Raised(e) => Raised(e)
    case Ok(sensor) =>
      match At(p, 1)
      case Raised(e) => Raised(e)
      case Ok(idx) =>
        match At(p, 2)
        case Raised(e) => Raised(e)
        case Ok(value) => Ok(Calibrated(sensor, idx, value, U16At(p, 3)))
  }

  // ------------------------------------------------------ monitor reports

  datatype MonitorData = MonitorData(
    sensor: int, fieldX: int, fieldY: int, fieldZ: int, temperature: int, atan: int, count: int)

  /** `decode_monitor_data`: the sensor must be present; the rest are slices and default to 0. */
  function DecodeMonitorData(m: seq<int>): (r: Result<MonitorData>)
    ensures r.Ok? <==> |m| >= 1
    ensures r.Raised? ==> r.exc == IndexError
    ensures r.Ok? ==> r.value.sensor == m[0]
    ensures r.Ok? && |m| < 16 ==> r.value.count == 0
  {
    match At(m, 0)
    case Raised(e) => Raised(e)
    case Ok(sensor) =>
      Ok(MonitorData(sensor,
        ListToI16Be(Slice(m, 1, 3)), ListToI16Be(Slice(m, 3, 5)), ListToI16Be(Slice(m, 5, 7)),
        ListToU16Be(Slice(m, 7, 9)), ListToU16Be(Slice(m, 9, 11)), ListToU16Be(Slice(m, 14, 16))))
  }

  predicate Representable(d: MonitorData)
  {
    InI16(d.fieldX) && InI16(d.fieldY) && InI16(d.fieldZ)
    && InU16(d.temperature) && InU16(d.atan) && InU16(d.count)
  }

  /** A report laid out as the decoder reads it; params 11 to 13 are unused. */
  function MonitorReport(d: MonitorData, unused: seq<int>): (m: seq<int>)
    requires Representable(d) && |unused| == 3
    ensures |m| == 16
  {
    [d.sensor] + I16ToListBe(d.fieldX) + I16ToListBe(d.fieldY) + I16ToListBe(d.fieldZ)
    + U16ToListBe(d.temperature) + U16ToListBe(d.atan) + unused + U16ToListBe(d.count)
  }

  /** Every representable report decodes to its fields, whatever the unused params hold. */
  lemma {:induction false} MonitorRoundTrip(d: MonitorData, unused: seq<int>)
    requires Representable(d) && |unused| == 3
    ensures DecodeMonitorData(MonitorReport(d, unused)) == Ok(d)
  {
    var m := MonitorReport(d, unused);
    assert m[0] == d.sensor;
    assert Slice(m, 1, 3) == I16ToListBe(d.fieldX) && Slice(m, 3, 5) == I16ToListBe(d.fieldY);
    assert Slice(m, 5, 7) == I16ToListBe(d.fieldZ);
    assert Slice(m, 7, 9) == U16ToListBe(d.temperature) && Slice(m, 9, 11) == U16ToListBe(d.atan);
    assert Slice(m, 14, 16) == U16ToListBe(d.count);
    I16RoundTrip(d.fieldX);
    I16RoundTrip(d.fieldY);
    I16RoundTrip(d.fieldZ);
    U16RoundTrip(d.temperature);
    U16RoundTrip(d.atan);
    U16RoundTrip(d.count);
  }

  // -------------------------------------------------------- device calls

  function ReadSensorRegister(c: Conn, link: Link, sensor: int, reg: int): Step<Register>
    requires Valid(c.info)
  {
    CallStrict(c, link, FeatureId, ReadRegisterRequest(sensor, reg), ParseRegister)
  }

  /** A payload that raised is never sent; otherwise the strict call parses the reply. */
  function CallBuilt<T>(c: Conn, link: Link, q: Result<Payload>, parse: seq<int> -> Result<T>): Step<T>
    requires Valid(c.info)
  {
    match q
    case Raised(e) => Step(c, link, Raised(e))
    case Ok(p) => CallStrict(c, link, FeatureId, p, parse)
  }

  function WriteSensorRegister(c: Conn, link: Link, sensor: int, reg: int, value: int): Step<Register>
    requires Valid(c.info)
  {
    CallBuilt(c, link, WriteRegisterRequest(sensor, reg, value), ParseRegister)
  }

  function ResetSensor(c: Conn, link: Link, sensor: int): Step<int>
    requires Valid(c.info)
  {
    CallStrict(c, link, FeatureId, SensorRequest(2, sensor), ParseSensor)
  }

  function ShutdownSensor(c: Conn, link: Link, sensor: int): Step<int>
    requires Valid(c.info)
  {
    CallStrict(c, link, FeatureId, SensorRequest(3, sensor), ParseSensor)
  }

  function MonitorTest(c: Conn, link: Link, sensor: int, count: int, threshold: int): Step<MonitorEcho>
    requires Valid(c.info)
  {
    CallBuilt(c, link, MonitorTestRequest(sensor, count, threshold), ParseMonitorEcho)
  }

  function StartCalibration(c: Conn, link: Link, sensor: int): Step<AtanRange>
    requires Valid(c.info)
  {
    CallStrict(c, link, FeatureId, SensorRequest(5, sensor), ParseAtanRange)
  }

  function StopCalibration(c: Conn, link: Link, sensor: int): Step<AtanRange>
    requires Valid(c.info)
  {
    CallStrict(c, link, FeatureId, SensorRequest(6, sensor), ParseAtanRange)
  }

  function ReadCalibration(c: Conn, link: Link, sensor: int): Step<AtanRange>
    requires Valid(c.info)
  {
    CallStrict(c, link, FeatureId, SensorRequest(7, sensor), ParseAtanRange)
  }

  /**
   * `write_calibration` as written: the tuple index raises while the
   * payload is built, TypeError for a range that fits 16 bits, so nothing
   * is ever sent.
   */
  function WriteCalibration(c: Conn, link: Link, sensor: int, minAtan: int, maxAtan: int): (s: Step<AtanRange>)
    requires Valid(c.info)
    ensures s.conn == c && s.link == link && s.out.Raised?
    ensures InU16(minAtan) && InU16(maxAtan) ==> s.out == Raised(TypeError)
  {
    WriteCalibrationAlwaysRaises(sensor, minAtan, maxAtan);
    CalibrationRoundTrip(sensor, minAtan, maxAtan);
    CallBuilt(c, link, WriteCalibrationAsWritten(sensor, minAtan, maxAtan), ParseAtanRange)
  }

  /**
   * `write_calibration` with slice stores: a range outside 16 bits raises
   * struct.error before anything is sent; otherwise, on a known feature,
   * exactly one request is sent and its params read back as the range.
   */
  function WriteCalibrationCorrected(c: Conn, link: Link, sensor: int, minAtan: int, maxAtan: int): (s: Step<AtanRange>)
    requires Valid(c.info)
    ensures !(InU16(minAtan) && InU16(maxAtan)) ==> s == Step(c, link, Raised(StructError))
    ensures InU16(minAtan) && InU16(maxAtan) && c.connected && IsEnumerated(c.info, FeatureId) ==>
      && s.conn == c && |s.link.sent| == |link.sent| + 1 && s.link.sent[..|link.sent|] == link.sent
      && ParseAtanRange(s.link.sent[|link.sent|].params) == Ok(AtanRange(sensor, minAtan, maxAtan))
  {
    CalibrationRoundTrip(sensor, minAtan, maxAtan);
    var q := WriteCalibrationRequest(sensor, minAtan, maxAtan);
    assert q.Ok? && c.connected && IsEnumerated(c.info, FeatureId) ==>
      Call(c, link, FeatureId, q.value, ParseAtanRange).link.sent == link.sent + [CallRequest(c, FeatureId, q.value)]
      && Call(c, link, FeatureId, q.value, ParseAtanRange).conn == c
      && CallRequest(c, FeatureId, q.value).params == q.value.params by {
      if q.Ok? && c.connected && IsEnumerated(c.info, FeatureId) {
        CallSendsOneRequest(c, link, FeatureId, q.value, ParseAtanRange);
        FullPayloadSentAsIs(c, FeatureId, q.value);
      }
    }
    CallBuilt(c, link, q, ParseAtanRange)
  }

  function Calibrate(c: Conn, link: Link, sensor: int, pointIdx: int, pointValue: int): Step<Calibrated>
    requires Valid(c.info)
  {
    CallStrict(c, link, FeatureId, CalibrateRequest(sensor, pointIdx, pointValue), ParseCalibrated)
  }

  /**
   * On a known feature, a register write with a value out of range sends
   * nothing and raises struct.error; one in range sends the packed request
   * and a device echoing it reports the register written.
   */
  lemma {:induction false} WriteRegisterAnswered(c: Conn, link: Link, r: Request, sensor: int, reg: int, value: int)
    requires Valid(c.info) && c.connected && IsEnumerated(c.info, FeatureId)
    requires link.replies != [] && link.replies[0] == Some(r) && Answers(c, FeatureId, r)
    requires WriteRegisterRequest(sensor, reg, value).Ok? ==>
      r.params == WriteRegisterRequest(sensor, reg, value).value.params
    ensures !InU16(value) ==> WriteSensorRegister(c, link, sensor, reg, value) == Step(c, link, Raised(StructError))
    ensures WriteRegisterRequest(sensor, reg, value).Ok? ==>
      && WriteSensorRegister(c, link, sensor, reg, value).out == Ok(Register(sensor, reg, value))
      && WriteSensorRegister(c, link, sensor, reg, value).link.sent
           == link.sent + [CallRequest(c, FeatureId, WriteRegisterRequest(sensor, reg, value).value)]
  {
    WriteRegisterEcho(sensor, reg, value);
    if InU16(value) {
      CallStrictAnswered(c, link, FeatureId, WriteRegisterRequest(sensor, reg, value).value, ParseRegister, r);
    }
  }
}
