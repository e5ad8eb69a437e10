/**
 * Feature 0x9205 (features/x9205.py): a three-axis magnetic sensor. Every
 * request is sixteen params with the sensor index in the last one; 16-bit
 * values travel high byte first. None of the methods checks for a missing
 * reply, so reading `res.params` then raises AttributeError.
 *
 * `write_calibration` stores each pair with `data[a, b] = ...`, a tuple
 * index, which raises before any request is built; it is modelled as
 * written next to the slice stores evidently meant.
 */
module X9205 {
  import opened Wrappers
  import opened Bits
  import opened IntCodec
  import opened Packing
  import opened Frame
  import opened Device
  import opened Connection
  import opened FeatureCall

  const FeatureId := 0x9205

  /** Where every request carries the sensor index. */
  const SensorSlot := 15

  /** Sixteen zero params with the sensor index in the last one. */
  function Block(sensor: int): (d: seq<int>)
    ensures |d| == 16 && d[SensorSlot] == sensor
    ensures forall i :: 0 <= i < SensorSlot ==> d[i] == 0
  {
    Zeros16()[SensorSlot := sensor]
  }

  /** The requests that carry nothing but the sensor index: reset 2, shutdown 3, calibration start 5, stop 6, read 7. */
  function SensorRequest(func: int, sensor: int): (q: Payload)
    ensures q.func == func && q.params == Block(sensor)
  {
    Payload(func, Block(sensor))
  }

  function ReadRegisterRequest(sensor: int, reg: int): (q: Payload)
    ensures q.func == 0 && |q.params| == 16
    ensures q.params[0] == reg && q.params[SensorSlot] == sensor
    ensures forall i :: 0 < i < SensorSlot ==> q.params[i] == 0
  {
    Payload(0, Block(sensor)[0 := reg])
  }

  /** `write_sensor_register`: struct.error for a value outside 16 bits. */
  function WriteRegisterRequest(sensor: int, reg: int, value: int): (q: Result<Payload>)
    ensures q.Raised? ==> q.exc == StructError
  {
    match PutU16s(Block(sensor)[0 := reg], 1, [value])
    case Raised(e) => Raised(e)
    case Ok(d) => Ok(Payload(1, d))
  }

  /** The register write succeeds exactly for 16-bit values and places them at params 1-2. */
  lemma {:induction false} WriteRegisterLayout(sensor: int, reg: int, value: int)
    ensures WriteRegisterRequest(sensor, reg, value).Ok? <==> InU16(value)
    ensures var q := WriteRegisterRequest(sensor, reg, value);
      q.Ok? ==>
        && q.value.func == 1 && |q.value.params| == 16 && q.value.params[0] == reg
        && U16At(q.value.params, 1) == value && q.value.params[SensorSlot] == sensor
  {
    var s := Block(sensor)[0 := reg];
    PutU16sOk(s, 1, [value]);
    if InU16(value) {
      PutU16sReadBack(s, 1, [value]);
      PutU16sFrame(s, 1, [value]);
      assert PutU16s(s, 1, [value]).value[3..][12] == s[3..][12];
    }
  }

  /** `monitor_test`: the count at params 0-1, then threshold and mode. */
  function MonitorTestRequest(sensor: int, count: int, threshold: int, mode: int): (q: Result<Payload>)
    ensures q.Raised? ==> q.exc == StructError
  {
    match PutU16s(Block(sensor)[2 := threshold][3 := mode], 0, [count])
    case Raised(e) => Raised(e)
    case Ok(d) => Ok(Payload(4, d))
  }

  lemma {:induction false} MonitorTestLayout(sensor: int, count: int, threshold: int, mode: int)
    ensures MonitorTestRequest(sensor, count, threshold, mode).Ok? <==> InU16(count)
    ensures var q := MonitorTestRequest(sensor, count, threshold, mode);
      q.Ok? ==>
        && q.value.func == 4 && U16At(q.value.params, 0) == count
        && q.value.params[2] == threshold && q.value.params[3] == mode
        && q.value.params[SensorSlot] == sensor
  {
    var s := Block(sensor)[2 := threshold][3 := mode];
    PutU16sOk(s, 0, [count]);
    if InU16(count) {
      PutU16One(s, 0, count);
      var d := s[..0] + Be16(count) + s[2..];
      U16AtBe16(d, 0, count);
      assert d[2] == s[2] && d[3] == s[3] && d[15] == s[15];
    }
  }

  datatype Register = Register(reg: int, value: int)

  /** `read_sensor_register`'s reply: the register in p0, its value big-endian in p1-2. */
  function ParseRegister(p: seq<int>): (r: Result<Register>)
    ensures r.Ok? <==> |p| >= 1
    ensures r.Raised? ==> r.exc == IndexError
    ensures r.Ok? ==> r.value.reg == p[0]
    ensures r.Ok? && |p| < 3 ==> r.value.value == 0
    ensures |p| >= 3 && IsBytes(p[1..3]) ==> r.value.value == 256 * p[1] + p[2]
  {
    match At(p, 0)
    case Raised(e) => Raised(e)
    case Ok(reg) => Ok(Register(reg, U16At(p, 1)))
  }

  /** The calibration record: the turn count and the six axis bounds. */
  datatype Calibration = Calibration(turns: int, minX: int, maxX: int, minY: int, maxY: int, minZ: int, maxZ: int)

  function Bounds(c: Calibration): seq<int>
  {
    [c.minX, c.maxX, c.minY, c.maxY, c.minZ, c.maxZ]
  }

  /** `stop_calibration` and `read_calibration`: p0, then six big-endian pairs from p1. */
  function ParseCalibration(p: seq<int>): (r: Result<Calibration>)
    ensures r.Ok? <==> |p| >= 1
    ensures r.Raised? ==> r.exc == IndexError
    ensures r.Ok? ==> r.value.turns == p[0]
  {
    match At(p, 0)
    case Raised(e) => Raised(e)
    case Ok(turns) =>
      Ok(Calibration(turns, U16At(p, 1), U16At(p, 3), U16At(p, 5), U16At(p, 7), U16At(p, 9), U16At(p, 11)))
  }

  /** `write_calibration` as written: it raises before building a request. */
  function WriteCalibrationAsWritten(sensor: int, c: Calibration): Result<Payload>
  {
    Raised(TupleIndexStore(c.minX))
  }

  /**
   * Whatever the values, the method as written never reaches the device;
   * for bounds the corrected write sends, it raises TypeError.
   */
  lemma {:induction false} WriteCalibrationAlwaysRaises(sensor: int, c: Calibration)
    ensures WriteCalibrationAsWritten(sensor, c).Raised?
    ensures WriteCalibrationRequest(sensor, c).Ok? ==> WriteCalibrationAsWritten(sensor, c).exc == TypeError
  {
    CalibrationRoundTrip(sensor, c);
  }

  /** `write_calibration` with slice stores: the turns in p0 and the six bounds from p1, as read back. */
  function WriteCalibrationRequest(sensor: int, c: Calibration): (q: Result<Payload>)
    ensures q.Raised? ==> q.exc == StructError
    ensures q.Ok? ==> q.value.func == 8 && |q.value.params| == 16
  {
    match PutU16s(Block(sensor)[0 := c.turns], 1, Bounds(c))
    case Raised(e) => Raised(e)
    case Ok(d) => Ok(Payload(8, d))
  }

  predicate InRange(c: Calibration)
  {
    InU16(c.minX) && InU16(c.maxX) && InU16(c.minY) && InU16(c.maxY) && InU16(c.minZ) && InU16(c.maxZ)
  }

  lemma {:induction false} InRangeBounds(c: Calibration)
    ensures InRange(c) <==> forall k :: 0 <= k < 6 ==> InU16(Bounds(c)[k])
  {
    var b := Bounds(c);
    assert b[0] == c.minX && b[1] == c.maxX && b[2] == c.minY;
    assert b[3] == c.maxY && b[4] == c.minZ && b[5] == c.maxZ;
  }

  /** Params with the turns at 0 and the bounds in the six pairs from 1 parse to the calibration. */
  lemma {:induction false} ParseCalibrationOf(d: seq<int>, c: Calibration)
    requires |d| >= 13 && d[0] == c.turns
    requires [U16At(d, 1), U16At(d, 3), U16At(d, 5), U16At(d, 7), U16At(d, 9), U16At(d, 11)] == Bounds(c)
    ensures ParseCalibration(d) == Ok(c)
  {
  }

  /**
   * The corrected write succeeds exactly for 16-bit bounds, and its params
   * parse back to the calibration written: the two methods share a layout.
   */
  lemma {:induction false} CalibrationRoundTrip(sensor: int, c: Calibration)
    ensures WriteCalibrationRequest(sensor, c).Ok? <==> InRange(c)
    ensures WriteCalibrationRequest(sensor, c).Ok? ==>
      ParseCalibration(WriteCalibrationRequest(sensor, c).value.params) == Ok(c)
      && WriteCalibrationRequest(sensor, c).value.params[SensorSlot] == sensor
  {
    var s := Block(sensor)[0 := c.turns];
    assert PutU16s(s, 1, Bounds(c)).Ok? <==> InRange(c) by {
      PutU16sOk(s, 1, Bounds(c));
      InRangeBounds(c);
    }
    if InRange(c) {
      var d := PutU16s(s, 1, Bounds(c)).value;
      CalibrationHeadKept(sensor, c);
      CalibrationBoundsLaid(sensor, c);
      ParseCalibrationOf(d, c);
    }
  }

  /** The stores of the bounds leave the turns and the sensor number in place. */
  lemma {:induction false} CalibrationHeadKept(sensor: int, c: Calibration)
    requires PutU16s(Block(sensor)[0 := c.turns], 1, Bounds(c)).Ok?
    ensures var d := PutU16s(Block(sensor)[0 := c.turns], 1, Bounds(c)).value;
      |d| == 16 && d[0] == c.turns && d[SensorSlot] == sensor
  {
    var s := Block(sensor)[0 := c.turns];
    var d := PutU16s(s, 1, Bounds(c)).value;
    PutU16sFrame(s, 1, Bounds(c));
    assert d[0] == d[..1][0] == s[0];
    assert d[SensorSlot] == d[13..][2] == s[13..][2];
  }

  /** The stores of the bounds read back as the bounds, pair by pair. */
  lemma {:induction false} CalibrationBoundsLaid(sensor: int, c: Calibration)
    requires PutU16s(Block(sensor)[0 := c.turns], 1, Bounds(c)).Ok?
    ensures var d := PutU16s(Block(sensor)[0 := c.turns], 1, Bounds(c)).value;
      |d| == 16 && [U16At(d, 1), U16At(d, 3), U16At(d, 5), U16At(d, 7), U16At(d, 9), U16At(d, 11)] == Bounds(c)
  {
    var s := Block(sensor)[0 := c.turns];
    var d := PutU16s(s, 1, Bounds(c)).value;
    var b := Bounds(c);
    PutU16sReadBack(s, 1, b);
    SixPairs(d, b);
  }

  /** Six values stored pair by pair from index 1 read back as the six values. */
  lemma {:induction false} SixPairs(d: seq<int>, b: seq<int>)
    requires |d| >= 13 && |b| == 6
    requires forall k :: 0 <= k < |b| ==> U16At(d, 1 + 2 * k) == b[k]
    ensures [U16At(d, 1), U16At(d, 3), U16At(d, 5), U16At(d, 7), U16At(d, 9), U16At(d, 11)] == b
  {
    assert U16At(d, 1 + 2 * 0) == b[0] && U16At(d, 1 + 2 * 1) == b[1] && U16At(d, 1 + 2 * 2) == b[2];
    assert U16At(d, 1 + 2 * 3) == b[3] && U16At(d, 1 + 2 * 4) == b[4] && U16At(d, 1 + 2 * 5) == b[5];
  }

  // ------------------------------------------------------ monitor reports

  datatype MonitorData = MonitorData(
    fieldX: int, fieldY: int, fieldZ: int, temperature: int, angle: int,
    slot: int, ratchet: int, angleOffset: int, ratchetCount: int, count: int)

  /** `decode_monitor_data`: slices only, so a short report decodes its missing fields as 0. */
  function DecodeMonitorData(m: seq<int>): (d: MonitorData)
    ensures |m| < 16 ==> d.count == 0
    ensures |m| < 2 ==> d.fieldX == 0
  {
    MonitorData(
      ListToI16Be(Slice(m, 0, 2)), ListToI16Be(Slice(m, 2, 4)), ListToI16Be(Slice(m, 4, 6)),
      ListToU16Be(Slice(m, 6, 8)), ListToU16Be(Slice(m, 8, 10)),
      ListToI8(Slice(m, 10, 11)), ListToI8(Slice(m, 11, 12)), ListToI8(Slice(m, 12, 13)),
      ListToU8(Slice(m, 13, 14)), ListToU16Be(Slice(m, 14, 16)))
  }

  predicate InI8(v: int) { -128 <= v < 128 }

  predicate Representable(d: MonitorData)
  {
    InI16(d.fieldX) && InI16(d.fieldY) && InI16(d.fieldZ) && InU16(d.temperature) && InU16(d.angle)
    && InI8(d.slot) && InI8(d.ratchet) && InI8(d.angleOffset) && IsByte(d.ratchetCount) && InU16(d.count)
  }

  /** The sixteen report bytes the decoder expects, field by field. */
  function MonitorReport(d: MonitorData): (m: seq<int>)
    requires Representable(d)
    ensures |m| == 16
  {
    I16ToListBe(d.fieldX) + I16ToListBe(d.fieldY) + I16ToListBe(d.fieldZ)
    + U16ToListBe(d.temperature) + U16ToListBe(d.angle)
    + [d.slot % 256, d.ratchet % 256, d.angleOffset % 256, d.ratchetCount]
    + U16ToListBe(d.count)
  }

  lemma {:induction false} I8RoundTrip(v: int)
    requires InI8(v)
    ensures ListToI8([v % 256]) == v
  {
  }

  /** Every representable report decodes to the fields it was built from. */
  lemma {:induction false} MonitorRoundTrip(d: MonitorData)
    requires Representable(d)
    ensures DecodeMonitorData(MonitorReport(d)) == d
  {
    var m := MonitorReport(d);
    assert Slice(m, 0, 2) == I16ToListBe(d.fieldX) && Slice(m, 2, 4) == I16ToListBe(d.fieldY);
    assert Slice(m, 4, 6) == I16ToListBe(d.fieldZ);
    assert Slice(m, 6, 8) == U16ToListBe(d.temperature) && Slice(m, 8, 10) == U16ToListBe(d.angle);
    assert Slice(m, 10, 11) == [d.slot % 256] && Slice(m, 11, 12) == [d.ratchet % 256];
    assert Slice(m, 12, 13) == [d.angleOffset % 256] && Slice(m, 13, 14) == [d.ratchetCount];
    assert Slice(m, 14, 16) == U16ToListBe(d.count);
    I16RoundTrip(d.fieldX);
    I16RoundTrip(d.fieldY);
    I16RoundTrip(d.fieldZ);
    U16RoundTrip(d.temperature);
    U16RoundTrip(d.angle);
    U16RoundTrip(d.count);
    I8RoundTrip(d.slot);
    I8RoundTrip(d.ratchet);
    I8RoundTrip(d.angleOffset);
  }

  // -------------------------------------------------------- device calls

  function ReadSensorRegister(c: Conn, link: Link, sensor: int, reg: int): Step<Register>
    requires Valid(c.info)
  {
    CallStrict(c, link, FeatureId, ReadRegisterRequest(sensor, reg), ParseRegister)
  }

  function WriteSensorRegister(c: Conn, link: Link, sensor: int, reg: int, value: int): Step<Option<Request>>
    requires Valid(c.info)
  {
    Invoke(c, link, FeatureId, WriteRegisterRequest(sensor, reg, value))
  }

  function ResetSensor(c: Conn, link: Link, sensor: int): Step<Option<Request>>
    requires Valid(c.info)
  {
    Invoke(c, link, FeatureId, Ok(SensorRequest(2, sensor)))
  }

  function ShutdownSensor(c: Conn, link: Link, sensor: int): Step<Option<Request>>
    requires Valid(c.info)
  {
    Invoke(c, link, FeatureId, Ok(SensorRequest(3, sensor)))
  }

  function MonitorTest(c: Conn, link: Link, sensor: int, count: int, threshold: int, mode: int): Step<Option<Request>>
    requires Valid(c.info)
  {
    Invoke(c, link, FeatureId, MonitorTestRequest(sensor, count, threshold, mode))
  }

  function StartCalibration(c: Conn, link: Link, sensor: int): Step<Option<Request>>
    requires Valid(c.info)
  {
    Invoke(c, link, FeatureId, Ok(SensorRequest(5, sensor)))
  }

  function StopCalibration(c: Conn, link: Link, sensor: int): Step<Calibration>
    requires Valid(c.info)
  {
    CallStrict(c, link, FeatureId, SensorRequest(6, sensor), ParseCalibration)
  }

  function ReadCalibration(c: Conn, link: Link, sensor: int): Step<Calibration>
    requires Valid(c.info)
  {
    CallStrict(c, link, FeatureId, SensorRequest(7, sensor), ParseCalibration)
  }

  /**
   * `write_calibration` as written: the tuple index raises while the
   * payload is built, TypeError for bounds that fit 16 bits, so nothing is
   * ever sent.
   */
  function WriteCalibration(c: Conn, link: Link, sensor: int, cal: Calibration): (s: Step<Option<Request>>)
    requires Valid(c.info)
    ensures s.conn == c && s.link == link && s.out.Raised?
    ensures InRange(cal) ==> s.out == Raised(TypeError)
  {
    WriteCalibrationAlwaysRaises(sensor, cal);
    CalibrationRoundTrip(sensor, cal);
    Invoke(c, link, FeatureId, WriteCalibrationAsWritten(sensor, cal))
  }

  /**
   * `write_calibration` with slice stores: bounds outside 16 bits raise
   * struct.error before anything is sent; otherwise, on a known feature,
   * exactly one request is sent, and its params read back as the
   * calibration, addressed to the sensor.
   */
  function WriteCalibrationCorrected(c: Conn, link: Link, sensor: int, cal: Calibration): (s: Step<Option<Request>>)
    requires Valid(c.info)
    ensures !InRange(cal) ==> s == Step(c, link, Raised(StructError))
    ensures InRange(cal) && c.connected && IsEnumerated(c.info, FeatureId) ==>
      && s.conn == c && |s.link.sent| == |link.sent| + 1 && s.link.sent[..|link.sent|] == link.sent
      && ParseCalibration(s.link.sent[|link.sent|].params) == Ok(cal)
      && |s.link.sent[|link.sent|].params| == 16 && s.link.sent[|link.sent|].params[SensorSlot] == sensor
  {
    CalibrationRoundTrip(sensor, cal);
    var q := WriteCalibrationRequest(sensor, cal);
    assert q.Ok? && IsEnumerated(c.info, FeatureId) ==> CallRequest(c, FeatureId, q.value).params == q.value.params by {
      if q.Ok? && IsEnumerated(c.info, FeatureId) {
        FullPayloadSentAsIs(c, FeatureId, q.value);
      }
    }
    Invoke(c, link, FeatureId, q)
  }

  /** Reading a register of a device that does not answer raises AttributeError. */
  lemma {:induction false} UnansweredReadRaises(c: Conn, link: Link, sensor: int, reg: int)
    requires Valid(c.info) && c.connected && IsEnumerated(c.info, FeatureId)
    requires link.replies == [] || link.replies[0].None? || !Answers(c, FeatureId, link.replies[0].value)
    ensures ReadSensorRegister(c, link, sensor, reg).out == Raised(AttributeError)
  {
    CallUnanswered(c, link, FeatureId, ReadRegisterRequest(sensor, reg), ParseRegister);
  }

  /**
   * A device answering `read_calibration` with the block the corrected
   * `write_calibration` sent reports the calibration that was written.
   */
  lemma {:induction false} WrittenCalibrationReadBack(c: Conn, link: Link, r: Request, sensor: int, cal: Calibration)
    requires Valid(c.info) && c.connected && IsEnumerated(c.info, FeatureId)
    requires link.replies != [] && link.replies[0] == Some(r) && Answers(c, FeatureId, r)
    requires InRange(cal) && WriteCalibrationRequest(sensor, cal).Ok?
    requires r.params == WriteCalibrationRequest(sensor, cal).value.params
    ensures ReadCalibration(c, link, sensor).out == Ok(cal)
  {
    CallStrictAnswered(c, link, FeatureId, SensorRequest(7, sensor), ParseCalibration, r);
    CalibrationRoundTrip(sensor, cal);
  }
}
