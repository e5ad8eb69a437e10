/**
 * Feature 0x9203 (features/x9203.py): a rotary sensor with a byte-wide
 * register interface. Requests are sixteen params; 16-bit values travel
 * high byte first; no method checks for a missing reply.
 * `write_calibration` raises through a tuple index and is modelled as
 * written next to the slice stores evidently meant.
 */
module X9203 {
  import opened Wrappers
  import opened Bits
  import opened IntCodec
  import opened Packing
  import opened Frame
  import opened Device
  import opened Connection
  import opened FeatureCall

  const FeatureId := 0x9203

  /** Shutdown 2, reset 3, calibration start 5, stop 6 and read 7 send sixteen zeros. */
  function PlainRequest(func: int): (q: Payload)
    ensures q.func == func && q.params == Zeros16()
  {
    Payload(func, Zeros16())
  }

  function ReadRegisterRequest(reg: int): (q: Payload)
    ensures q.func == 0 && |q.params| == 16 && q.params[0] == reg
    ensures forall i :: 0 < i < 16 ==> q.params[i] == 0
  {
    Payload(0, Zeros16()[0 := reg])
  }

  function WriteRegisterRequest(reg: int, value: int): (q: Payload)
    ensures q.func == 1 && |q.params| == 16 && q.params[..2] == [reg, value]
    ensures forall i :: 1 < i < 16 ==> q.params[i] == 0
  {
    Payload(1, Zeros16()[0 := reg][1 := value])
  }

  /** `read_sensor_register`: the value in p0. */
  function ParseRegister(p: seq<int>): (r: Result<int>)
    ensures r.Ok? <==> |p| >= 1
    ensures r.Ok? ==> r.value == p[0]
    ensures r.Raised? ==> r.exc == IndexError
  {
    At(p, 0)
  }

  /** `setMonitoringMode`: the count at params 0-1 and the mode at 2. */
  function MonitorModeRequest(count: int, mode: int): (q: Result<Payload>)
    ensures q.Raised? ==> q.exc == StructError
  {
    match PutU16s(Zeros16()[2 := mode], 0, [count])
    case Raised(e) => Raised(e)
    case Ok(d) => Ok(Payload(4, d))
  }

  lemma {:induction false} MonitorModeLayout(count: int, mode: int)
    ensures MonitorModeRequest(count, mode).Ok? <==> InU16(count)
    ensures MonitorModeRequest(count, mode).Ok? ==>
      MonitorModeRequest(count, mode).value.params == Be16(count) + [mode] + Zeros(13)
  {
    PutU16sOk(Zeros16()[2 := mode], 0, [count]);
    if InU16(count) {
      PutU16One(Zeros16()[2 := mode], 0, count);
      assert Zeros16()[2 := mode][2..] == [mode] + Zeros(13);
    }
  }

  /** Calibration as the reader returns it: turns, min A, min B, max A, max B. */
  datatype Calibration = Calibration(turns: int, minA: int, minB: int, maxA: int, maxB: int)

  /** `stop_calibration` and `read_calibration`: p0, then min A, max A, min B, max B big-endian. */
  function ParseCalibration(p: seq<int>): (r: Result<Calibration>)
    ensures r.Ok? <==> |p| >= 1
    ensures r.Raised? ==> r.exc == IndexError
    ensures r.Ok? ==> r.value.turns == p[0]
    ensures |p| >= 9 && IsBytes(p[1..9]) ==>
      && r.value.minA == 256 * p[1] + p[2] && r.value.maxA == 256 * p[3] + p[4]
      && r.value.minB == 256 * p[5] + p[6] && r.value.maxB == 256 * p[7] + p[8]
  {
    match At(p, 0)
    case Raised(e) => Raised(e)
    case Ok(turns) => Ok(Calibration(turns, U16At(p, 1), U16At(p, 5), U16At(p, 3), U16At(p, 7)))
  }

  /** `write_calibration(nb_turns, min_x, max_x, min_y, max_y)` as written: it raises. */
  function WriteCalibrationAsWritten(turns: int, minX: int, maxX: int, minY: int, maxY: int): Result<Payload>
  {
    Raised(TupleIndexStore(minX))
  }

  /** With slice stores: min X, max X, min Y, max Y from param 1. */
  function WriteCalibrationRequest(turns: int, minX: int, maxX: int, minY: int, maxY: int): (q: Result<Payload>)
    ensures q.Raised? ==> q.exc == StructError
    ensures q.Ok? ==> q.value.func == 8 && |q.value.params| == 16
  {
    match PutU16s(Zeros16()[0 := turns], 1, [minX, maxX, minY, maxY])
    case Raised(e) => Raised(e)
    case Ok(d) => Ok(Payload(8, d))
  }

  /**
   * The corrected write succeeds exactly for 16-bit values, and its params
   * read back with X as range A and Y as range B.
   */
  lemma {:induction false} CalibrationRoundTrip(turns: int, minX: int, maxX: int, minY: int, maxY: int)
    ensures WriteCalibrationRequest(turns, minX, maxX, minY, maxY).Ok?
        <==> InU16(minX) && InU16(maxX) && InU16(minY) && InU16(maxY)
    ensures WriteCalibrationRequest(turns, minX, maxX, minY, maxY).Ok? ==>
      ParseCalibration(WriteCalibrationRequest(turns, minX, maxX, minY, maxY).value.params)
        == Ok(Calibration(turns, minX, minY, maxX, maxY))
  {
    var s := Zeros16()[0 := turns];
    var vs := [minX, maxX, minY, maxY];
    assert PutU16s(s, 1, vs).Ok? <==> InU16(minX) && InU16(maxX) && InU16(minY) && InU16(maxY) by {
      PutU16sOk(s, 1, vs);
      assert vs[0] == minX && vs[1] == maxX && vs[2] == minY && vs[3] == maxY;
    }
    if PutU16s(s, 1, vs).Ok? {
      FourPairsAfterHead(s, vs);
      var d := PutU16s(s, 1, vs).value;
      assert U16At(d, 1) == minX && U16At(d, 3) == maxX && U16At(d, 5) == minY && U16At(d, 7) == maxY by {
        assert [U16At(d, 1), U16At(d, 3), U16At(d, 5), U16At(d, 7)][0] == vs[0];
        assert [U16At(d, 1), U16At(d, 3), U16At(d, 5), U16At(d, 7)][1] == vs[1];
        assert [U16At(d, 1), U16At(d, 3), U16At(d, 5), U16At(d, 7)][2] == vs[2];
        assert [U16At(d, 1), U16At(d, 3), U16At(d, 5), U16At(d, 7)][3] == vs[3];
      }
    }
  }

  /** The written method never sends; for values the corrected write sends, it raises TypeError. */
  lemma {:induction false} WriteCalibrationAlwaysRaises(turns: int, minX: int, maxX: int, minY: int, maxY: int)
    ensures WriteCalibrationAsWritten(turns, minX, maxX, minY, maxY).Raised?
    ensures WriteCalibrationRequest(turns, minX, maxX, minY, maxY).Ok? ==>
      WriteCalibrationAsWritten(turns, minX, maxX, minY, maxY).exc == TypeError
  {
    CalibrationRoundTrip(turns, minX, maxX, minY, maxY);
  }

  // ------------------------------------------------------ monitor reports

  datatype MonitorData = MonitorData(
    angle: int, rotation: int, slot: int, ratchet: int, proxTouch: int, rotationSpeed: int, counter: int)

  /** `decode_monitor_data`: params 2 to 5 are indexed and must be present; the pairs are slices. */
  function DecodeMonitorData(m: seq<int>): (r: Result<MonitorData>)
    ensures r.Ok? <==> |m| >= 6
    ensures r.Raised? ==> r.exc == IndexError
    ensures r.Ok? ==>
      && r.value.rotation == m[2] && r.value.slot == m[3]
      && r.value.ratchet == m[4] && r.value.proxTouch == m[5]
    ensures r.Ok? && |m| < 14 ==> r.value.counter == 0
  {
    if |m| < 6 then Raised(IndexError)
    else
      Ok(MonitorData(ListToU16Be(Slice(m, 0, 2)), m[2], m[3], m[4], m[5],
                     ListToU16Be(Slice(m, 6, 8)), ListToU16Be(Slice(m, 12, 14))))
  }

  predicate Representable(d: MonitorData)
  {
    InU16(d.angle) && InU16(d.rotationSpeed) && InU16(d.counter)
  }

  /** A report laid out as the decoder reads it; params 8 to 11 are unused. */
  function MonitorReport(d: MonitorData, unused: seq<int>): (m: seq<int>)
    requires Representable(d) && |unused| == 4
    ensures |m| == 14
  {
    U16ToListBe(d.angle) + [d.rotation, d.slot, d.ratchet, d.proxTouch]
    + U16ToListBe(d.rotationSpeed) + unused + U16ToListBe(d.counter)
  }

  lemma {:induction false} MonitorRoundTrip(d: MonitorData, unused: seq<int>, tail: seq<int>)
    requires Representable(d) && |unused| == 4
    ensures DecodeMonitorData(MonitorReport(d, unused) + tail) == Ok(d)
  {
    var m := MonitorReport(d, unused) + tail;
    assert Slice(m, 0, 2) == U16ToListBe(d.angle);
    assert m[2] == d.rotation && m[3] == d.slot && m[4] == d.ratchet && m[5] == d.proxTouch;
    assert Slice(m, 6, 8) == U16ToListBe(d.rotationSpeed) && Slice(m, 12, 14) == U16ToListBe(d.counter);
    U16RoundTrip(d.angle);
    U16RoundTrip(d.rotationSpeed);
    U16RoundTrip(d.counter);
  }

  // -------------------------------------------------------- device calls

  function ReadSensorRegister(c: Conn, link: Link, reg: int): Step<int>
    requires Valid(c.info)
  {
    CallStrict(c, link, FeatureId, ReadRegisterRequest(reg), ParseRegister)
  }

  function WriteSensorRegister(c: Conn, link: Link, reg: int, value: int): Step<Option<Request>>
    requires Valid(c.info)
  {
    Invoke(c, link, FeatureId, Ok(WriteRegisterRequest(reg, value)))
  }

  function SetMonitoringMode(c: Conn, link: Link, count: int, mode: int): Step<Option<Request>>
    requires Valid(c.info)
  {
    Invoke(c, link, FeatureId, MonitorModeRequest(count, mode))
  }

  function StopCalibration(c: Conn, link: Link): Step<Calibration>
    requires Valid(c.info)
  {
    CallStrict(c, link, FeatureId, PlainRequest(6), ParseCalibration)
  }

  function ReadCalibration(c: Conn, link: Link): Step<Calibration>
    requires Valid(c.info)
  {
    CallStrict(c, link, FeatureId, PlainRequest(7), ParseCalibration)
  }

  /**
   * `write_calibration` as written: the tuple index raises while the
   * payload is built, TypeError for values that fit 16 bits, so nothing is
   * ever sent.
   */
  function WriteCalibration(c: Conn, link: Link, turns: int, minX: int, maxX: int, minY: int, maxY: int)
    : (s: Step<Option<Request>>)
    requires Valid(c.info)
    ensures s.conn == c && s.link == link && s.out.Raised?
    ensures InU16(minX) && InU16(maxX) && InU16(minY) && InU16(maxY) ==> s.out == Raised(TypeError)
  {
    WriteCalibrationAlwaysRaises(turns, minX, maxX, minY, maxY);
    CalibrationRoundTrip(turns, minX, maxX, minY, maxY);
    Invoke(c, link, FeatureId, WriteCalibrationAsWritten(turns, minX, maxX, minY, maxY))
  }

  /**
   * `write_calibration` with slice stores: values outside 16 bits raise
   * struct.error before anything is sent; otherwise, on a known feature,
   * exactly one request is sent and its params read back as the calibration.
   */
  function WriteCalibrationCorrected(c: Conn, link: Link, turns: int, minX: int, maxX: int, minY: int, maxY: int)
    : (s: Step<Option<Request>>)
    requires Valid(c.info)
    ensures !(InU16(minX) && InU16(maxX) && InU16(minY) && InU16(maxY)) ==> s == Step(c, link, Raised(StructError))
    ensures InU16(minX) && InU16(maxX) && InU16(minY) && InU16(maxY) && c.connected && IsEnumerated(c.info, FeatureId) ==>
      && s.conn == c && |s.link.sent| == |link.sent| + 1 && s.link.sent[..|link.sent|] == link.sent
      && ParseCalibration(s.link.sent[|link.sent|].params) == Ok(Calibration(turns, minX, minY, maxX, maxY))
  {
    CalibrationRoundTrip(turns, minX, maxX, minY, maxY);
    var q := WriteCalibrationRequest(turns, minX, maxX, minY, maxY);
    assert q.Ok? && IsEnumerated(c.info, FeatureId) ==> CallRequest(c, FeatureId, q.value).params == q.value.params by {
      if q.Ok? && IsEnumerated(c.info, FeatureId) {
        FullPayloadSentAsIs(c, FeatureId, q.value);
      }
    }
    Invoke(c, link, FeatureId, q)
  }

  /**
   * A device answering `read_calibration` with the block the corrected
   * write sent reports X as range A and Y as range B.
   */
  lemma {:induction false} WrittenCalibrationReadBack(c: Conn, link: Link, r: Request, turns: int, minX: int, maxX: int, minY: int, maxY: int)
    requires Valid(c.info) && c.connected && IsEnumerated(c.info, FeatureId)
    requires link.replies != [] && link.replies[0] == Some(r) && Answers(c, FeatureId, r)
    requires WriteCalibrationRequest(turns, minX, maxX, minY, maxY).Ok?
    requires r.params == WriteCalibrationRequest(turns, minX, maxX, minY, maxY).value.params
    ensures ReadCalibration(c, link).out == Ok(Calibration(turns, minX, minY, maxX, maxY))
  {
    CallStrictAnswered(c, link, FeatureId, PlainRequest(7), ParseCalibration, r);
    CalibrationRoundTrip(turns, minX, maxX, minY, maxY);
  }
}
