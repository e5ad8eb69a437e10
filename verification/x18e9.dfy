/**
 * Feature 0x18E9, motor current monitoring (features/x18e9.py): an on/off
 * state, the three phase currents, and signed 16-bit calibration values,
 * all big-endian.
 */
module X18E9 {
  import opened Wrappers
  import opened Bits
  import opened IntCodec
  import opened Packing
  import opened Frame
  import opened Device
  import opened Connection
  import opened FeatureCall

  const FeatureId := 0x18E9

  /** The three phase currents. */
  datatype Currents = Currents(phase1: int, phase2: int, phase3: int)

  /** `read_currents`: an int16 from each of the pairs at 0, 2 and 4. */
  function ParseCurrents(p: seq<int>): (r: Result<Currents>)
    ensures r.Ok? <==> |p| >= 6 && IsBytes(p[..6])
    ensures r.Raised? ==> r.exc in {ValueError, StructError}
    ensures r.Ok? ==> InI16(r.value.phase1) && InI16(r.value.phase2) && InI16(r.value.phase3)
    ensures r.Ok? ==> I16ToListBe(r.value.phase1) == p[0..2] && I16ToListBe(r.value.phase2) == p[2..4]
    ensures r.Ok? ==> I16ToListBe(r.value.phase3) == p[4..6]
  {
    match UnpackI16Be(Slice(p, 0, 2))
    case Raised(e) => Raised(e)
    case Ok(a) =>
      match UnpackI16Be(Slice(p, 2, 4))
      case Raised(e) => Raised(e)
      case Ok(b) =>
        match UnpackI16Be(Slice(p, 4, 6))
        case Raised(e) => Raised(e)
        case Ok(c) =>
          assert p[..6] == p[0..2] + p[2..4] + p[4..6];
          Ok(Currents(a, b, c))
  }

  /** Currents sent as three big-endian int16s are read back. */
  lemma {:induction false} CurrentsRoundTrip(a: int, b: int, c: int, rest: seq<int>)
    requires InI16(a) && InI16(b) && InI16(c)
    ensures ParseCurrents(I16ToListBe(a) + I16ToListBe(b) + I16ToListBe(c) + rest) == Ok(Currents(a, b, c))
  {
    var p := I16ToListBe(a) + I16ToListBe(b) + I16ToListBe(c) + rest;
    assert Slice(p, 0, 2) == I16ToListBe(a) && Slice(p, 2, 4) == I16ToListBe(b) && Slice(p, 4, 6) == I16ToListBe(c);
    I16RoundTrip(a);
    I16RoundTrip(b);
    I16RoundTrip(c);
  }

  /** `get_calibration_value`: the int16 in p0..1. */
  function ParseCalibration(p: seq<int>): (r: Result<int>)
    ensures r.Ok? <==> |p| >= 2 && IsBytes(p[..2])
    ensures r.Ok? ==> InI16(r.value) && I16ToListBe(r.value) == p[..2]
  {
    UnpackI16Be(Slice(p, 0, 2))
  }

  /** `set_calibration_value`: the index, then the value as a big-endian int16; struct.error out of range. */
  function SetCalibrationRequest(index: int, value: int): (q: Result<Payload>)
    ensures q.Ok? <==> InI16(value)
    ensures q.Raised? ==> q.exc == StructError
    ensures q.Ok? ==> q.value.func == 4 && |q.value.params| == 3 && q.value.params[0] == index
  {
    match PackI16Be(value)
    case Raised(e) => Raised(e)
    case Ok(b) => Ok(Payload(4, [index] + b))
  }

  /** A value set is what `get_calibration_value` reads from a reply echoing the value's bytes. */
  lemma {:induction false} CalibrationRoundTrip(index: int, value: int, rest: seq<int>)
    requires InI16(value)
    ensures ParseCalibration(SetCalibrationRequest(index, value).value.params[1..] + rest) == Ok(value)
  {
    var b := SetCalibrationRequest(index, value).value.params[1..];
    assert b == PackI16Be(value).value;
    I16PackRoundTrip(value);
    assert Slice(b + rest, 0, 2) == b;
  }

  /** `int(active)`. */
  function SetStateRequest(active: bool): (q: Payload)
    ensures q.func == 1 && q.params == [if active then 1 else 0]
  {
    Payload(1, [if active then 1 else 0])
  }

  function GetState(c: Conn, link: Link): Step<Option<int>>
    requires Valid(c.info)
  {
    Call(c, link, FeatureId, Payload(0, []), p => At(p, 0))
  }

  /** `set_state`: the validated reply, None without one. */
  function SetState(c: Conn, link: Link, active: bool): Step<Option<Request>>
    requires Valid(c.info)
  {
    Invoke(c, link, FeatureId, Ok(SetStateRequest(active)))
  }

  function ReadCurrents(c: Conn, link: Link): Step<Option<Currents>>
    requires Valid(c.info)
  {
    Call(c, link, FeatureId, Payload(2, []), ParseCurrents)
  }

  function GetCalibrationValue(c: Conn, link: Link, index: int): Step<Option<int>>
    requires Valid(c.info)
  {
    Call(c, link, FeatureId, Payload(3, [index]), ParseCalibration)
  }

  /** A value outside int16 raises struct.error before anything is sent. */
  function SetCalibrationValue(c: Conn, link: Link, index: int, value: int): Step<Option<Request>>
    requires Valid(c.info)
  {
    Invoke(c, link, FeatureId, SetCalibrationRequest(index, value))
  }

  /** On a known feature, `read_currents` sends function 2 and reports the three replied currents. */
  lemma {:induction false} ReadCurrentsAnswered(c: Conn, link: Link, r: Request, a: int, b: int, d: int, rest: seq<int>)
    requires Valid(c.info) && c.connected && IsEnumerated(c.info, FeatureId)
    requires link.replies != [] && link.replies[0] == Some(r) && Answers(c, FeatureId, r)
    requires InI16(a) && InI16(b) && InI16(d)
    requires r.params == I16ToListBe(a) + I16ToListBe(b) + I16ToListBe(d) + rest
    ensures ReadCurrents(c, link).out == Ok(Some(Currents(a, b, d)))
  {
    CallAnswered(c, link, FeatureId, Payload(2, []), ParseCurrents, r);
    CurrentsRoundTrip(a, b, d, rest);
  }

  /** An out-of-range calibration value leaves the link untouched. */
  lemma {:induction false} SetCalibrationOutOfRange(c: Conn, link: Link, index: int, value: int)
    requires Valid(c.info) && !InI16(value)
    ensures SetCalibrationValue(c, link, index, value) == Step(c, link, Raised(StructError))
  {
  }
}
