/**
 * Feature 0x9402 (features/x9402.py): a force sensor's reading, baseline
 * and preload, its calibration thresholds, and the monitor mode. Readings
 * and thresholds travel low byte first.
 *
 * The calibration code does not read back what it writes: the reader
 * shifts each high byte right instead of left, and the writer sends the
 * nominal threshold's high byte for all three thresholds. The reading
 * decoder subtracts 65535 where a 16-bit two's-complement value needs
 * 65536. Each of these is modelled as written next to a corrected version;
 * the device-level operations are the source's, each with a `...Corrected`
 * twin that uses the corrected decoders.
 */
module X9402 {
  import opened Wrappers
  import opened Bits
  import opened Packing
  import opened Frame
  import opened Device
  import opened Connection
  import opened FeatureCall

  const FeatureId := 0x9402

  /** Raw readings above this count are negative. */
  const SignLimit := 2048

  function ReadMeasurementRequest(custom: int): (q: Payload)
    ensures q.func == 2 && q.params == [custom]
  {
    Payload(2, [custom])
  }

  function ReadCalDataRequest(custom: int): (q: Payload)
    ensures q.func == 4 && q.params == [custom]
  {
    Payload(4, [custom])
  }

  /** `monitor_mode(x)`: a zero, then the low and the high byte of x. */
  function MonitorModeRequest(x: int): (q: Payload)
    ensures q.func == 5 && |q.params| == 3 && q.params[0] == 0
    ensures IsBytes(q.params) && q.params[1] + 256 * q.params[2] == x % 0x1_0000
  {
    HiLoSplit(x);
    Payload(5, [0, Lsb(x), Msb(x)])
  }

  datatype Measurement = Measurement(value: int, baseline: int, preload: int)

  /** The preload byte: values above 128 are mapped to 240 minus the byte. */
  function Preload(b: int): (r: int)
    ensures b <= 128 ==> r == b
    ensures b > 128 ==> r + b == 240
  {
    if b > 128 then (b - 256 + 16) * -1 else b
  }

  // ------------------------------------------------------------ readings

  /** The reading decode as written: above 2048, subtract 65535. */
  function ReadingAsWritten(lo: int, hi: int): int
  {
    var v := lo + hi * 256;
    if v > SignLimit then v - 65535 else v
  }

  /** The two's-complement decode of a 16-bit reading, negative above 2048. */
  function Reading(lo: int, hi: int): (r: int)
    ensures lo + hi * 256 > SignLimit ==> r == lo + hi * 256 - 0x1_0000
  {
    var v := lo + hi * 256;
    if v > SignLimit then v - 0x1_0000 else v
  }

  /** The readings a device can report: those the decoder maps back to themselves. */
  predicate InReadingRange(v: int) { SignLimit - 0x1_0000 < v <= SignLimit }

  /** A reading in range is decoded from its two bytes. */
  lemma {:induction false} ReadingRoundTrip(v: int)
    requires InReadingRange(v)
    ensures Reading(Lsb(v), Msb(v)) == v
  {
    HiLoSplit(v);
    assert Lsb(v) + Msb(v) * 256 == v % 0x1_0000;
    if v < 0 {
      DivModUnique(v, 0x1_0000, -1, v + 0x1_0000);
    } else {
      DivModUnique(v, 0x1_0000, 0, v);
    }
  }

  /** As written, every negative reading comes out one too high; -1 reads as 0. */
  lemma {:induction false} ReadingAsWrittenOffByOne(v: int)
    requires InReadingRange(v) && v < 0
    ensures ReadingAsWritten(Lsb(v), Msb(v)) == v + 1
    ensures ReadingAsWritten(0xFF, 0xFF) == 0
  {
    ReadingRoundTrip(v);
  }

  /** `read_measurement`'s parse as written: None below six params. */
  function ParseMeasurementAsWritten(p: seq<int>): (r: Result<Option<Measurement>>)
    ensures r.Ok? && (r.value.None? <==> |p| < 6)
    ensures r.value.Some? ==> r.value.value.preload == Preload(p[5])
  {
    if |p| < 6 then Ok(None)
    else Ok(Some(Measurement(ReadingAsWritten(p[1], p[2]), ReadingAsWritten(p[3], p[4]), Preload(p[5]))))
  }

  /** `read_measurement`'s parse with the two's-complement decode. */
  function ParseMeasurement(p: seq<int>): (r: Result<Option<Measurement>>)
    ensures r.Ok? && (r.value.None? <==> |p| < 6)
    ensures r.value.Some? ==> r.value.value.preload == Preload(p[5])
  {
    if |p| < 6 then Ok(None)
    else Ok(Some(Measurement(Reading(p[1], p[2]), Reading(p[3], p[4]), Preload(p[5]))))
  }

  /** The params of a measurement reply: a leading byte, then reading and baseline low byte first. */
  function MeasurementReply(first: int, value: int, baseline: int, preload: int): seq<int>
  {
    [first, Lsb(value), Msb(value), Lsb(baseline), Msb(baseline), preload]
  }

  /** A reading and baseline in range come back from their reply. */
  lemma {:induction false} MeasurementRoundTrip(first: int, value: int, baseline: int, preload: int, rest: seq<int>)
    requires InReadingRange(value) && InReadingRange(baseline) && 0 <= preload <= 128
    ensures ParseMeasurement(MeasurementReply(first, value, baseline, preload) + rest)
         == Ok(Some(Measurement(value, baseline, preload)))
  {
    ReadingRoundTrip(value);
    ReadingRoundTrip(baseline);
  }

  // --------------------------------------------------------- calibration

  datatype CalData = CalData(nominal: int, low: int, high: int)

  /**
   * `write_cal_data` as written, with the low and high thresholds given
   * (the source derives them as 0.8 and 1.2 times the nominal one): every
   * high byte is the nominal threshold's.
   */
  function WriteCalDataRequestAsWritten(th: int, low: int, high: int): (q: Payload)
    ensures q.func == 3 && |q.params| == 7
    ensures q.params[2] == q.params[4] == q.params[6] == ShiftRight(th, 8)
  {
    var hi := ShiftRight(th, 8);
    Payload(3, [0, Lsb(th), hi, Lsb(low), hi, Lsb(high), hi])
  }

  /** `write_cal_data` with each threshold's own high byte. */
  function WriteCalDataRequest(th: int, low: int, high: int): (q: Payload)
    ensures q.func == 3 && |q.params| == 7 && q.params[0] == 0
    ensures q.params[1] == Lsb(th) && q.params[3] == Lsb(low) && q.params[5] == Lsb(high)
    ensures q.params[2] == ShiftRight(th, 8) && q.params[4] == ShiftRight(low, 8)
    ensures q.params[6] == ShiftRight(high, 8)
  {
    Payload(3, [0, Lsb(th), ShiftRight(th, 8), Lsb(low), ShiftRight(low, 8), Lsb(high), ShiftRight(high, 8)])
  }

  /** `read_cal_data` as written: `(p[k+1] >> 8) + p[k]` for each threshold. */
  function ParseCalDataAsWritten(p: seq<int>): (r: Result<Option<CalData>>)
    ensures r.Ok? && (r.value.None? <==> |p| < 7)
  {
    if |p| < 7 then Ok(None)
    else Ok(Some(CalData(ShiftRight(p[2], 8) + p[1], ShiftRight(p[4], 8) + p[3], ShiftRight(p[6], 8) + p[5])))
  }

  /** `read_cal_data` with the high byte shifted left: each threshold low byte first. */
  function ParseCalData(p: seq<int>): (r: Result<Option<CalData>>)
    ensures r.Ok? && (r.value.None? <==> |p| < 7)
  {
    if |p| < 7 then Ok(None)
    else Ok(Some(CalData(ShiftLeft(p[2], 8) + p[1], ShiftLeft(p[4], 8) + p[3], ShiftLeft(p[6], 8) + p[5])))
  }

  lemma {:induction false} ByteSplit(v: int)
    requires v >= 0
    ensures ShiftLeft(ShiftRight(v, 8), 8) + Lsb(v) == v
  {
    Pow2Eight();
  }

  /** Thresholds written by the corrected writer are read back by the corrected reader. */
  lemma {:induction false} CalDataRoundTrip(th: int, low: int, high: int, rest: seq<int>)
    requires th >= 0 && low >= 0 && high >= 0
    ensures ParseCalData(WriteCalDataRequest(th, low, high).params + rest) == Ok(Some(CalData(th, low, high)))
  {
    ByteSplit(th);
    ByteSplit(low);
    ByteSplit(high);
  }

  /** As written, a reply of bytes gives only the low byte of each threshold. */
  lemma {:induction false} CalDataAsWrittenDropsHighBytes(p: seq<int>)
    requires |p| >= 7 && IsBytes(p)
    ensures ParseCalDataAsWritten(p) == Ok(Some(CalData(p[1], p[3], p[5])))
  {
    Pow2Eight();
    assert ShiftRight(p[2], 8) == 0 && ShiftRight(p[4], 8) == 0 && ShiftRight(p[6], 8) == 0;
  }

  /**
   * Nominal 1000 with thresholds 800 and 1200: as written the high
   * threshold goes out as 944 and the reader sees 232 for the nominal one.
   */
  lemma {:induction false} CalDataAsWrittenLosesThresholds()
    ensures ParseCalData(WriteCalDataRequestAsWritten(1000, 800, 1200).params) == Ok(Some(CalData(1000, 800, 944)))
    ensures ParseCalDataAsWritten(WriteCalDataRequestAsWritten(1000, 800, 1200).params) == Ok(Some(CalData(232, 32, 176)))
  {
    Pow2Eight();
    assert ShiftRight(1000, 8) == 3;
    assert Lsb(1000) == 232 && Lsb(800) == 32 && Lsb(1200) == 176;
    assert ShiftLeft(3, 8) == 768;
  }

  // -------------------------------------------------------- device calls

  /** What the as-written decoder reports for a reading in range: negative ones one too high. */
  function AsRead(v: int): int { if v < 0 then v + 1 else v }

  /** Every reading in range decodes as written to `AsRead` of itself. */
  lemma {:induction false} ReadingAsWrittenInRange(v: int)
    requires InReadingRange(v)
    ensures ReadingAsWritten(Lsb(v), Msb(v)) == AsRead(v)
  {
    if v < 0 {
      ReadingAsWrittenOffByOne(v);
    } else {
      HiLoSplit(v);
      DivModUnique(v, 0x1_0000, 0, v);
    }
  }

  /**
   * `read_measurement` as written: on a known feature exactly the function-2
   * request with the custom parameter is sent; a missing or short reply is None.
   */
  function ReadMeasurement(c: Conn, link: Link, custom: int): (s: Step<Option<Measurement>>)
    requires Valid(c.info)
    ensures c.connected && IsEnumerated(c.info, FeatureId) ==>
      s.conn == c && s.link.sent == link.sent + [CallRequest(c, FeatureId, ReadMeasurementRequest(custom))]
    ensures s.out.Ok? && s.out.value.Some? ==> !c.connected || IsEnumerated(s.conn.info, FeatureId)
  {
    if c.connected && IsEnumerated(c.info, FeatureId) then
      CallSendsOneRequest(c, link, FeatureId, ReadMeasurementRequest(custom), ParseMeasurementAsWritten);
      CallOpt(c, link, FeatureId, ReadMeasurementRequest(custom), ParseMeasurementAsWritten)
    else CallOpt(c, link, FeatureId, ReadMeasurementRequest(custom), ParseMeasurementAsWritten)
  }

  /** `read_measurement` with the two's-complement decode. */
  function ReadMeasurementCorrected(c: Conn, link: Link, custom: int): (s: Step<Option<Measurement>>)
    requires Valid(c.info)
    ensures c.connected && IsEnumerated(c.info, FeatureId) ==>
      s.conn == c && s.link.sent == link.sent + [CallRequest(c, FeatureId, ReadMeasurementRequest(custom))]
  {
    if c.connected && IsEnumerated(c.info, FeatureId) then
      CallSendsOneRequest(c, link, FeatureId, ReadMeasurementRequest(custom), ParseMeasurement);
      CallOpt(c, link, FeatureId, ReadMeasurementRequest(custom), ParseMeasurement)
    else CallOpt(c, link, FeatureId, ReadMeasurementRequest(custom), ParseMeasurement)
  }

  /**
   * `read_cal_data` as written: on a known feature exactly the function-4
   * request is sent, and a reply of seven bytes gives only their low bytes
   * 1, 3 and 5.
   */
  function ReadCalData(c: Conn, link: Link, custom: int): (s: Step<Option<CalData>>)
    requires Valid(c.info)
    ensures c.connected && IsEnumerated(c.info, FeatureId) ==>
      s.conn == c && s.link.sent == link.sent + [CallRequest(c, FeatureId, ReadCalDataRequest(custom))]
  {
    if c.connected && IsEnumerated(c.info, FeatureId) then
      CallSendsOneRequest(c, link, FeatureId, ReadCalDataRequest(custom), ParseCalDataAsWritten);
      CallOpt(c, link, FeatureId, ReadCalDataRequest(custom), ParseCalDataAsWritten)
    else CallOpt(c, link, FeatureId, ReadCalDataRequest(custom), ParseCalDataAsWritten)
  }

  /** `read_cal_data` with each high byte shifted left. */
  function ReadCalDataCorrected(c: Conn, link: Link, custom: int): (s: Step<Option<CalData>>)
    requires Valid(c.info)
    ensures c.connected && IsEnumerated(c.info, FeatureId) ==>
      s.conn == c && s.link.sent == link.sent + [CallRequest(c, FeatureId, ReadCalDataRequest(custom))]
  {
    if c.connected && IsEnumerated(c.info, FeatureId) then
      CallSendsOneRequest(c, link, FeatureId, ReadCalDataRequest(custom), ParseCalData);
      CallOpt(c, link, FeatureId, ReadCalDataRequest(custom), ParseCalData)
    else CallOpt(c, link, FeatureId, ReadCalDataRequest(custom), ParseCalData)
  }

  /**
   * `write_cal_data` as written, returning the validated reply itself: on a
   * known feature the one request sent carries the nominal threshold's
   * high byte in all three high-byte slots.
   */
  function WriteCalData(c: Conn, link: Link, th: int, low: int, high: int): (s: Step<Option<Request>>)
    requires Valid(c.info)
    ensures c.connected && IsEnumerated(c.info, FeatureId) ==>
      && s.conn == c && |s.link.sent| == |link.sent| + 1 && s.link.sent[..|link.sent|] == link.sent
      && var p := s.link.sent[|link.sent|].params;
         |p| == 16 && p[1] == Lsb(th) && p[3] == Lsb(low) && p[5] == Lsb(high)
         && p[2] == p[4] == p[6] == ShiftRight(th, 8)
  {
    var q := WriteCalDataRequestAsWritten(th, low, high);
    assert IsEnumerated(c.info, FeatureId) ==> CallRequest(c, FeatureId, q).params == q.params + Zeros(9) by {
      if IsEnumerated(c.info, FeatureId) {
        assert Capacity(RequestTypeFor(7)) == 16;
      }
    }
    Invoke(c, link, FeatureId, Ok(q))
  }

  /**
   * `write_cal_data` with each threshold's own high byte: on a known
   * feature the one request sent reads back, through the corrected reader,
   * as the three thresholds.
   */
  function WriteCalDataCorrected(c: Conn, link: Link, th: int, low: int, high: int): (s: Step<Option<Request>>)
    requires Valid(c.info)
    ensures th >= 0 && low >= 0 && high >= 0 && c.connected && IsEnumerated(c.info, FeatureId) ==>
      && s.conn == c && |s.link.sent| == |link.sent| + 1 && s.link.sent[..|link.sent|] == link.sent
      && ParseCalData(s.link.sent[|link.sent|].params) == Ok(Some(CalData(th, low, high)))
  {
    var q := WriteCalDataRequest(th, low, high);
    assert th >= 0 && low >= 0 && high >= 0 && IsEnumerated(c.info, FeatureId) ==>
      ParseCalData(CallRequest(c, FeatureId, q).params) == Ok(Some(CalData(th, low, high))) by {
      if th >= 0 && low >= 0 && high >= 0 && IsEnumerated(c.info, FeatureId) {
        assert Capacity(RequestTypeFor(7)) == 16;
        assert CallRequest(c, FeatureId, q).params == q.params + Zeros(9);
        CalDataRoundTrip(th, low, high, Zeros(9));
      }
    }
    Invoke(c, link, FeatureId, Ok(q))
  }

  /** `monitor_mode`: the validated reply itself. */
  function MonitorMode(c: Conn, link: Link, x: int): Step<Option<Request>>
    requires Valid(c.info)
  {
    Invoke(c, link, FeatureId, Ok(MonitorModeRequest(x)))
  }

  /**
   * A device reporting a reading and baseline in range is read as written:
   * exactly for non-negative values, one too high for negative ones.
   */
  lemma {:induction false} MeasurementAnswered(c: Conn, link: Link, r: Request, custom: int, first: int, value: int, baseline: int, preload: int, rest: seq<int>)
    requires Valid(c.info) && c.connected && IsEnumerated(c.info, FeatureId)
    requires link.replies != [] && link.replies[0] == Some(r) && Answers(c, FeatureId, r)
    requires r.params == MeasurementReply(first, value, baseline, preload) + rest
    requires InReadingRange(value) && InReadingRange(baseline) && 0 <= preload <= 128
    ensures ReadMeasurement(c, link, custom).out == Ok(Some(Measurement(AsRead(value), AsRead(baseline), preload)))
  {
    CallOptAnswered(c, link, FeatureId, ReadMeasurementRequest(custom), ParseMeasurementAsWritten, r);
    ReadingAsWrittenInRange(value);
    ReadingAsWrittenInRange(baseline);
  }

  /** With the corrected decode, a device reporting a reading in range is read exactly. */
  lemma {:induction false} MeasurementAnsweredCorrected(c: Conn, link: Link, r: Request, custom: int, first: int, value: int, baseline: int, preload: int, rest: seq<int>)
    requires Valid(c.info) && c.connected && IsEnumerated(c.info, FeatureId)
    requires link.replies != [] && link.replies[0] == Some(r) && Answers(c, FeatureId, r)
    requires r.params == MeasurementReply(first, value, baseline, preload) + rest
    requires InReadingRange(value) && InReadingRange(baseline) && 0 <= preload <= 128
    ensures ReadMeasurementCorrected(c, link, custom).out == Ok(Some(Measurement(value, baseline, preload)))
  {
    CallOptAnswered(c, link, FeatureId, ReadMeasurementRequest(custom), ParseMeasurement, r);
    MeasurementRoundTrip(first, value, baseline, preload, rest);
  }

  /** As written, a device answering with seven or more bytes reports only the low bytes 1, 3 and 5. */
  lemma {:induction false} CalDataAnswered(c: Conn, link: Link, r: Request, custom: int)
    requires Valid(c.info) && c.connected && IsEnumerated(c.info, FeatureId)
    requires link.replies != [] && link.replies[0] == Some(r) && Answers(c, FeatureId, r)
    requires |r.params| >= 7 && IsBytes(r.params)
    ensures ReadCalData(c, link, custom).out == Ok(Some(CalData(r.params[1], r.params[3], r.params[5])))
  {
    CallOptAnswered(c, link, FeatureId, ReadCalDataRequest(custom), ParseCalDataAsWritten, r);
    CalDataAsWrittenDropsHighBytes(r.params);
  }

  /** With the corrected reader, a device answering with the corrected write's params reports the thresholds. */
  lemma {:induction false} CalDataAnsweredCorrected(c: Conn, link: Link, r: Request, custom: int, th: int, low: int, high: int, rest: seq<int>)
    requires Valid(c.info) && c.connected && IsEnumerated(c.info, FeatureId)
    requires link.replies != [] && link.replies[0] == Some(r) && Answers(c, FeatureId, r)
    requires th >= 0 && low >= 0 && high >= 0
    requires r.params == WriteCalDataRequest(th, low, high).params + rest
    ensures ReadCalDataCorrected(c, link, custom).out == Ok(Some(CalData(th, low, high)))
  {
    CallOptAnswered(c, link, FeatureId, ReadCalDataRequest(custom), ParseCalData, r);
    CalDataRoundTrip(th, low, high, rest);
  }
}
