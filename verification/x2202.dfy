/**
 * Feature 0x2202, extended adjustable DPI (features/x2202.py): reading and
 * setting a sensor's DPI on both axes and its lift-off distance.
 *
 * The getter reads the y DPI from params 5 and 6 while the setter writes
 * it at params 3 and 4: the reply of function 5 and the request of
 * function 6 are laid out differently, so a setting is not read back from
 * an echo of its own request.
 */
module X2202 {
  import opened Wrappers
  import opened Bits
  import opened IntCodec
  import opened Packing
  import opened Frame
  import opened Device
  import opened Connection
  import opened FeatureCall

  const FeatureId := 0x2202

  datatype Dpi = Dpi(x: int, y: int, lod: int)

  /** `get_sensor_dpi_parameters`: x from p1..2, y from p5..6, the lift-off distance from p9. */
  function ParseDpi(p: seq<int>): (r: Result<Dpi>)
    ensures r.Ok? <==> |p| >= 10
    ensures r.Raised? ==> r.exc == IndexError
    ensures r.Ok? && IsByte(p[2]) && IsByte(p[6]) ==> r.value == Dpi(256 * p[1] + p[2], 256 * p[5] + p[6], p[9])
  {
    if |p| < 10 then Raised(IndexError) else Ok(Dpi(HiLo(p[1], p[2]), HiLo(p[5], p[6]), p[9]))
  }

  /** The reply layout the getter reads, with the other params given. */
  function DpiReply(d: Dpi, a: int, b: int, c: int, e: int, f: int): seq<int>
  {
    [a] + Be16(d.x) + [b, c] + Be16(d.y) + [e, f, d.lod]
  }

  /** Values within 16 bits come back from a reply in that layout. */
  lemma {:induction false} DpiRoundTrip(d: Dpi, a: int, b: int, c: int, e: int, f: int, rest: seq<int>)
    requires InU16(d.x) && InU16(d.y)
    ensures ParseDpi(DpiReply(d, a, b, c, e, f) + rest) == Ok(d)
  {
    HiLoSplit(d.x);
    HiLoSplit(d.y);
    DivModUnique(d.x, 0x1_0000, 0, d.x);
    DivModUnique(d.y, 0x1_0000, 0, d.y);
  }

  /** `set_sensor_dpi_parameters`: sensor, x high and low byte, y high and low byte, lift-off distance. */
  function SetDpiParams(sensor: int, x: int, y: int, lod: int): (p: seq<int>)
    ensures |p| == 6 && p[0] == sensor && p[5] == lod && IsBytes(p[1..5])
    ensures HiLo(p[1], p[2]) == x % 0x1_0000 && HiLo(p[3], p[4]) == y % 0x1_0000
  {
    HiLoSplit(x);
    HiLoSplit(y);
    [sensor] + Be16(x) + Be16(y) + [lod]
  }

  /**
   * A reply echoing the set request gives x back, but reads y from the
   * lift-off distance and the next param, and the lift-off distance from
   * four params further on.
   */
  lemma {:induction false} EchoMisplacesY(sensor: int, x: int, y: int, lod: int, rest: seq<int>)
    requires |rest| >= 4 && IsByte(rest[0])
    ensures ParseDpi(SetDpiParams(sensor, x, y, lod) + rest)
         == Ok(Dpi(x % 0x1_0000, 256 * lod + rest[0], rest[3]))
  {
    var p := SetDpiParams(sensor, x, y, lod) + rest;
    assert p[2] == Lsb(x) && p[5] == lod && p[6] == rest[0] && p[9] == rest[3];
  }

  /** `sendor_id` defaults to 0 in the source. */
  function GetDpi(c: Conn, link: Link, sensor: int): Step<Option<Dpi>>
    requires Valid(c.info)
  {
    Call(c, link, FeatureId, Payload(5, [sensor]), ParseDpi)
  }

  function SetDpi(c: Conn, link: Link, sensor: int, x: int, y: int, lod: int): Step<()>
    requires Valid(c.info)
  {
    Command(c, link, FeatureId, Ok(Payload(6, SetDpiParams(sensor, x, y, lod))))
  }

  /** The getter gives None when no accepted reply comes. */
  lemma {:induction false} GetDpiUnanswered(c: Conn, link: Link, sensor: int)
    requires Valid(c.info) && c.connected && IsEnumerated(c.info, FeatureId)
    requires link.replies == [] || link.replies[0].None? || !Answers(c, FeatureId, link.replies[0].value)
    ensures GetDpi(c, link, sensor).out == Ok(None)
  {
    CallUnanswered(c, link, FeatureId, Payload(5, [sensor]), ParseDpi);
  }
}
