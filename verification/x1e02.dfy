/**
 * Feature 0x1E02, feature access control (features/x1e02.py): which
 * restricted features are supported, persistent and enabled, as bitmaps,
 * and enabling or disabling them.
 */
module X1E02 {
  import opened Wrappers
  import opened Bits
  import opened IntCodec
  import opened Packing
  import opened Frame
  import opened Device
  import opened Connection
  import opened FeatureCall

  const FeatureId := 0x1E02

  /** `get_info`: the support, persistence and state bitmaps from p0, p1, p2. */
  function ParseInfo(p: seq<int>): (r: Result<seq<int>>)
    ensures r.Ok? <==> |p| >= 3
    ensures r.Ok? ==> r.value == p[..3]
    ensures r.Raised? ==> r.exc == IndexError
  {
    if |p| < 3 then Raised(IndexError) else Ok([p[0], p[1], p[2]])
  }

  /** `get_react_info`: `p0 << 8 | p1`. */
  function ParseReactInfo(p: seq<int>): (r: Result<int>)
    ensures r.Ok? <==> |p| >= 2
    ensures r.Ok? && IsBytes(p[..2]) ==> r.value == 256 * p[0] + p[1]
    ensures r.Raised? ==> r.exc == IndexError
  {
    if |p| < 2 then Raised(IndexError) else Ok(HiLo(p[0], p[1]))
  }

  /** A 16-bit value sent high byte first is what `get_react_info` reports. */
  lemma {:induction false} ReactInfoRoundTrip(v: int, rest: seq<int>)
    requires InU16(v)
    ensures ParseReactInfo(Be16(v) + rest) == Ok(v)
  {
    HiLoSplit(v);
    DivModUnique(v, 0x1_0000, 0, v);
  }

  function GetInfo(c: Conn, link: Link): Step<Option<seq<int>>>
    requires Valid(c.info)
  {
    Call(c, link, FeatureId, Payload(0, []), ParseInfo)
  }

  function GetReactInfo(c: Conn, link: Link): Step<Option<int>>
    requires Valid(c.info)
  {
    Call(c, link, FeatureId, Payload(3, []), ParseReactInfo)
  }

  function DisableFeatures(c: Conn, link: Link, bitmap: int): Step<Option<Request>>
    requires Valid(c.info)
  {
    Invoke(c, link, FeatureId, Ok(Payload(1, [bitmap])))
  }

  function EnableFeatures(c: Conn, link: Link, bitmap: int): Step<Option<Request>>
    requires Valid(c.info)
  {
    Invoke(c, link, FeatureId, Ok(Payload(2, [bitmap])))
  }

  /** Both getters give None when no accepted reply comes. */
  lemma {:induction false} GettersUnanswered(c: Conn, link: Link)
    requires Valid(c.info) && c.connected && IsEnumerated(c.info, FeatureId)
    requires link.replies == [] || link.replies[0].None? || !Answers(c, FeatureId, link.replies[0].value)
    ensures GetInfo(c, link).out == Ok(None) && GetReactInfo(c, link).out == Ok(None)
  {
    CallUnanswered(c, link, FeatureId, Payload(0, []), ParseInfo);
    CallUnanswered(c, link, FeatureId, Payload(3, []), ParseReactInfo);
  }

  /** On a known feature, `get_react_info` sends function 3 and reports the replied 16-bit value. */
  lemma {:induction false} ReactInfoAnswered(c: Conn, link: Link, r: Request, v: int, rest: seq<int>)
    requires Valid(c.info) && c.connected && IsEnumerated(c.info, FeatureId)
    requires link.replies != [] && link.replies[0] == Some(r) && Answers(c, FeatureId, r)
    requires InU16(v) && r.params == Be16(v) + rest
    ensures GetReactInfo(c, link).out == Ok(Some(v))
    ensures GetReactInfo(c, link).link.sent == link.sent + [CallRequest(c, FeatureId, Payload(3, []))]
  {
    CallAnswered(c, link, FeatureId, Payload(3, []), ParseReactInfo, r);
    ReactInfoRoundTrip(v, rest);
  }
}
