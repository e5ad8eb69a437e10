/**
 * Feature 0x19C0, force sensing button (features/x19c0.py): the number of
 * buttons, each button's force capabilities, and its two thresholds L1 and
 * L2 in ADC counts, sent and read as big-endian 16-bit pairs. Every method
 * gives None without a reply and also when the reply has too few params.
 */
module ForceButton {
  import opened Wrappers
  import opened Bits
  import opened Packing
  import opened Frame
  import opened Device
  import opened Connection
  import opened FeatureCall

  const FeatureId := 0x19C0

  /** `get_capabilities`: feature 0x19C0's own function 0, with no params; it has the same shape as other features' function 0. */
  function CapabilitiesRequest(): (q: Payload)
    ensures q.func == 0 && q.params == []
  {
    Payload(0, [])
  }

  function ButtonCapabilitiesRequest(button: int): (q: Payload)
    ensures q.func == 1 && q.params == [button]
  {
    Payload(1, [button])
  }

  function ButtonConfigRequest(button: int): (q: Payload)
    ensures q.func == 2 && q.params == [button]
  {
    Payload(2, [button])
  }

  /**
   * `set_button_config`: the button, then each threshold's high and low
   * byte. Only the low 16 bits of a threshold reach the device.
   */
  function SetButtonConfigRequest(button: int, l1: int, l2: int): (q: Payload)
    ensures q.func == 3 && |q.params| == 5 && q.params[0] == button
    ensures IsBytes(q.params[1..])
    ensures 256 * q.params[1] + q.params[2] == l1 % 0x1_0000
    ensures 256 * q.params[3] + q.params[4] == l2 % 0x1_0000
  {
    HiLoSplit(l1);
    HiLoSplit(l2);
    Payload(3, [button, Msb(l1), Lsb(l1), Msb(l2), Lsb(l2)])
  }

  function ResetButtonConfigRequest(button: int): (q: Payload)
    ensures q.func == 4 && q.params == [button]
  {
    Payload(4, [button])
  }

  /** `get_capabilities`: the number of buttons in p0. */
  function ParseCapabilities(p: seq<int>): (r: Result<Option<int>>)
    ensures r.Ok?
    ensures r.value.None? <==> |p| < 1
    ensures r.value.Some? ==> r.value.value == p[0]
  {
    if |p| < 1 then Ok(None) else Ok(Some(p[0]))
  }

  datatype ButtonCapabilities = ButtonCapabilities(
    capabilities: int, defaultForce: int, maxForce: int, minForce: int, numThresholds: int)

  /** `get_button_capabilities`: four big-endian pairs, then the threshold count. */
  function ParseButtonCapabilities(p: seq<int>): (r: Result<Option<ButtonCapabilities>>)
    ensures r.Ok?
    ensures r.value.None? <==> |p| < 9
    ensures r.value.Some? && IsBytes(p[..9]) ==>
      var b := r.value.value;
      && b.capabilities == 256 * p[0] + p[1] && b.defaultForce == 256 * p[2] + p[3]
      && b.maxForce == 256 * p[4] + p[5] && b.minForce == 256 * p[6] + p[7]
      && b.numThresholds == p[8]
  {
    if |p| < 9 then Ok(None)
    else Ok(Some(ButtonCapabilities(HiLo(p[0], p[1]), HiLo(p[2], p[3]), HiLo(p[4], p[5]),
                                    HiLo(p[6], p[7]), p[8])))
  }

  /** The params of a capabilities reply, each 16-bit field high byte first. */
  function ButtonCapabilitiesReply(b: ButtonCapabilities): seq<int>
  {
    Be16(b.capabilities) + Be16(b.defaultForce) + Be16(b.maxForce) + Be16(b.minForce) + [b.numThresholds]
  }

  /** Capabilities within their field widths are read back from their reply. */
  lemma {:induction false} ButtonCapabilitiesRoundTrip(b: ButtonCapabilities, rest: seq<int>)
    requires 0 <= b.capabilities < 0x1_0000 && 0 <= b.defaultForce < 0x1_0000
    requires 0 <= b.maxForce < 0x1_0000 && 0 <= b.minForce < 0x1_0000
    ensures ParseButtonCapabilities(ButtonCapabilitiesReply(b) + rest) == Ok(Some(b))
  {
    var p := ButtonCapabilitiesReply(b) + rest;
    assert p[0..2] == Be16(b.capabilities) && p[2..4] == Be16(b.defaultForce);
    assert p[4..6] == Be16(b.maxForce) && p[6..8] == Be16(b.minForce) && p[8] == b.numThresholds;
    HiLoSplit(b.capabilities);
    HiLoSplit(b.defaultForce);
    HiLoSplit(b.maxForce);
    HiLoSplit(b.minForce);
  }

  /** The two thresholds, in ADC counts. */
  datatype Thresholds = Thresholds(l1: int, l2: int)

  /** `get_button_config` and `reset_button_config`: L1 from p0..1, L2 from p2..3. */
  function ParseThresholds(p: seq<int>): (r: Result<Option<Thresholds>>)
    ensures r.Ok?
    ensures r.value.None? <==> |p| < 4
    ensures r.value.Some? && IsBytes(p[..4]) ==>
      r.value.value == Thresholds(256 * p[0] + p[1], 256 * p[2] + p[3])
  {
    if |p| < 4 then Ok(None) else Ok(Some(Thresholds(HiLo(p[0], p[1]), HiLo(p[2], p[3]))))
  }

  /** The params of a thresholds reply. */
  function ThresholdsReply(t: Thresholds): seq<int>
  {
    Be16(t.l1) + Be16(t.l2)
  }

  lemma {:induction false} ThresholdsRoundTrip(t: Thresholds, rest: seq<int>)
    ensures ParseThresholds(ThresholdsReply(t) + rest) == Ok(Some(Thresholds(t.l1 % 0x1_0000, t.l2 % 0x1_0000)))
  {
    var p := ThresholdsReply(t) + rest;
    assert p[0..2] == Be16(t.l1) && p[2..4] == Be16(t.l2);
    HiLoSplit(t.l1);
    HiLoSplit(t.l2);
  }

  /** What `set_button_config` reports: the applied values as echoed. */
  datatype Echo = Echo(button: int, l1: int, l2: int)

  function ParseEcho(p: seq<int>): (r: Result<Option<Echo>>)
    ensures r.Ok?
    ensures r.value.None? <==> |p| < 5
    ensures r.value.Some? && IsBytes(p[..5]) ==>
      r.value.value == Echo(p[0], 256 * p[1] + p[2], 256 * p[3] + p[4])
  {
    if |p| < 5 then Ok(None) else Ok(Some(Echo(p[0], HiLo(p[1], p[2]), HiLo(p[3], p[4]))))
  }

  /**
   * A device that echoes the request's params reports the button and each
   * threshold modulo 2^16.
   */
  lemma {:induction false} SetThenEcho(button: int, l1: int, l2: int, rest: seq<int>)
    ensures ParseEcho(SetButtonConfigRequest(button, l1, l2).params + rest)
         == Ok(Some(Echo(button, l1 % 0x1_0000, l2 % 0x1_0000)))
  {
    var p := SetButtonConfigRequest(button, l1, l2).params + rest;
    assert p[1] == Msb(l1) && p[2] == Lsb(l1) && p[3] == Msb(l2) && p[4] == Lsb(l2);
    HiLoSplit(l1);
    HiLoSplit(l2);
  }

  function GetCapabilities(c: Conn, link: Link): Step<Option<int>>
    requires Valid(c.info)
  {
    CallOpt(c, link, FeatureId, CapabilitiesRequest(), ParseCapabilities)
  }

  function GetButtonCapabilities(c: Conn, link: Link, button: int): Step<Option<ButtonCapabilities>>
    requires Valid(c.info)
  {
    CallOpt(c, link, FeatureId, ButtonCapabilitiesRequest(button), ParseButtonCapabilities)
  }

  function GetButtonConfig(c: Conn, link: Link, button: int): Step<Option<Thresholds>>
    requires Valid(c.info)
  {
    CallOpt(c, link, FeatureId, ButtonConfigRequest(button), ParseThresholds)
  }

  function SetButtonConfig(c: Conn, link: Link, button: int, l1: int, l2: int): Step<Option<Echo>>
    requires Valid(c.info)
  {
    CallOpt(c, link, FeatureId, SetButtonConfigRequest(button, l1, l2), ParseEcho)
  }

  function ResetButtonConfig(c: Conn, link: Link, button: int): Step<Option<Thresholds>>
    requires Valid(c.info)
  {
    CallOpt(c, link, FeatureId, ResetButtonConfigRequest(button), ParseThresholds)
  }

  /**
   * On a known feature, setting the thresholds sends the packed request,
   * and a device echoing it makes the call report the values modulo 2^16.
   */
  lemma {:induction false} SetButtonConfigEchoed(c: Conn, link: Link, r: Request, button: int, l1: int, l2: int, rest: seq<int>)
    requires Valid(c.info) && c.connected && IsEnumerated(c.info, FeatureId)
    requires link.replies != [] && link.replies[0] == Some(r) && Answers(c, FeatureId, r)
    requires r.params == SetButtonConfigRequest(button, l1, l2).params + rest
    ensures SetButtonConfig(c, link, button, l1, l2).out == Ok(Some(Echo(button, l1 % 0x1_0000, l2 % 0x1_0000)))
    ensures SetButtonConfig(c, link, button, l1, l2).link.sent
         == link.sent + [CallRequest(c, FeatureId, SetButtonConfigRequest(button, l1, l2))]
  {
    CallOptAnswered(c, link, FeatureId, SetButtonConfigRequest(button, l1, l2), ParseEcho, r);
    SetThenEcho(button, l1, l2, rest);
  }

  /** A reply too short for both thresholds reads as no configuration at all. */
  lemma {:induction false} ShortConfigReplyIsNone(c: Conn, link: Link, r: Request, button: int)
    requires Valid(c.info) && c.connected && IsEnumerated(c.info, FeatureId)
    requires link.replies != [] && link.replies[0] == Some(r) && Answers(c, FeatureId, r)
    requires |r.params| < 4
    ensures GetButtonConfig(c, link, button).out == Ok(None)
  {
    CallOptAnswered(c, link, FeatureId, ButtonConfigRequest(button), ParseThresholds, r);
  }
}
