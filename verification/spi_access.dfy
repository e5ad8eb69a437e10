/**
 * Feature 0x1E22, SPI direct access (features/x1e22.py): the device's
 * sensors on its SPI bus, which one is selected and how, and raw SPI
 * transfers of up to 15 bytes.
 */
module SpiAccess {
  import opened Wrappers
  import opened Bits
  import opened Frame
  import opened Device
  import opened Connection
  import opened FeatureCall

  const FeatureId := 0x1E22

  /** Access configuration bits: bit 0 stops the firmware, bit 1 drives chip select. */
  const AccessFwStopped := 0x01
  const AccessCsEnabled := 0x03
  const AccessReleased := 0x00

  /** `get_nb_devices`: this feature's own function 0, with no params; it has the same shape as other features' function 0. */
  function GetNbDevicesRequest(): (q: Payload)
    ensures q.func == 0 && q.params == []
  {
    Payload(0, [])
  }

  function GetSelectedDeviceRequest(): (q: Payload)
    ensures q.func == 1 && q.params == []
  {
    Payload(1, [])
  }

  function SelectDeviceRequest(deviceId: int, accessConfig: int): (q: Payload)
    ensures q.func == 2 && q.params == [deviceId, accessConfig]
  {
    Payload(2, [deviceId, accessConfig])
  }

  /** `spi_direct_access(n, data)`: the byte count, then the bytes. */
  function SpiDirectAccessRequest(nBytes: int, data: seq<int>): (q: Payload)
    ensures q.func == 3 && |q.params| == 1 + |data|
    ensures q.params[0] == nBytes && q.params[1..] == data
  {
    Payload(3, [nBytes] + data)
  }

  /** A transfer of at most 15 bytes goes out in one long report, unpadded data first. */
  lemma {:induction false} SpiRequestFitsLongReport(devIdx: int, featureIdx: int, data: seq<int>)
    requires 3 <= |data| <= 15
    ensures var q := SpiDirectAccessRequest(|data|, data);
      var req := MakeRequest(devIdx, featureIdx, q.func, q.params);
      && req.reqType == Some(Long)
      && |req.params| == Capacity(Long)
      && req.params[0] == |data| && req.params[1..1 + |data|] == data
  {
    var q := SpiDirectAccessRequest(|data|, data);
    var req := MakeRequest(devIdx, featureIdx, q.func, q.params);
    assert req.params[..|q.params|] == q.params;
    assert req.params[1..1 + |data|] == q.params[1..];
  }

  /** `get_nb_devices`: the count in p0. */
  function ParseNbDevices(p: seq<int>): (r: Result<int>)
    ensures r.Ok? <==> |p| >= 1
    ensures r.Raised? ==> r.exc == IndexError
    ensures r.Ok? ==> r.value == p[0]
  {
    if |p| < 1 then Raised(IndexError) else Ok(p[0])
  }

  /** What `get_selected_device` reports: the device index and its access bits. */
  datatype Selected = Selected(deviceIdx: int, fwStopped: int, csEnabled: int)

  /**
   * `get_selected_device`: the index from p0, bit 0 of p1 (firmware
   * stopped) and bit 1 of p1 (chip select enabled).
   */
  function ParseSelectedDevice(p: seq<int>): (r: Result<Selected>)
    ensures r.Ok? <==> |p| >= 2
    ensures r.Raised? ==> r.exc == IndexError
    ensures r.Ok? ==>
      && r.value.deviceIdx == p[0]
      && r.value.fwStopped == BitAt(p[1], 0)
      && r.value.csEnabled == BitAt(p[1], 1)
  {
    if |p| < 2 then Raised(IndexError)
    else Ok(Selected(p[0], p[1] % 2, (p[1] / 2) % 2))
  }

  /** The reply a device sends for its selection, both bits packed into p1. */
  function SelectedDeviceReply(idx: int, fwStopped: bool, csEnabled: bool): (p: seq<int>)
    ensures |p| == 2 && p[0] == idx && IsByte(p[1])
  {
    [idx, (if csEnabled then 2 else 0) + (if fwStopped then 1 else 0)]
  }

  /** The two access bits come back from the byte they were packed into. */
  lemma {:induction false} SelectedDeviceRoundTrip(idx: int, fwStopped: bool, csEnabled: bool)
    ensures ParseSelectedDevice(SelectedDeviceReply(idx, fwStopped, csEnabled))
         == Ok(Selected(idx, if fwStopped then 1 else 0, if csEnabled then 1 else 0))
  {
    var b := SelectedDeviceReply(idx, fwStopped, csEnabled)[1];
    assert BitAt(b, 1) == b / 2 % 2 by { assert Pow2(1) == 2; }
  }

  /** `get_nb_devices` on the device: None without a reply. */
  function GetNbDevices(c: Conn, link: Link): (s: Step<Option<int>>)
    requires Valid(c.info)
    ensures Valid(s.conn.info) && s.conn == c.(info := s.conn.info)
    ensures !c.connected ==> s == Step(c, link, Ok(None))
    ensures s.out.Raised? ==> s.out.exc in {IndexError, AttributeError}
  {
    Call(c, link, FeatureId, GetNbDevicesRequest(), ParseNbDevices)
  }

  /** `get_selected_device` on the device: None without a reply. */
  function GetSelectedDevice(c: Conn, link: Link): (s: Step<Option<Selected>>)
    requires Valid(c.info)
    ensures Valid(s.conn.info) && s.conn == c.(info := s.conn.info)
    ensures !c.connected ==> s == Step(c, link, Ok(None))
    ensures s.out.Raised? ==> s.out.exc in {IndexError, AttributeError}
    ensures s.out.Ok? && s.out.value.Some? ==> 0 <= s.out.value.value.fwStopped <= 1
  {
    Call(c, link, FeatureId, GetSelectedDeviceRequest(), ParseSelectedDevice)
  }

  /** A device answering with its selection is read back exactly. */
  lemma {:induction false} SelectedDeviceAnswered(c: Conn, link: Link, r: Request, idx: int, fwStopped: bool, csEnabled: bool)
    requires Valid(c.info) && c.connected && IsEnumerated(c.info, FeatureId)
    requires link.replies != [] && link.replies[0] == Some(r) && Answers(c, FeatureId, r)
    requires r.params == SelectedDeviceReply(idx, fwStopped, csEnabled)
    ensures GetSelectedDevice(c, link).out
         == Ok(Some(Selected(idx, if fwStopped then 1 else 0, if csEnabled then 1 else 0)))
    ensures GetSelectedDevice(c, link).link.sent == link.sent + [CallRequest(c, FeatureId, GetSelectedDeviceRequest())]
  {
    CallAnswered(c, link, FeatureId, GetSelectedDeviceRequest(), ParseSelectedDevice, r);
    SelectedDeviceRoundTrip(idx, fwStopped, csEnabled);
  }

  /**
   * `select_device(device_id, access_config)`: the validated reply itself.
   * A device id of None cannot be put on the wire: the writer thread raises
   * TypeError formatting it and stops, so nothing is written and the wait
   * for a reply ends with None. That later requests are never written
   * either is not modelled.
   */
  function SelectDevice(c: Conn, link: Link, deviceId: Option<int>, accessConfig: int): (s: Step<Option<Request>>)
    requires Valid(c.info)
    ensures Valid(s.conn.info) && s.conn == c.(info := s.conn.info)
    ensures !c.connected ==> s == Step(c, link, Ok(None))
    ensures deviceId.None? ==> s.link.sent == link.sent || s.link.sent == EnumerateFeature(c, link, FeatureId).link.sent
    ensures deviceId.None? && s.out.Ok? ==> s.out.value.None?
    ensures deviceId.Some? && c.connected && IsEnumerated(c.info, FeatureId) ==>
      s.link.sent == link.sent + [CallRequest(c, FeatureId, SelectDeviceRequest(deviceId.value, accessConfig))]
  {
    match deviceId
    case Some(i) =>
      var q := SelectDeviceRequest(i, accessConfig);
      if c.connected && IsEnumerated(c.info, FeatureId) then
        KnownFeatureSendsOneRequest(c, link, FeatureId, q.func, q.params);
        ConstructAndProcess(c, link, FeatureId, q.func, q.params)
      else ConstructAndProcess(c, link, FeatureId, q.func, q.params)
    case None =>
      if !c.connected then Step(c, link, Ok(None))
      else
        var e := EnumerateFeature(c, link, FeatureId);
        match e.out
        case Raised(x) => Step(e.conn, e.link, Raised(x))
        case Ok(_) => Step(e.conn, e.link, Ok(None))
  }

  /** `spi_direct_access(n_bytes, data_in)`: the validated reply itself. */
  function SpiDirectAccess(c: Conn, link: Link, nBytes: int, data: seq<int>): (s: Step<Option<Request>>)
    requires Valid(c.info)
    ensures Valid(s.conn.info) && s.conn == c.(info := s.conn.info)
    ensures !c.connected ==> s == Step(c, link, Ok(None))
    ensures c.connected && IsEnumerated(c.info, FeatureId) ==>
      && s.conn == c
      && s.link.sent == link.sent + [CallRequest(c, FeatureId, SpiDirectAccessRequest(nBytes, data))]
  {
    var q := SpiDirectAccessRequest(nBytes, data);
    if c.connected && IsEnumerated(c.info, FeatureId) then
      KnownFeatureSendsOneRequest(c, link, FeatureId, q.func, q.params);
      ConstructAndProcess(c, link, FeatureId, q.func, q.params)
    else ConstructAndProcess(c, link, FeatureId, q.func, q.params)
  }
}
