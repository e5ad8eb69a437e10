/**
 * The sensor interface (sensor/interface.py): a connected device whose
 * sensor is reached through SPI direct access (feature 0x1E22), with the
 * chip-select and firmware-stop flags the library keeps about it.
 *
 * `SensorInterface` is a `ConnectedDevice`, and its own `connected`
 * attribute is the one every feature request checks, so `detect_state`
 * writes the connection's `connected` flag.
 */
module SensorInterface {
  import opened Wrappers
  import opened Bits
  import opened Frame
  import opened Device
  import opened Connection
  import opened FeatureCall
  import opened SpiAccess
  import DeviceIdentity

  /** Feature 0x1E00, hidden features, and its `set_enable_hidden_features(True)`. */
  const HiddenFeaturesId := 0x1E00
  const EnableHiddenFunction := 1

  /** `transmission` keeps at most this many bytes of the data out. */
  const MaxTransfer := 15

  /** `detect_state` tries to enable the hidden features this many times. */
  const HiddenAttempts := 3

  /** The library's view of the sensor; every flag starts as None. */
  datatype Iface = Iface(
    conn: Conn,
    fwStopped: Option<bool>,
    csEnabled: Option<bool>,
    protected: Option<bool>,
    sensorIndex: Option<int>)

  /** The interface after an operation, the link, and the outcome. */
  datatype Turn<T> = Turn(itf: Iface, link: Link, out: Result<T>)

  /** Python truthiness of an optional flag: None counts as false. */
  predicate Truthy(b: Option<bool>) { b == Some(true) }

  /** `is_error`: a device error frame. */
  predicate IsError(ans: Request) { ans.feature == ErrorFeature }

  /** A reply that got through validation is never an error frame. */
  lemma {:induction false} ValidatedIsNeverError(c: Conn, link: Link, featureId: int, func: int, params: seq<int>)
    requires Valid(c.info)
    ensures var s := ConstructAndProcess(c, link, featureId, func, params);
      s.out.Ok? && s.out.value.Some? ==> !IsError(s.out.value.value)
  {
  }

  // ------------------------------------------------------------ detection

  /** The hidden-feature attempts: the last answer and how many requests were tried. */
  datatype Hidden = Hidden(conn: Conn, link: Link, out: Result<Option<Request>>, attempts: nat)

  /**
   * The `for i in range(3)` loop of `detect_state` from `left` attempts
   * remaining: an answer that is not an error frame ends it, anything else
   * leads to the next attempt, and the last answer is kept.
   */
  function EnableHidden(c: Conn, link: Link, left: nat, ans: Option<Request>): (h: Hidden)
    requires Valid(c.info)
    ensures Valid(h.conn.info) && h.conn == c.(info := h.conn.info)
    ensures h.attempts <= left
    ensures left > 0 ==> h.attempts >= 1
    ensures h.out.Ok? && h.out.value.None? ==> h.attempts == left
    ensures h.out.Ok? && h.out.value.Some? && h.attempts > 0 ==> !IsError(h.out.value.value)
    ensures left == 0 ==> h == Hidden(c, link, Ok(ans), 0)
    decreases left
  {
    if left == 0 then Hidden(c, link, Ok(ans), 0)
    else
      var s := ConstructAndProcess(c, link, HiddenFeaturesId, EnableHiddenFunction, [1]);
      match s.out
      case Raised(e) => Hidden(s.conn, s.link, Raised(e), 1)
      case Ok(a) =>
        if a.Some? && !IsError(a.value) then Hidden(s.conn, s.link, Ok(a), 1)
        else
          var h := EnableHidden(s.conn, s.link, left - 1, a);
          Hidden(h.conn, h.link, h.out, h.attempts + 1)
  }

  /**
   * `detect_state`: the three flags are cleared; when the hidden features
   * answered, the device is connected and the selected SPI device, if it
   * answers, gives the sensor index and both flags; otherwise `connected`
   * becomes whether the device information answers.
   */
  function DetectState(itf: Iface, link: Link): (t: Turn<()>)
    requires Valid(itf.conn.info)
    ensures Valid(t.itf.conn.info)
    ensures t.itf.conn == itf.conn.(info := t.itf.conn.info, connected := t.itf.conn.connected)
    ensures t.itf.protected.None?
    ensures t.itf.fwStopped.Some? <==> t.itf.csEnabled.Some?
    ensures t.itf.fwStopped.Some? ==> t.out.Ok? && t.itf.conn.connected
    ensures t.itf.fwStopped.None? ==> t.itf.sensorIndex == itf.sensorIndex
    ensures !itf.conn.connected ==> t == Turn(itf.(fwStopped := None, csEnabled := None, protected := None), link, Ok(()))
  {
    var itf0 := itf.(fwStopped := None, csEnabled := None, protected := None);
    var h := EnableHidden(itf.conn, link, HiddenAttempts, None);
    match h.out
    case Raised(e) => Turn(itf0.(conn := h.conn), h.link, Raised(e))
    case Ok(ans) =>
      if ans.None? then
        var d := Call(h.conn, h.link, DeviceIdentity.FeatureId, DeviceIdentity.GetDeviceInfoRequest(),
                      DeviceIdentity.ParseDeviceInfo);
        match d.out
        case Raised(e) => Turn(itf0.(conn := d.conn), d.link, Raised(e))
        case Ok(info) => Turn(itf0.(conn := d.conn.(connected := info.Some?)), d.link, Ok(()))
      else
        var g := GetSelectedDevice(h.conn.(connected := true), h.link);
        match g.out
        case Raised(e) => Turn(itf0.(conn := g.conn), g.link, Raised(e))
        case Ok(sel) =>
          if sel.None? then Turn(itf0.(conn := g.conn), g.link, Ok(()))
          else
            Turn(itf0.(conn := g.conn, sensorIndex := Some(sel.value.deviceIdx),
                       fwStopped := Some(sel.value.fwStopped != 0), csEnabled := Some(sel.value.csEnabled != 0)),
                 g.link, Ok(()))
  }

  /**
   * A device that accepts the hidden features at the first attempt and then
   * reports its selection gets the sensor index and both flags from it.
   */
  lemma {:induction false} DetectStateReadsSelection(itf: Iface, link: Link, r1: Request, r2: Request,
                                  idx: int, fwStopped: bool, csEnabled: bool)
    requires Valid(itf.conn.info) && itf.conn.connected
    requires IsEnumerated(itf.conn.info, HiddenFeaturesId) && IsEnumerated(itf.conn.info, FeatureId)
    requires |link.replies| >= 2 && link.replies[0] == Some(r1) && link.replies[1] == Some(r2)
    requires Answers(itf.conn, HiddenFeaturesId, r1) && Answers(itf.conn, FeatureId, r2)
    requires r2.params == SelectedDeviceReply(idx, fwStopped, csEnabled)
    ensures var t := DetectState(itf, link);
      && t.out.Ok?
      && t.itf == itf.(sensorIndex := Some(idx), fwStopped := Some(fwStopped),
                       csEnabled := Some(csEnabled), protected := None)
      && t.link.replies == link.replies[2..]
  {
    var c := itf.conn;
    var h := EnableHidden(c, link, HiddenAttempts, None);
    KnownFeatureSendsOneRequest(c, link, HiddenFeaturesId, EnableHiddenFunction, [1]);
    assert h.out == Ok(Some(r1)) && h.conn == c;
    assert h.link.replies == link.replies[1..];
    SelectedDeviceAnswered(c, h.link, r2, idx, fwStopped, csEnabled);
  }

  /** A disconnected interface sends nothing while detecting, and stays disconnected. */
  lemma {:induction false} DetectStateOffline(itf: Iface, link: Link)
    requires Valid(itf.conn.info) && !itf.conn.connected
    ensures DetectState(itf, link).link == link
    ensures !DetectState(itf, link).itf.conn.connected
  {
    var h := EnableHidden(itf.conn, link, HiddenAttempts, None);
    assert h.link == link && h.out == Ok(None) by {
      var h1 := EnableHidden(itf.conn, link, 1, None);
      var h2 := EnableHidden(itf.conn, link, 2, None);
      assert h1.link == link && h1.out == Ok(None);
      assert h2.link == link && h2.out == Ok(None);
    }
  }

  // ------------------------------------------------------ chip select, firmware

  /**
   * `cs_enable`: when chip select is not known to be enabled, the sensor is
   * selected with firmware stopped and chip select on (access 3).
   */
  function CsEnable(itf: Iface, link: Link): (t: Turn<()>)
    requires Valid(itf.conn.info)
    ensures Valid(t.itf.conn.info) && t.itf.conn == itf.conn.(info := t.itf.conn.info)
    ensures Truthy(itf.csEnabled) ==> t == Turn(itf, link, Ok(()))
    ensures t.out.Ok? ==> t.itf == itf.(conn := t.itf.conn, csEnabled := Some(true))
    ensures t.out.Raised? ==> t.itf == itf.(conn := t.itf.conn)
    ensures !Truthy(itf.csEnabled) ==> t.link == SelectDevice(itf.conn, link, itf.sensorIndex, AccessCsEnabled).link
  {
    if Truthy(itf.csEnabled) then Turn(itf, link, Ok(()))
    else Selected(itf, SelectDevice(itf.conn, link, itf.sensorIndex, AccessCsEnabled), itf.(csEnabled := Some(true)))
  }

  /** The flags after a selection that did not raise; the reply is not looked at. */
  function Selected(itf: Iface, s: Step<Option<Request>>, after: Iface): (t: Turn<()>)
    ensures t.link == s.link
    ensures s.out.Ok? ==> t == Turn(after.(conn := s.conn), s.link, Ok(()))
    ensures s.out.Raised? ==> t == Turn(itf.(conn := s.conn), s.link, Raised(s.out.exc))
  {
    match s.out
    case Raised(e) => Turn(itf.(conn := s.conn), s.link, Raised(e))
    case Ok(_) => Turn(after.(conn := s.conn), s.link, Ok(()))
  }

  /** The access configuration `cs_disable` selects: firmware stopped kept, chip select off. */
  function CsDisableAccess(fwStopped: Option<bool>): (a: int)
    ensures a == AccessReleased <==> !Truthy(fwStopped)
    ensures a == AccessFwStopped <==> Truthy(fwStopped)
  {
    if !Truthy(fwStopped) then AccessReleased else AccessFwStopped
  }

  /** `cs_disable`: chip select off, the firmware left as the flags record it. */
  function CsDisable(itf: Iface, link: Link): (t: Turn<()>)
    requires Valid(itf.conn.info)
    ensures Valid(t.itf.conn.info) && t.itf.conn == itf.conn.(info := t.itf.conn.info)
    ensures t.link == SelectDevice(itf.conn, link, itf.sensorIndex, CsDisableAccess(itf.fwStopped)).link
    ensures t.out.Ok? ==> t.itf == itf.(conn := t.itf.conn, csEnabled := Some(false))
    ensures t.out.Raised? ==> t.itf == itf.(conn := t.itf.conn)
  {
    Selected(itf, SelectDevice(itf.conn, link, itf.sensorIndex, CsDisableAccess(itf.fwStopped)),
             itf.(csEnabled := Some(false)))
  }

  /** `fw_stop`: the sensor selected with the firmware stopped and chip select off. */
  function FwStop(itf: Iface, link: Link): (t: Turn<()>)
    requires Valid(itf.conn.info)
    ensures Valid(t.itf.conn.info) && t.itf.conn == itf.conn.(info := t.itf.conn.info)
    ensures t.link == SelectDevice(itf.conn, link, itf.sensorIndex, AccessFwStopped).link
    ensures t.out.Ok? ==> t.itf == itf.(conn := t.itf.conn, fwStopped := Some(true), csEnabled := Some(false))
    ensures t.out.Raised? ==> t.itf == itf.(conn := t.itf.conn)
  {
    Selected(itf, SelectDevice(itf.conn, link, itf.sensorIndex, AccessFwStopped),
             itf.(fwStopped := Some(true), csEnabled := Some(false)))
  }

  /** `fw_resume`: the sensor released, firmware running and chip select off. */
  function FwResume(itf: Iface, link: Link): (t: Turn<()>)
    requires Valid(itf.conn.info)
    ensures Valid(t.itf.conn.info) && t.itf.conn == itf.conn.(info := t.itf.conn.info)
    ensures t.link == SelectDevice(itf.conn, link, itf.sensorIndex, AccessReleased).link
    ensures t.out.Ok? ==> t.itf == itf.(conn := t.itf.conn, fwStopped := Some(false), csEnabled := Some(false))
    ensures t.out.Raised? ==> t.itf == itf.(conn := t.itf.conn)
  {
    Selected(itf, SelectDevice(itf.conn, link, itf.sensorIndex, AccessReleased),
             itf.(fwStopped := Some(false), csEnabled := Some(false)))
  }

  /**
   * Enabling then disabling chip select leaves the firmware as the flags
   * had it: the second selection carries exactly the firmware-stop bit.
   */
  lemma {:induction false} CsRoundTripKeepsFirmware(itf: Iface, link: Link)
    requires Valid(itf.conn.info)
    requires CsEnable(itf, link).out.Ok?
    ensures var e := CsEnable(itf, link);
      && e.itf.fwStopped == itf.fwStopped
      && CsDisable(e.itf, e.link).link
         == SelectDevice(e.itf.conn, e.link, itf.sensorIndex, if Truthy(itf.fwStopped) then 1 else 0).link
      && (CsDisable(e.itf, e.link).out.Ok? ==> !Truthy(CsDisable(e.itf, e.link).itf.csEnabled))
  {
  }

  /** After `fw_stop`, chip select off keeps the firmware stopped; after `fw_resume`, running. */
  lemma {:induction false} CsDisableFollowsFirmware(itf: Iface, link: Link)
    requires Valid(itf.conn.info)
    ensures var s := FwStop(itf, link);
      s.out.Ok? ==> CsDisable(s.itf, s.link).link == SelectDevice(s.itf.conn, s.link, itf.sensorIndex, AccessFwStopped).link
    ensures var s := FwResume(itf, link);
      s.out.Ok? ==> CsDisable(s.itf, s.link).link == SelectDevice(s.itf.conn, s.link, itf.sensorIndex, AccessReleased).link
  {
  }

  // ------------------------------------------------------------ transfers

  /** The bytes `transmission` actually sends: the first 15. */
  function Truncated(sdo: seq<int>): (out: seq<int>)
    ensures |out| == Min(|sdo|, MaxTransfer)
    ensures out == sdo[..|out|]
  {
    if |sdo| > MaxTransfer then sdo[0..MaxTransfer] else sdo
  }

  /**
   * `transmission(sdo)`: the data, cut to 15 bytes, goes out in one SPI
   * direct access; the bytes read back are the reply's params after the
   * count, as many as were sent (fewer if the reply is shorter), or None
   * without a reply.
   */
  function Transmission(itf: Iface, link: Link, sdo: seq<int>): (t: Turn<Option<seq<int>>>)
    requires Valid(itf.conn.info)
    ensures Valid(t.itf.conn.info) && t.itf == itf.(conn := t.itf.conn)
    ensures t.itf.conn == itf.conn.(info := t.itf.conn.info)
    ensures t.out.Ok? && t.out.value.Some? ==> |t.out.value.value| <= Min(|sdo|, MaxTransfer)
    ensures !itf.conn.connected ==> t == Turn(itf, link, Ok(None))
  {
    var out := Truncated(sdo);
    var s := SpiDirectAccess(itf.conn, link, |out|, out);
    match s.out
    case Raised(e) => Turn(itf.(conn := s.conn), s.link, Raised(e))
    case Ok(None) => Turn(itf.(conn := s.conn), s.link, Ok(None))
    case Ok(Some(res)) => Turn(itf.(conn := s.conn), s.link, Ok(Some(Slice(res.params, 1, |out| + 1))))
  }

  /**
   * On a known feature, a transfer sends one request carrying the count and
   * the first 15 bytes, and an accepted reply gives its params 1..n.
   */
  lemma {:induction false} TransmissionAnswered(itf: Iface, link: Link, sdo: seq<int>, r: Request)
    requires Valid(itf.conn.info) && itf.conn.connected && IsEnumerated(itf.conn.info, FeatureId)
    requires link.replies != [] && link.replies[0] == Some(r) && Answers(itf.conn, FeatureId, r)
    ensures var t := Transmission(itf, link, sdo);
      var n := Min(|sdo|, MaxTransfer);
      && t.itf == itf
      && t.link == Link(link.replies[1..], link.sent + [CallRequest(itf.conn, FeatureId, SpiDirectAccessRequest(n, sdo[..n]))])
      && t.out == Ok(Some(Slice(r.params, 1, n + 1)))
  {
    var out := Truncated(sdo);
    KnownFeatureSendsOneRequest(itf.conn, link, FeatureId, 3, [|out|] + out);
  }
}
