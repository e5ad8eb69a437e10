/**
 * Feature 0x1004, unified battery (features/x1004.py): state of charge,
 * battery level, charging status and external power, plus fast charging
 * and removable-battery status on newer versions of the feature.
 */
module X1004 {
  import opened Wrappers
  import opened Frame
  import opened Device
  import opened Connection
  import opened FeatureCall

  const FeatureId := 0x1004

  /** The feature version `get_status` assumes unless told otherwise. */
  const DefaultVersion := 5

  datatype ChargingStatus = Discharging | Charging | ChargingSlow | ChargeComplete | ChargeError
  {
    function Code(): int
    {
      match this
      case Discharging => 0
      case Charging => 1
      case ChargingSlow => 2
      case ChargeComplete => 3
      case ChargeError => 4
    }
  }

  datatype BatteryLevel = Critical | Low | Good | Full
  {
    function Code(): int
    {
      match this
      case Critical => 1
      case Low => 2
      case Good => 4
      case Full => 8
    }
  }

  /** `ChargingStatus(n)`: ValueError outside 0..4. */
  function StatusOf(n: int): (r: Result<ChargingStatus>)
    ensures r.Ok? <==> 0 <= n <= 4
    ensures r.Ok? ==> r.value.Code() == n
    ensures r.Raised? ==> r.exc == ValueError
  {
    if n == 0 then Ok(Discharging) else if n == 1 then Ok(Charging) else if n == 2 then Ok(ChargingSlow)
    else if n == 3 then Ok(ChargeComplete) else if n == 4 then Ok(ChargeError) else Raised(ValueError)
  }

  /** `BatteryLevel(n)`: ValueError unless n is 1, 2, 4 or 8. */
  function LevelOf(n: int): (r: Result<BatteryLevel>)
    ensures r.Ok? <==> n in {1, 2, 4, 8}
    ensures r.Ok? ==> r.value.Code() == n
    ensures r.Raised? ==> r.exc == ValueError
  {
    if n == 1 then Ok(Critical) else if n == 2 then Ok(Low) else if n == 4 then Ok(Good)
    else if n == 8 then Ok(Full) else Raised(ValueError)
  }

  lemma {:induction false} CodesRoundTrip(s: ChargingStatus, l: BatteryLevel)
    ensures StatusOf(s.Code()) == Ok(s) && LevelOf(l.Code()) == Ok(l)
  {
  }

  datatype State = State(
    charge: int, level: BatteryLevel, status: ChargingStatus, external: int,
    fastCharging: Option<int>, removable: Option<int>)

  /** The params `get_status` reads for a version. */
  function NeededParams(version: int): nat
  {
    if version >= 5 then 6 else if version >= 4 then 5 else 4
  }

  /**
   * `get_status`' parse, in the source's order: p5 (version 5 and up), p4
   * (version 4 and up), p0, the level from p1, the status from p2, p3.
   */
  function ParseStatus(version: int, p: seq<int>): (r: Result<State>)
    ensures r.Ok? <==> |p| >= NeededParams(version) && LevelOf(p[1]).Ok? && StatusOf(p[2]).Ok?
    ensures r.Raised? ==> r.exc in {IndexError, ValueError}
    ensures r.Ok? ==>
      && r.value.charge == p[0] && r.value.level.Code() == p[1]
      && r.value.status.Code() == p[2] && r.value.external == p[3]
    ensures r.Ok? ==> (r.value.fastCharging.Some? <==> version >= 4)
    ensures r.Ok? ==> (r.value.removable.Some? <==> version >= 5)
    ensures r.Ok? && version >= 4 ==> r.value.fastCharging == Some(p[4])
    ensures r.Ok? && version >= 5 ==> r.value.removable == Some(p[5])
  {
    if version >= 5 && |p| < 6 then Raised(IndexError)
    else if version >= 4 && |p| < 5 then Raised(IndexError)
    else if |p| < 2 then Raised(IndexError)
    else
      match LevelOf(p[1])
      case Raised(e) => Raised(e)
      case Ok(level) =>
        if |p| < 3 then Raised(IndexError)
        else
          match StatusOf(p[2])
          case Raised(e) => Raised(e)
          case Ok(status) =>
            if |p| < 4 then Raised(IndexError)
            else
              Ok(State(p[0], level, status, p[3],
                       if version >= 4 then Some(p[4]) else None,
                       if version >= 5 then Some(p[5]) else None))
  }

  /** The params a version-5 device reports for a state. */
  function StatusReply(s: State, fast: int, removable: int): seq<int>
  {
    [s.charge, s.level.Code(), s.status.Code(), s.external, fast, removable]
  }

  /** Every state a device reports is read back, with the fields its version has. */
  lemma {:induction false} StatusRoundTrip(version: int, s: State, fast: int, removable: int, rest: seq<int>)
    ensures ParseStatus(version, StatusReply(s, fast, removable) + rest)
         == Ok(s.(fastCharging := if version >= 4 then Some(fast) else None,
                  removable := if version >= 5 then Some(removable) else None))
  {
    CodesRoundTrip(s.status, s.level);
  }

  /** A level outside 1, 2, 4, 8 raises ValueError even when the status is valid. */
  lemma {:induction false} BadLevelRaises(version: int, p: seq<int>)
    requires |p| >= NeededParams(version) && !(p[1] in {1, 2, 4, 8})
    ensures ParseStatus(version, p) == Raised(ValueError)
  {
  }

  function GetStatus(c: Conn, link: Link, version: int): Step<Option<State>>
    requires Valid(c.info)
  {
    Call(c, link, FeatureId, Payload(1, []), p => ParseStatus(version, p))
  }

  /** `get_status` gives None when no accepted reply comes. */
  lemma {:induction false} GetStatusUnanswered(c: Conn, link: Link, version: int)
    requires Valid(c.info) && c.connected && IsEnumerated(c.info, FeatureId)
    requires link.replies == [] || link.replies[0].None? || !Answers(c, FeatureId, link.replies[0].value)
    ensures GetStatus(c, link, version).out == Ok(None)
  {
    CallUnanswered(c, link, FeatureId, Payload(1, []), p => ParseStatus(version, p));
  }
}
