/**
 * Feature 0x3617, analog keys (features/x3617_legacy.py): per-key trigger
 * modes and thresholds, and the multi-action trigger whose sixteen-byte
 * payload packs the assignments, the actuation events two to a byte and
 * the mode and hysteresis. Every method returns the validated reply.
 */
module X3617 {
  import opened Wrappers
  import opened Bits
  import opened Frame
  import opened Device
  import opened Connection
  import opened FeatureCall

  const FeatureId := 0x3617

  /** The number of assignments and of event slots in a multi-action trigger. */
  const Slots := 4

  /** `(hi << 4) | lo`: two nibbles in one byte when lo is a nibble. */
  function Nibbles(hi: int, lo: int): (r: int)
    ensures 0 <= lo < 16 ==> r == 16 * hi + lo
  {
    assert Pow2(4) == 16;
    OrOfDisjoint(hi, lo, 4);
    BitOr(ShiftLeft(hi, 4), lo)
  }

  /** A packed pair of nibbles gives back both. */
  lemma {:induction false} NibblesSplit(hi: int, lo: int)
    requires 0 <= lo < 16
    ensures ShiftRight(Nibbles(hi, lo), 4) == hi && LowBits(Nibbles(hi, lo), 4) == lo
  {
    assert Pow2(4) == 16;
    SplitOfDisjoint(hi, lo, 4);
  }

  function Request(func: int, params: seq<int>): (q: Payload)
    ensures q.func == func && q.params == params
  {
    Payload(func, params)
  }

  function SetAnalogKeyModeRequest(cidx: int, mode: int): (q: Payload)
    ensures q.func == 1 && q.params == [cidx, mode, 0]
  {
    Payload(1, [cidx, mode, 0])
  }

  function SetNormalTriggerRequest(cidx: int, actuation: int, hysteresis: int): (q: Payload)
    ensures q.func == 2 && q.params == [cidx, actuation, hysteresis]
  {
    Payload(2, [cidx, actuation, hysteresis])
  }

  /** `continuous_status` defaults to 1 in the source. */
  function SetRapidTriggerRequest(cidx: int, actuation: int, sensitivity: int, continuous: int): (q: Payload)
    ensures q.func == 3 && q.params == [cidx, actuation, sensitivity, continuous]
  {
    Payload(3, [cidx, actuation, sensitivity, continuous])
  }

  /** The getters 6 to 9 all send the key and two zeros. */
  function GetterRequest(func: int, cidx: int): (q: Payload)
    ensures q.func == func && q.params == [cidx, 0, 0]
  {
    Payload(func, [cidx, 0, 0])
  }

  predicate EventsWellFormed(events: seq<seq<int>>)
  {
    forall k :: 0 <= k < |events| ==> |events[k]| == Slots
  }

  /** Each event becomes two bytes: events 1 and 0, then events 3 and 2, the later one high. */
  function EventBytes(events: seq<seq<int>>): (r: seq<int>)
    requires EventsWellFormed(events)
    ensures |r| == 2 * |events|
    ensures forall k :: 0 <= k < |events| ==>
      r[2 * k] == Nibbles(events[k][1], events[k][0]) && r[2 * k + 1] == Nibbles(events[k][3], events[k][2])
    decreases |events|
  {
    if events == [] then []
    else
      var e := events[0];
      var rest := EventBytes(events[1..]);
      assert forall k :: 1 <= k < |events| ==> events[k] == events[1..][k - 1];
      [Nibbles(e[1], e[0]), Nibbles(e[3], e[2])] + rest
  }

  /** The arguments `setMultiAction` accepts; anything else returns None before sending. */
  predicate MultiActionValid(hi: int, lo: int, assignments: seq<int>, events: seq<seq<int>>)
  {
    hi < lo && |assignments| == Slots && |events| <= Slots && EventsWellFormed(events)
  }

  /**
   * `setMultiAction`'s payload: key, the two actuation points, the four
   * assignments, two bytes per event starting at 7 with unused slots left
   * zero, and `mode << 4 | hysteresis` last.
   */
  function MultiActionPayload(cidx: int, hi: int, lo: int, assignments: seq<int>, events: seq<seq<int>>,
                              mode: int, hysteresis: int): (r: Option<seq<int>>)
    ensures r.Some? <==> MultiActionValid(hi, lo, assignments, events)
    ensures r.Some? ==>
      && |r.value| == 16
      && r.value[..7] == [cidx, hi, lo] + assignments
      && r.value[7..7 + 2 * |events|] == EventBytes(events)
      && (forall i :: 7 + 2 * |events| <= i < 15 ==> r.value[i] == 0)
      && r.value[15] == Nibbles(mode, hysteresis)
  {
    if lo <= hi || |assignments| != Slots || |events| > Slots || !EventsWellFormed(events) then None
    else
      var p := [cidx, hi, lo] + assignments + EventBytes(events) + Zeros(8 - 2 * |events|) + [Nibbles(mode, hysteresis)];
      assert p[..7] == [cidx, hi, lo] + assignments;
      assert p[7..7 + 2 * |events|] == EventBytes(events);
      Some(p)
  }

  /** With events given as nibbles, every event is read back from its byte pair. */
  lemma {:induction false} MultiActionEventsRoundTrip(cidx: int, hi: int, lo: int, assignments: seq<int>, events: seq<seq<int>>,
                                   mode: int, hysteresis: int, k: nat)
    requires MultiActionValid(hi, lo, assignments, events) && k < |events|
    requires forall j :: 0 <= j < Slots ==> 0 <= events[k][j] < 16
    ensures var p := MultiActionPayload(cidx, hi, lo, assignments, events, mode, hysteresis).value;
      && ShiftRight(p[7 + 2 * k], 4) == events[k][1] && LowBits(p[7 + 2 * k], 4) == events[k][0]
      && ShiftRight(p[8 + 2 * k], 4) == events[k][3] && LowBits(p[8 + 2 * k], 4) == events[k][2]
  {
    var p := MultiActionPayload(cidx, hi, lo, assignments, events, mode, hysteresis).value;
    assert p[7 + 2 * k] == p[7..7 + 2 * |events|][2 * k];
    assert p[8 + 2 * k] == p[7..7 + 2 * |events|][2 * k + 1];
    NibblesSplit(events[k][1], events[k][0]);
    NibblesSplit(events[k][3], events[k][2]);
  }

  /** Without events (combine and alternate modes) bytes 7 to 14 are zero. */
  lemma {:induction false} MultiActionNoEvents(cidx: int, hi: int, lo: int, assignments: seq<int>, mode: int, hysteresis: int)
    requires hi < lo && |assignments| == Slots && 0 <= hysteresis < 16
    ensures MultiActionPayload(cidx, hi, lo, assignments, [], mode, hysteresis)
         == Some([cidx, hi, lo] + assignments + Zeros(8) + [16 * mode + hysteresis])
  {
    var p := MultiActionPayload(cidx, hi, lo, assignments, [], mode, hysteresis).value;
    var q := [cidx, hi, lo] + assignments + Zeros(8) + [16 * mode + hysteresis];
    assert MultiActionValid(hi, lo, assignments, []);
    assert |q| == 16;
    assert p[..7] == q[..7];
    forall i | 0 <= i < 16
      ensures p[i] == q[i]
    {
      if i < 7 {
        assert p[i] == p[..7][i];
      }
    }
    assert p == q;
  }

  // -------------------------------------------------------- device calls

  function Send(c: Conn, link: Link, q: Payload): Step<Option<Request>>
    requires Valid(c.info)
  {
    Invoke(c, link, FeatureId, Ok(q))
  }

  function GetCapabilities(c: Conn, link: Link): Step<Option<Request>>
    requires Valid(c.info)
  {
    Send(c, link, Payload(0, []))
  }

  function SetAnalogKeyMode(c: Conn, link: Link, cidx: int, mode: int): Step<Option<Request>>
    requires Valid(c.info)
  {
    Send(c, link, SetAnalogKeyModeRequest(cidx, mode))
  }

  function SetNormalTrigger(c: Conn, link: Link, cidx: int, actuation: int, hysteresis: int): Step<Option<Request>>
    requires Valid(c.info)
  {
    Send(c, link, SetNormalTriggerRequest(cidx, actuation, hysteresis))
  }

  function SetRapidTrigger(c: Conn, link: Link, cidx: int, actuation: int, sensitivity: int, continuous: int)
    : Step<Option<Request>>
    requires Valid(c.info)
  {
    Send(c, link, SetRapidTriggerRequest(cidx, actuation, sensitivity, continuous))
  }

  /** Invalid arguments return None and send nothing. */
  function SetMultiAction(c: Conn, link: Link, cidx: int, hi: int, lo: int, assignments: seq<int>,
                          events: seq<seq<int>>, mode: int, hysteresis: int): (s: Step<Option<Request>>)
    requires Valid(c.info)
    ensures !MultiActionValid(hi, lo, assignments, events) ==> s == Step(c, link, Ok(None))
    ensures MultiActionValid(hi, lo, assignments, events) && c.connected && IsEnumerated(c.info, FeatureId) ==>
      s.link.sent == link.sent
        + [CallRequest(c, FeatureId, Payload(4, MultiActionPayload(cidx, hi, lo, assignments, events, mode, hysteresis).value))]
  {
    match MultiActionPayload(cidx, hi, lo, assignments, events, mode, hysteresis)
    case None => Step(c, link, Ok(None))
    case Some(p) => Send(c, link, Payload(4, p))
  }

  function GetAnalogKeyMode(c: Conn, link: Link, cidx: int): Step<Option<Request>>
    requires Valid(c.info)
  {
    Send(c, link, GetterRequest(6, cidx))
  }

  function GetNormalTrigger(c: Conn, link: Link, cidx: int): Step<Option<Request>>
    requires Valid(c.info)
  {
    Send(c, link, GetterRequest(7, cidx))
  }

  function GetRapidTrigger(c: Conn, link: Link, cidx: int): Step<Option<Request>>
    requires Valid(c.info)
  {
    Send(c, link, GetterRequest(8, cidx))
  }

  function GetMultiAction(c: Conn, link: Link, cidx: int): Step<Option<Request>>
    requires Valid(c.info)
  {
    Send(c, link, GetterRequest(9, cidx))
  }
}
